/** What the parser makes of a byte string. The parser describes each event in a log message and cuts
its data at byte 200 for that; where a character lies across that byte, the parser dies. `stops` says
whether it does: with it the functions follow the code, without it they say what the stream means. */
module SseMeaning {
  import opened Basics
  import opened JsonValue
  import opened Sse
  import opened SseLines
  import opened TextLines

  datatype Progress = Progress(patch: PatchState, eventType: Option<string>, dataLines: seq<string>)

  const Begin: Progress := Progress(PatchState("", "", []), None, [])

  /** The state after one line, none if the parser died, and the events. */
  function OnLine(t: Tools, stops: bool, s: Progress, raw: seq<byte>): (r: (Option<Progress>, seq<DsEvent>))
    ensures r.0.None? ==> stops && t.decode(raw) == "" && r.1 == []
  {
    var line := t.decode(raw);
    if line == "" then
      if stops && CutsCharacter(Join(s.dataLines)) then (None, [])
      else
        var (patch, evs) := FlushEvent(t, s.patch, s.eventType, s.dataLines);
        (Some(Progress(patch, None, [])), evs)
    else if StartsWith(line, "event:") then (Some(s.(eventType := Some(t.trim(line[|"event:"|..])))), [])
    else if StartsWith(line, "data:") then (Some(s.(dataLines := s.dataLines + [t.trim(line[|"data:"|..])])), [])
    else (Some(s), [])
  }

  function OnLines(t: Tools, stops: bool, lines: seq<seq<byte>>): (r: (Option<Progress>, seq<DsEvent>))
    ensures r.0.None? ==> stops
  {
    if lines == [] then (Some(Begin), [])
    else
      var (before, evs) := OnLines(t, stops, lines[..|lines| - 1]);
      if before.None? then (None, evs)
      else
        var (after, more) := OnLine(t, stops, before.value, lines[|lines| - 1]);
        (after, evs + more)
  }

  /** The final patch state, none if the parser died, and all events of a stream with these bytes: its
      complete lines, and a flush of what is pending at the end. A last line without newline is lost. */
  function Interpretation(t: Tools, stops: bool, b: seq<byte>): (r: (Option<PatchState>, seq<DsEvent>))
    ensures r.0.None? ==> stops
  {
    var (s, evs) := OnLines(t, stops, Lines(b));
    if s.None? || (stops && CutsCharacter(Join(s.value.dataLines))) then (None, evs)
    else
      var (patch, more) := FlushEvent(t, s.value.patch, s.value.eventType, s.value.dataLines);
      (Some(patch), evs + more)
  }

  datatype Item = Chunk(bytes: seq<byte>) | Broken

  /** The bytes that arrive before the stream ends or breaks. */
  function Received(items: seq<Item>): seq<byte> {
    if items == [] || items[0].Broken? then [] else items[0].bytes + Received(items[1..])
  }

  function BytesOf(item: Item): seq<byte> { if item.Chunk? then item.bytes else [] }

  /** What arrives are the chunks up to the first error, put together. */
  lemma {:induction false} ReceivedIs(chunks: seq<Item>, rest: seq<Item>)
    requires forall i | 0 <= i < |chunks| :: chunks[i].Chunk?
    requires rest == [] || rest[0].Broken?
    ensures Received(chunks + rest) == Gather(BytesOf, chunks)
  {
    if chunks == [] {
      assert chunks + rest == rest;
    } else {
      var first, later := chunks[0], chunks[1..];
      assert (chunks + rest)[1..] == later + rest && [first] + later == chunks;
      ReceivedIs(later, rest);
      GatherJoin(BytesOf, [first], later);
      GatherOne(BytesOf, first);
    }
  }

  // ---------------------------------------------------------------- more lines, more bytes

  lemma OneMoreLine(t: Tools, stops: bool, lines: seq<seq<byte>>, line: seq<byte>)
    ensures var (before, evs) := OnLines(t, stops, lines);
            OnLines(t, stops, lines + [line])
            == if before.None? then (None, evs)
               else (OnLine(t, stops, before.value, line).0, evs + OnLine(t, stops, before.value, line).1)
  {
    assert (lines + [line])[..|lines|] == lines;
  }

  /** The events of the first lines come first, and are all of them if the parser died. */
  lemma {:induction false} LaterLinesAdd(t: Tools, stops: bool, a: seq<seq<byte>>, b: seq<seq<byte>>)
    ensures OnLines(t, stops, a).1 <= OnLines(t, stops, a + b).1
    ensures OnLines(t, stops, a).0.None? ==> OnLines(t, stops, a + b) == OnLines(t, stops, a)
  {
    if b == [] {
      assert a + b == a;
    } else {
      assert a + b == a + b[..|b| - 1] + [b[|b| - 1]];
      LaterLinesAdd(t, stops, a, b[..|b| - 1]);
      OneMoreLine(t, stops, a + b[..|b| - 1], b[|b| - 1]);
    }
  }

  lemma LaterBytesAdd(t: Tools, stops: bool, a: seq<byte>, b: seq<byte>)
    ensures OnLines(t, stops, Lines(a)).1 <= Interpretation(t, stops, a + b).1
    ensures OnLines(t, stops, Lines(a)).0.None?
            ==> Interpretation(t, stops, a + b) == (None, OnLines(t, stops, Lines(a)).1)
  {
    LinesJoin(a, b);
    LaterLinesAdd(t, stops, Lines(a), Lines(Rest(a) + b));
  }

  // ---------------------------------------------------------------- when everything is sent

  /** One flush: the data, and the events that it means. */
  datatype Dispatch = Dispatch(data: string, events: seq<DsEvent>)

  function FlushOf(t: Tools, s: Progress): Dispatch {
    Dispatch(Join(s.dataLines), FlushEvent(t, s.patch, s.eventType, s.dataLines).1)
  }

  function Dispatches(t: Tools, lines: seq<seq<byte>>): seq<Dispatch> {
    if lines == [] then []
    else
      var front, last := lines[..|lines| - 1], lines[|lines| - 1];
      Dispatches(t, front) + if t.decode(last) == "" then [FlushOf(t, OnLines(t, false, front).0.value)] else []
  }

  /** All flushes of a byte string, the one at its end included. */
  function AllDispatches(t: Tools, b: seq<byte>): seq<Dispatch> {
    Dispatches(t, Lines(b)) + [FlushOf(t, OnLines(t, false, Lines(b)).0.value)]
  }

  function EventsOf(ds: seq<Dispatch>): seq<DsEvent> {
    if ds == [] then [] else EventsOf(ds[..|ds| - 1]) + ds[|ds| - 1].events
  }

  /** The first flush whose data is cut inside a character, or the number of flushes. */
  function FirstCut(ds: seq<Dispatch>): (n: nat)
    ensures n <= |ds|
    ensures n < |ds| <==> exists d | d in ds :: CutsCharacter(d.data)
  {
    if ds == [] then 0
    else
      var front, last := ds[..|ds| - 1], ds[|ds| - 1];
      assert ds == front + [last];
      var n := FirstCut(front);
      if n < |front| || CutsCharacter(last.data) then n else |ds|
  }

  lemma EventsGrow(ds: seq<Dispatch>, d: Dispatch)
    ensures EventsOf(ds + [d]) == EventsOf(ds) + d.events
  {
    assert (ds + [d])[..|ds|] == ds;
  }

  lemma OneMoreDispatch(ds: seq<Dispatch>, d: Dispatch)
    ensures EventsOf(ds + [d]) == EventsOf(ds) + d.events
    ensures FirstCut(ds + [d]) == if FirstCut(ds) < |ds| || CutsCharacter(d.data) then FirstCut(ds) else |ds| + 1
  {
    assert (ds + [d])[..|ds|] == ds;
  }

  lemma {:induction false} EventsJoin(a: seq<Dispatch>, b: seq<Dispatch>)
    ensures EventsOf(a + b) == EventsOf(a) + EventsOf(b)
  {
    if b == [] {
      assert a + b == a;
    } else {
      var front, last := b[..|b| - 1], b[|b| - 1];
      assert b == front + [last] && a + b == a + front + [last];
      EventsJoin(a, front);
      EventsGrow(a + front, last);
      EventsGrow(front, last);
      assert EventsOf(a) + EventsOf(front) + last.events == EventsOf(a) + (EventsOf(front) + last.events);
    }
  }

  /** What has happened after some lines, in terms of their flushes. */
  ghost predicate StopsAtCut(stopping: (Option<Progress>, seq<DsEvent>), full: (Option<Progress>, seq<DsEvent>),
                             ds: seq<Dispatch>)
  {
    && full.1 == EventsOf(ds)
    && stopping.1 == EventsOf(ds[..FirstCut(ds)])
    && (if FirstCut(ds) < |ds| then stopping.0.None? else stopping == full)
  }

  lemma {:induction false} LinesStop(t: Tools, lines: seq<seq<byte>>)
    ensures StopsAtCut(OnLines(t, true, lines), OnLines(t, false, lines), Dispatches(t, lines))
  {
    if lines != [] {
      var front, last := lines[..|lines| - 1], lines[|lines| - 1];
      LinesStop(t, front);
      LineStops(t, OnLines(t, true, front), OnLines(t, false, front), Dispatches(t, front), last);
    }
  }

  lemma LineStops(t: Tools, stopping: (Option<Progress>, seq<DsEvent>), full: (Option<Progress>, seq<DsEvent>),
                  ds: seq<Dispatch>, line: seq<byte>)
    requires full.0.Some? && StopsAtCut(stopping, full, ds)
    ensures var s := full.0.value;
            var full' := (OnLine(t, false, s, line).0, full.1 + OnLine(t, false, s, line).1);
            var stopping' := if stopping.0.None? then stopping
                             else
                               (OnLine(t, true, stopping.0.value, line).0,
                                stopping.1 + OnLine(t, true, stopping.0.value, line).1);
            StopsAtCut(stopping', full', ds + if t.decode(line) == "" then [FlushOf(t, s)] else [])
  {
    var s := full.0.value;
    assert ds + [] == ds && ds[..|ds|] == ds;
    if t.decode(line) == "" {
      var all := ds + [FlushOf(t, s)];
      OneMoreDispatch(ds, FlushOf(t, s));
      assert all[..|all|] == all && all[..FirstCut(ds)] == ds[..FirstCut(ds)];
    }
  }

  /** The parser stops exactly at the first flush whose data it cuts inside a character: what it has
      sent are the events of the flushes before. */
  lemma StopsIff(t: Tools, b: seq<byte>)
    ensures var ds := AllDispatches(t, b);
            && (Interpretation(t, true, b).0.None? <==> exists d | d in ds :: CutsCharacter(d.data))
            && (Interpretation(t, true, b).0.Some? ==> Interpretation(t, true, b) == Interpretation(t, false, b))
            && Interpretation(t, true, b).1 == EventsOf(ds[..FirstCut(ds)])
            && Interpretation(t, false, b).1 == EventsOf(ds)
  {
    var ds, last := Dispatches(t, Lines(b)), FlushOf(t, OnLines(t, false, Lines(b)).0.value);
    var all := ds + [last];
    LinesStop(t, Lines(b));
    OneMoreDispatch(ds, last);
    assert all[..|all|] == all && all[..FirstCut(ds)] == ds[..FirstCut(ds)] && ds[..|ds|] == ds;
  }

  /** All events of the byte string are sent, exactly if no flush from the first such one on would
      have given any; if no data is cut inside a character, that is so. */
  lemma AllSentIff(t: Tools, b: seq<byte>)
    ensures var ds := AllDispatches(t, b);
            && (Interpretation(t, true, b).1 == Interpretation(t, false, b).1 <==> EventsOf(ds[FirstCut(ds)..]) == [])
            && ((forall d | d in ds :: !CutsCharacter(d.data))
                ==> Interpretation(t, true, b) == Interpretation(t, false, b))
  {
    var ds := AllDispatches(t, b);
    StopsIff(t, b);
    NoneLostIff(ds, FirstCut(ds));
  }

  lemma NoneLost(ds: seq<Dispatch>, a: seq<Dispatch>, b: seq<Dispatch>)
    requires ds == a + b
    ensures EventsOf(a) == EventsOf(ds) <==> EventsOf(b) == []
  {
    EventsJoin(a, b);
    NothingAdded(EventsOf(a), EventsOf(b));
  }

  lemma NoneLostIff(ds: seq<Dispatch>, n: nat)
    requires n <= |ds|
    ensures EventsOf(ds[..n]) == EventsOf(ds) <==> EventsOf(ds[n..]) == []
  {
    assert ds[..n] + ds[n..] == ds;
    NoneLost(ds, ds[..n], ds[n..]);
  }

  lemma NothingAdded<T>(a: seq<T>, b: seq<T>)
    ensures a == a + b <==> b == []
  {
    assert |a + b| == |a| + |b|;
    assert b == [] ==> a + b == a;
  }

  // ---------------------------------------------------------------- a line that silences the rest

  function Repeat(c: char, n: nat): (s: string)
    ensures |s| == n && forall i | 0 <= i < n :: s[i] == c
  {
    if n == 0 then "" else Repeat(c, n - 1) + [c]
  }

  /** A patch with a Chinese character across byte 200. */
  function LongText(): string { Repeat('a', 193) + ['\U{4F60}'] }

  function LongPatch(): string { "{\"v\":\"" + LongText() + "\"}" }

  /** The code points that so many bytes of UTF-8 hold: 7, 11, 16 and 21 bits of them. */
  function Capacity(bytes: nat): nat {
    if bytes == 0 then 0 else if bytes == 1 then 0x80 else if bytes == 2 then 0x800 else if bytes == 3 then 0x1_0000
    else 0x20_0000
  }

  /** A character takes as few bytes as hold it. */
  lemma WidthIsLeast(c: char)
    ensures 1 <= Width(c) <= 4 && Capacity(Width(c) - 1) <= c as int < Capacity(Width(c))
  {
  }

  lemma {:induction false} AsciiBytes(s: string)
    requires forall i | 0 <= i < |s| :: s[i] < '\U{80}'
    ensures Bytes(s) == |s|
  {
    if s != "" { AsciiBytes(s[..|s| - 1]); }
  }

  lemma {:induction false} BytesGrow(s: string, k: nat)
    requires k <= |s|
    ensures Bytes(s[..k]) <= Bytes(s)
  {
    if k == |s| {
      assert s[..k] == s;
    } else {
      assert s[..|s| - 1][..k] == s[..k];
      BytesGrow(s[..|s| - 1], k);
    }
  }

  /** A text whose first 199 characters take one byte each and whose next takes more is cut. */
  lemma WideIsCut(s: string)
    requires |s| >= 200 && (forall i | 0 <= i < 199 :: s[i] < '\U{80}') && Width(s[199]) > 1
    ensures CutsCharacter(s)
  {
    assert s[..200][..199] == s[..199];
    AsciiBytes(s[..199]);
    forall k | 0 <= k <= |s| ensures Bytes(s[..k]) != PREVIEW {
      if k <= 199 {
        AsciiBytes(s[..k]);
      } else {
        assert s[..k][..200] == s[..200];
        BytesGrow(s[..k], 200);
      }
    }
    BytesGrow(s, 200);
  }

  lemma LongPatchIsCut()
    ensures CutsCharacter(LongPatch())
  {
    var head := "{\"v\":\"" + Repeat('a', 193);
    assert |"{\"v\":\""| == 6;
    assert forall i | 0 <= i < 6 :: "{\"v\":\""[i] < '\U{80}';
    assert LongPatch() == head + ['\U{4F60}'] + "\"}";
    WideIsCut(LongPatch());
  }

  /** Such a line, ended by an empty one, is the last thing that the parser deals with: nothing is
      sent for it, nor for whatever follows, although the stream means its text. */
  lemma LongLineSilencesTheRest(t: Tools, line: seq<byte>, blank: seq<byte>, rest: seq<byte>)
    requires !HasNewline(line) && !HasNewline(blank) && t.decode(blank) == ""
    requires t.decode(line) == "data:" + LongPatch() && t.trim(LongPatch()) == LongPatch()
    requires t.parse(LongPatch()) == Some(Obj(map["v" := Str(LongText())])) && t.sanitize(LongText()) == LongText()
    ensures Interpretation(t, true, line + [NEWLINE] + (blank + [NEWLINE] + rest)) == (None, [])
    ensures [Fragment(Response, LongText())]
            <= Interpretation(t, false, line + [NEWLINE] + (blank + [NEWLINE] + rest)).1
  {
    var b := line + [NEWLINE] + (blank + [NEWLINE] + rest);
    FirstLine(line, blank + [NEWLINE] + rest);
    FirstLine(blank, rest);
    assert Lines(b) == [line, blank] + Lines(rest);
    LongLines(t, line, blank);
    LaterLinesAdd(t, true, [line, blank], Lines(rest));
    LaterLinesAdd(t, false, [line, blank], Lines(rest));
  }

  lemma LongLines(t: Tools, line: seq<byte>, blank: seq<byte>)
    requires t.decode(blank) == "" && t.decode(line) == "data:" + LongPatch() && t.trim(LongPatch()) == LongPatch()
    requires t.parse(LongPatch()) == Some(Obj(map["v" := Str(LongText())])) && t.sanitize(LongText()) == LongText()
    ensures OnLines(t, true, [line, blank]) == (None, [])
    ensures OnLines(t, false, [line, blank]).1 == [Fragment(Response, LongText())]
  {
    LongPatchIsCut();
    LongLine(t, true, line);
    LongLine(t, false, line);
    OneMoreLine(t, true, [line], blank);
    OneMoreLine(t, false, [line], blank);
    assert [line] + [blank] == [line, blank];
    LongFlush(t);
  }

  lemma LongLine(t: Tools, stops: bool, line: seq<byte>)
    requires t.decode(line) == "data:" + LongPatch() && t.trim(LongPatch()) == LongPatch()
    ensures OnLines(t, stops, [line]) == (Some(Begin.(dataLines := [LongPatch()])), [])
  {
    var text := t.decode(line);
    assert text[..6][0] == 'd' && "event:"[0] == 'e';
    assert !StartsWith(text, "event:");
    assert text[..5] == "data:" && text[5..] == LongPatch();
    assert StartsWith(text, "data:") && text != "";
    assert Begin.dataLines + [LongPatch()] == [LongPatch()];
    var none: seq<DsEvent> := [];
    assert none + none == none;
    assert OnLine(t, stops, Begin, line) == (Some(Begin.(dataLines := [LongPatch()])), []);
    OneMoreLine(t, stops, [], line);
    assert OnLines(t, stops, []) == (Some(Begin), []);
    assert [] + [line] == [line];
  }

  lemma LongFlush(t: Tools)
    requires t.parse(LongPatch()) == Some(Obj(map["v" := Str(LongText())])) && t.sanitize(LongText()) == LongText()
    ensures FlushEvent(t, Begin.patch, None, [LongPatch()]).1 == [Fragment(Response, LongText())]
  {
    assert Join([LongPatch()]) == LongPatch();
  }
}
