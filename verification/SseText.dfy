/** What patches say: the text that is sent, read off the JSON and the path alone. */
module SseText {
  import opened Basics
  import opened JsonValue
  import opened Sse
  import opened SseLines
  import opened SseMeaning
  import opened TextLines

  // ---------------------------------------------------------------- the text of new fragments

  predicate Thinks(item: Json) { item.Obj? && "type" in item.fields && item.fields["type"] == Str("THINK") }

  function ContentOf(item: Json): string {
    if item.Obj? && "content" in item.fields && item.fields["content"].Str? then item.fields["content"].s else ""
  }

  /** The sanitized content of the items whose type is THINK, or of all others, in order. */
  function Said(t: Tools, think: bool, items: seq<Json>): string {
    if items == [] then ""
    else
      var front, last := items[..|items| - 1], items[|items| - 1];
      Said(t, think, front) + if Thinks(last) == think then t.sanitize(ContentOf(last)) else ""
  }

  function KindIf(think: bool): Kind { if think then Think else Response }

  /** New fragments send exactly what their items say. */
  lemma {:induction false} AppendSays(t: Tools, st: PatchState, items: seq<Json>, think: bool)
    ensures Emitted(KindIf(think), Append(t, st, items).1) == Said(t, think, items)
  {
    if items != [] {
      var front, last := items[..|items| - 1], items[|items| - 1];
      AppendSays(t, st, front, think);
      ItemSays(t, last, think);
      EmittedAdds(KindIf(think), Append(t, st, front).1, Emit(Piece(t, last).0, Piece(t, last).1));
    }
  }

  lemma ItemSays(t: Tools, item: Json, think: bool)
    ensures var (kind, text) := Piece(t, item);
            Emitted(KindIf(think), Emit(kind, text))
            == if Thinks(item) == think then t.sanitize(ContentOf(item)) else ""
  {
    EmittedOne(KindIf(think), Piece(t, item).0, Piece(t, item).1);
  }

  /** Every event of theirs is text, and none is empty. */
  ghost predicate AllText(evs: seq<DsEvent>) { forall e | e in evs :: e.Fragment? && e.content != "" }

  lemma {:induction false} AppendIsText(t: Tools, st: PatchState, items: seq<Json>)
    ensures AllText(Append(t, st, items).1) && |Append(t, st, items).0.fragments| == |st.fragments| + |items|
  {
    if items != [] { AppendIsText(t, st, items[..|items| - 1]); }
  }

  // ---------------------------------------------------------------- paths

  function Slashes(n: nat): string { if n == 0 then "" else "/" + Slashes(n - 1) }

  /** The path is `p`, which does not begin with a slash, behind any number of slashes. */
  ghost predicate Names(path: string, p: string) {
    (p == "" || p[0] != '/') && exists n: nat :: path == Slashes(n) + p
  }

  lemma {:induction false} SlashesTrimmed(n: nat, p: string)
    requires p == "" || p[0] != '/'
    ensures TrimSlashes(Slashes(n) + p) == p
  {
    var s := Slashes(n) + p;
    if n == 0 {
      assert s == p;
    } else {
      assert s[1..] == Slashes(n - 1) + p;
      SlashesTrimmed(n - 1, p);
    }
  }

  lemma NamesTrimmed(path: string, p: string)
    requires Names(path, p)
    ensures TrimSlashes(path) == p
  {
    var n: nat :| path == Slashes(n) + p;
    SlashesTrimmed(n, p);
  }

  /** Every path names something. */
  lemma {:induction false} PathNames(path: string) returns (p: string)
    ensures Names(path, p)
  {
    if path == "" || path[0] != '/' {
      p := path;
      assert path == Slashes(0) + p;
    } else {
      p := PathNames(path[1..]);
      var n: nat :| path[1..] == Slashes(n) + p;
      assert path == Slashes(n + 1) + p;
    }
  }

  /** The fragment that an index text addresses: the last for a negative or unreadable one. */
  function Addressed(t: Tools, index: string, count: nat): Option<nat> {
    match t.parseIndex(index)
    case None => if count > 0 then Some(count - 1) else None
    case Some(i) =>
      if i < 0 && count > 0 then Some(count - 1) else if 0 <= i < count then Some(i) else None
  }

  /** A patch of the status ends the answer, or says nothing. */
  lemma StatusPatch(t: Tools, st: PatchState, path: string, rest: string, op: string, v: Json)
    requires Names(path, "response/status" + rest)
    ensures ApplyAt(t, st, path, op, v)
            == (st, if v == Str("FINISHED") then [Finished(Some("stop"))]
                    else if v == Str("INCOMPLETE") then [Finished(None)] else [])
  {
    NamesTrimmed(path, "response/status" + rest);
  }

  lemma StartsApart(p: string, q: string, i: nat)
    requires i < |p| && i < |q| && p[i] != q[i]
    ensures !StartsWith(p, q)
  {
    assert |q| <= |p| ==> p[..|q|][i] == p[i];
  }

  /** Plain content is answer text. */
  lemma ContentPatch(t: Tools, st: PatchState, path: string, op: string, v: Json)
    requires Names(path, "response/content")
    ensures var text := if v.Str? then t.sanitize(v.s) else "";
            ApplyAt(t, st, path, op, v) == (st, if text == "" then [] else [Fragment(Response, text)])
  {
    NamesTrimmed(path, "response/content");
    StartsApart("response/content", "response/status", 9);
  }

  lemma FragmentsClassified(t: Tools, path: string, op: string)
    requires Names(path, "response/fragments")
    ensures Classify(t, path, op) == if op == "APPEND" then NewFragments else Unknown
  {
    var p := "response/fragments";
    NamesTrimmed(path, p);
    StartsApart(p, "response/status", 9);
    StartsApart(p, "response/content", 9);
    StartsApart(p, "response/thinking_elapsed_secs", 9);
    StartsApart(p, "response/accumulated_token_usage", 9);
  }

  /** New fragments are announced by an append to their list, and by nothing else. */
  lemma FragmentsPatch(t: Tools, st: PatchState, path: string, op: string, v: Json, think: bool)
    requires Names(path, "response/fragments")
    ensures var (after, evs) := ApplyAt(t, st, path, op, v);
            && AllText(evs)
            && (if op == "APPEND" && v.Arr? then
                  Emitted(KindIf(think), evs) == Said(t, think, v.items)
                    && |after.fragments| == |st.fragments| + |v.items|
                else after == st && evs == [])
  {
    FragmentsClassified(t, path, op);
    if op == "APPEND" && v.Arr? {
      AppendSays(t, st, v.items, think);
      AppendIsText(t, st, v.items);
    } else {
      assert ApplyAt(t, st, path, op, v) == (st, []);
    }
  }

  lemma SlotWritten(t: Tools, st: PatchState, index: string, s: string)
    ensures var slot := Addressed(t, index, |st.fragments|);
            ApplyToSlot(t, st, t.parseIndex(index), s)
            == if slot.None? then (st, [])
               else
                 var (kind, held) := st.fragments[slot.value];
                 (st.(fragments := st.fragments[slot.value := (kind, held + t.sanitize(s))]),
                  if t.sanitize(s) == "" then [] else [Fragment(kind, t.sanitize(s))])
  {
  }

  /** Text for a fragment is put behind it and sent under its kind. */
  lemma SlotPatch(t: Tools, st: PatchState, path: string, index: string, op: string, v: Json)
    requires Names(path, "response/fragments/" + index + "/content")
    ensures var slot := Addressed(t, index, |st.fragments|);
            ApplyAt(t, st, path, op, v)
            == if !v.Str? || slot.None? then (st, [])
               else
                 var (kind, held) := st.fragments[slot.value];
                 (st.(fragments := st.fragments[slot.value := (kind, held + t.sanitize(v.s))]),
                  if t.sanitize(v.s) == "" then [] else [Fragment(kind, t.sanitize(v.s))])
  {
    SlotClassified(t, path, index, op);
    if v.Str? { SlotWritten(t, st, index, v.s); }
  }

  lemma SlotClassified(t: Tools, path: string, index: string, op: string)
    requires Names(path, "response/fragments/" + index + "/content")
    ensures Classify(t, path, op) == FragmentText(t.parseIndex(index))
  {
    var head, tail := "response/fragments/", "/content";
    var p := head + index + tail;
    NamesTrimmed(path, p);
    assert p[9] == 'f';
    StartsApart(p, "response/status", 9);
    StartsApart(p, "response/content", 9);
    StartsApart(p, "response/thinking_elapsed_secs", 9);
    StartsApart(p, "response/accumulated_token_usage", 9);
    assert p[..|head|] == head && p[|head|..] == index + tail;
    assert (index + tail)[|index|..] == tail && (index + tail)[..|index|] == index;
  }

  lemma SlotSpelled(p: string)
    requires StartsWith(p, "response/fragments/") && EndsWith(p[|"response/fragments/"|..], "/content")
    ensures exists index :: p == "response/fragments/" + index + "/content"
  {
    var head, tail := "response/fragments/", "/content";
    var rest := p[|head|..];
    var index := rest[..|rest| - |tail|];
    assert rest == index + tail;
    assert p == head + index + tail;
  }

  /** Every other patch changes nothing and sends nothing. */
  lemma OtherPatch(t: Tools, st: PatchState, path: string, p: string, op: string, v: Json)
    requires Names(path, p) && !("response/status" <= p) && p != "response/content"
    requires op == "APPEND" ==> p != "response/fragments"
    requires forall index :: p != "response/fragments/" + index + "/content"
    ensures ApplyAt(t, st, path, op, v) == (st, [])
  {
    NamesTrimmed(path, p);
    if StartsWith(p, "response/fragments/") && EndsWith(p[|"response/fragments/"|..], "/content") { SlotSpelled(p); }
  }

  // ---------------------------------------------------------------- patches with their path and operation

  predicate Has(json: Json, name: string, v: Json) { json.Obj? && name in json.fields && json.fields[name] == v }

  /** The string in a field, or else what is given. */
  function StringOr(json: Json, name: string, otherwise: string): string {
    if json.Obj? && name in json.fields && json.fields[name].Str? then json.fields[name].s else otherwise
  }

  /** Path and operation are remembered from one event to the next. */
  function Remembered(st: PatchState, json: Json): PatchState {
    PatchState(StringOr(json, "p", st.path), StringOr(json, "o", st.op), st.fragments)
  }

  /** An event without a path, before any had one, brings a snapshot: the fragments are replaced and
      send what their items say. */
  lemma SnapshotPatch(t: Tools, st: PatchState, json: Json, v: Json, resp: Json, items: seq<Json>, think: bool)
    requires StringOr(json, "p", st.path) == ""
    requires Has(json, "v", v) && Has(v, "response", resp) && Has(resp, "fragments", Arr(items))
    ensures var (after, evs) := ApplyPatch(t, st, json);
            && Emitted(KindIf(think), evs) == TextOf(KindIf(think), after.fragments) == Said(t, think, items)
            && |after.fragments| == |items| && AllText(evs)
            && after.path == "" && after.op == StringOr(json, "o", st.op)
  {
    var start := Remembered(st, json);
    assert ApplyPatch(t, st, json) == ApplySnapshot(t, start, resp);
    SnapshotAccounts(t, start, resp, KindIf(think));
    AppendSays(t, start.(fragments := []), items, think);
    AppendIsText(t, start.(fragments := []), items);
    AppendKeepsPath(t, start.(fragments := []), items);
  }

  /** Or a piece of the answer. */
  lemma PlainPatch(t: Tools, st: PatchState, json: Json, s: string)
    requires StringOr(json, "p", st.path) == "" && Has(json, "v", Str(s))
    ensures ApplyPatch(t, st, json)
            == (Remembered(st, json), if t.sanitize(s) == "" then [] else [Fragment(Response, t.sanitize(s))])
  {
  }

  /** With a path, its own or the last one given, the patch is applied there. */
  lemma PathPatch(t: Tools, st: PatchState, json: Json, v: Json)
    requires StringOr(json, "p", st.path) != "" && StringOr(json, "o", st.op) != "BATCH" && Has(json, "v", v)
    ensures ApplyPatch(t, st, json)
            == ApplyAt(t, Remembered(st, json), StringOr(json, "p", st.path), StringOr(json, "o", st.op), v)
  {
  }

  /** Without a value it is only remembered. */
  lemma EmptyPatch(t: Tools, st: PatchState, json: Json)
    requires !json.Obj? || "v" !in json.fields
    ensures ApplyPatch(t, st, json) == (Remembered(st, json), [])
  {
  }

  /** How a child of a batch names its path: not at all, from the root, or behind the batch's. */
  ghost predicate ChildNames(path: string, child: string, full: string) {
    if child == "" then full == path
    else if child[0] == '/' then Names(child, full)
    else if "response/" <= child then full == child
    else full == path + "/" + child
  }

  lemma ChildIs(path: string, child: string)
    ensures ChildNames(path, child, ChildPath(path, child))
  {
    var p := PathNames(child);
    NamesTrimmed(child, p);
  }

  /** A batch applies its children one after the other, each where it says, with its own operation,
      SET if it has none. */
  lemma BatchPatch(t: Tools, st: PatchState, json: Json, items: seq<Json>, last: Json) returns (full: string)
    requires StringOr(json, "p", st.path) != "" && StringOr(json, "o", st.op) == "BATCH"
    requires Has(json, "v", Arr(items + [last]))
    ensures ChildNames(StringOr(json, "p", st.path), StringOr(last, "p", ""), full)
    ensures var (before, evs) := Batch(t, Remembered(st, json), StringOr(json, "p", st.path), items);
            var v := if last.Obj? && "v" in last.fields then last.fields["v"] else Null;
            var (after, more) := ApplyAt(t, before, full, StringOr(last, "o", "SET"), v);
            ApplyPatch(t, st, json) == (after, evs + more)
  {
    var path := StringOr(json, "p", st.path);
    full := ChildPath(path, StringOr(last, "p", ""));
    ChildIs(path, StringOr(last, "p", ""));
    assert (items + [last])[..|items|] == items;
  }

  // ---------------------------------------------------------------- text in many pieces

  function Patches(t: Tools, st: PatchState, jsons: seq<Json>): (PatchState, seq<DsEvent>) {
    if jsons == [] then (st, [])
    else
      var (before, evs) := Patches(t, st, jsons[..|jsons| - 1]);
      var (after, more) := ApplyPatch(t, before, jsons[|jsons| - 1]);
      (after, evs + more)
  }

  /** An event that brings nothing but a string. */
  predicate IsPiece(json: Json) { json.Obj? && json.fields.Keys == {"v"} && json.fields["v"].Str? }

  function Pieces(t: Tools, jsons: seq<Json>): string {
    if jsons == [] then ""
    else Pieces(t, jsons[..|jsons| - 1]) + t.sanitize(StringOr(jsons[|jsons| - 1], "v", ""))
  }

  /** Once the content of a fragment has been named, the pieces that follow are put behind it and sent
      under its kind. */
  lemma {:induction false} PiecesFollow(t: Tools, st: PatchState, index: string, slot: nat, jsons: seq<Json>,
                                        kind: Kind)
    requires Names(st.path, "response/fragments/" + index + "/content") && st.op != "BATCH"
    requires Addressed(t, index, |st.fragments|) == Some(slot) && slot < |st.fragments|
    requires forall i | 0 <= i < |jsons| :: IsPiece(jsons[i])
    ensures var (after, evs) := Patches(t, st, jsons);
            var (k, held) := st.fragments[slot];
            && after == st.(fragments := st.fragments[slot := (k, held + Pieces(t, jsons))])
            && Emitted(kind, evs) == (if kind == k then Pieces(t, jsons) else "")
  {
    var (k, held) := st.fragments[slot];
    if jsons == [] {
      assert held + "" == held;
    } else {
      var front, last := jsons[..|jsons| - 1], jsons[|jsons| - 1];
      var (before, evs) := Patches(t, st, front);
      PiecesFollow(t, st, index, slot, front, kind);
      PieceFollows(t, st, index, slot, last, Pieces(t, front), before);
      var text := t.sanitize(StringOr(last, "v", ""));
      EmittedAdds(kind, evs, Emit(k, text));
      EmittedOne(kind, k, text);
    }
  }

  lemma PieceFollows(t: Tools, st: PatchState, index: string, slot: nat, json: Json, more: string, before: PatchState)
    requires Names(st.path, "response/fragments/" + index + "/content") && st.op != "BATCH" && IsPiece(json)
    requires Addressed(t, index, |st.fragments|) == Some(slot) && slot < |st.fragments|
    requires before == st.(fragments := st.fragments[slot := (st.fragments[slot].0, st.fragments[slot].1 + more)])
    ensures var text := t.sanitize(StringOr(json, "v", ""));
            var (k, held) := st.fragments[slot];
            ApplyPatch(t, before, json)
            == (st.(fragments := st.fragments[slot := (k, held + (more + text))]), Emit(k, text))
  {
    var v := json.fields["v"];
    var text, held := t.sanitize(v.s), st.fragments[slot].1;
    assert st.path != "" by { NamesTrimmed(st.path, "response/fragments/" + index + "/content"); }
    PathPatch(t, before, json, v);
    assert Remembered(before, json) == before;
    SlotPatch(t, before, st.path, index, before.op, v);
    assert held + more + text == held + (more + text);
    var k := st.fragments[slot].0;
    assert before.fragments[slot := (k, held + more + text)] == st.fragments[slot := (k, held + (more + text))];
  }

  // ---------------------------------------------------------------- streams of one event

  /** What the lines before an empty one say: the last event name, and the data. */
  function NameOf(t: Tools, lines: seq<string>): Option<string> {
    if lines == [] then None
    else if "event:" <= lines[|lines| - 1] then Some(t.trim(lines[|lines| - 1][6..]))
    else NameOf(t, lines[..|lines| - 1])
  }

  function DataOf(t: Tools, lines: seq<string>): seq<string> {
    if lines == [] then []
    else
      DataOf(t, lines[..|lines| - 1])
        + if "data:" <= lines[|lines| - 1] then [t.trim(lines[|lines| - 1][5..])] else []
  }

  function Decoded(t: Tools, raw: seq<seq<byte>>): seq<string> {
    if raw == [] then [] else Decoded(t, raw[..|raw| - 1]) + [t.decode(raw[|raw| - 1])]
  }

  lemma {:induction false} LinesSay(t: Tools, stops: bool, raw: seq<seq<byte>>)
    requires forall i | 0 <= i < |raw| :: t.decode(raw[i]) != ""
    ensures OnLines(t, stops, raw)
         == (Some(Progress(PatchState("", "", []), NameOf(t, Decoded(t, raw)), DataOf(t, Decoded(t, raw)))), [])
  {
    if raw != [] {
      var front, last := raw[..|raw| - 1], t.decode(raw[|raw| - 1]);
      LinesSay(t, stops, front);
      LineSays(t, stops, Decoded(t, front), raw[|raw| - 1]);
      assert Decoded(t, raw)[..|Decoded(t, front)|] == Decoded(t, front);
      var none: seq<DsEvent> := [];
      assert none + none == none;
    }
  }

  lemma LineSays(t: Tools, stops: bool, lines: seq<string>, raw: seq<byte>)
    requires t.decode(raw) != ""
    ensures var all := lines + [t.decode(raw)];
            OnLine(t, stops, Progress(PatchState("", "", []), NameOf(t, lines), DataOf(t, lines)), raw)
            == (Some(Progress(PatchState("", "", []), NameOf(t, all), DataOf(t, all))), [])
  {
    var line := t.decode(raw);
    var all := lines + [line];
    assert all[..|all| - 1] == lines;
    assert StartsWith(line, "event:") == ("event:" <= line) && StartsWith(line, "data:") == ("data:" <= line);
    if "event:" <= line {
      assert line[0] == "event:"[0] == 'e' && "data:"[0] == 'd';
      assert DataOf(t, all) == DataOf(t, lines) + [] == DataOf(t, lines);
    } else {
      assert DataOf(t, lines) + [] == DataOf(t, lines);
    }
  }

  /** The bytes of some lines. */
  function Ended(raw: seq<seq<byte>>): seq<byte> {
    if raw == [] then [] else Ended(raw[..|raw| - 1]) + (raw[|raw| - 1] + [NEWLINE])
  }

  lemma {:induction false} EndedLines(raw: seq<seq<byte>>)
    requires forall i | 0 <= i < |raw| :: !HasNewline(raw[i])
    ensures Lines(Ended(raw)) == raw && Rest(Ended(raw)) == []
  {
    if raw != [] {
      var front, last := raw[..|raw| - 1], raw[|raw| - 1];
      EndedLines(front);
      LinesJoin(Ended(front), last + [NEWLINE]);
      RestJoin(Ended(front), last + [NEWLINE]);
      assert [] + (last + [NEWLINE]) == last + [NEWLINE] == last + [NEWLINE] + [];
      FirstLine(last, []);
      assert front + [last] == raw;
    }
  }

  /** The JSON of the data lines of one event, nothing read as null. */
  function Payload(t: Tools, data: seq<string>): Json {
    var parsed := t.parse(Join(data));
    if parsed.Some? then parsed.value else Null
  }

  /** A stream of one event: lines, an empty line. Without an event name it is a patch. */
  lemma OnePatch(t: Tools, raw: seq<seq<byte>>, blank: seq<byte>)
    requires forall i | 0 <= i < |raw| :: !HasNewline(raw[i]) && t.decode(raw[i]) != ""
    requires !HasNewline(blank) && t.decode(blank) == ""
    requires NameOf(t, Decoded(t, raw)) == None && Join(DataOf(t, Decoded(t, raw))) != ""
    requires !CutsCharacter(Join(DataOf(t, Decoded(t, raw))))
    ensures var (after, evs) := ApplyPatch(t, PatchState("", "", []), Payload(t, DataOf(t, Decoded(t, raw))));
            Interpretation(t, true, Ended(raw + [blank])) == (Some(after), evs)
  {
    EventFlushed(t, raw, blank);
  }

  /** With one it is what the name says. */
  lemma OneNamedEvent(t: Tools, raw: seq<seq<byte>>, blank: seq<byte>, name: string)
    requires forall i | 0 <= i < |raw| :: !HasNewline(raw[i]) && t.decode(raw[i]) != ""
    requires !HasNewline(blank) && t.decode(blank) == ""
    requires NameOf(t, Decoded(t, raw)) == Some(name) && Join(DataOf(t, Decoded(t, raw))) != ""
    requires !CutsCharacter(Join(DataOf(t, Decoded(t, raw))))
    ensures var json, evs := Payload(t, DataOf(t, Decoded(t, raw))), Interpretation(t, true, Ended(raw + [blank])).1;
            && (name == "ready"
                ==> evs == [Ready(StringOr(json, "request_message_id", ""), StringOr(json, "response_message_id", ""))])
            && (name == "hint"
                ==> |evs| == 1 && evs[0].Hint?
                    && OrEmpty(evs[0].message) == StringOr(json, "content", "")
                    && OrEmpty(evs[0].finishReason) == StringOr(json, "finish_reason", "")
                    && evs[0].rateLimited == Contains(StringOr(json, "content", ""), "rate_limit"))
            && (name in {"update_session", "close"} ==> evs == [])
            && (name !in {"ready", "hint", "update_session", "close"} ==> evs == [Other(name)])
  {
    EventFlushed(t, raw, blank);
  }

  lemma EventFlushed(t: Tools, raw: seq<seq<byte>>, blank: seq<byte>)
    requires forall i | 0 <= i < |raw| :: !HasNewline(raw[i]) && t.decode(raw[i]) != ""
    requires !HasNewline(blank) && t.decode(blank) == "" && !CutsCharacter(Join(DataOf(t, Decoded(t, raw))))
    ensures var (after, evs) := FlushEvent(t, PatchState("", "", []), NameOf(t, Decoded(t, raw)),
                                           DataOf(t, Decoded(t, raw)));
            Interpretation(t, true, Ended(raw + [blank])) == (Some(after), evs)
  {
    EndedLines(raw + [blank]);
    LinesSay(t, true, raw);
    OneMoreLine(t, true, raw, blank);
    NothingPending(t, FlushEvent(t, PatchState("", "", []), NameOf(t, Decoded(t, raw)), DataOf(t, Decoded(t, raw))).0);
    var evs := FlushEvent(t, PatchState("", "", []), NameOf(t, Decoded(t, raw)), DataOf(t, Decoded(t, raw))).1;
    assert [] + evs == evs == evs + [];
  }

  lemma NothingPending(t: Tools, patch: PatchState)
    ensures Join([]) == "" && !CutsCharacter("") && FlushEvent(t, patch, None, []) == (patch, [])
  {
    assert Bytes("") == 0;
  }

  /** So a stream of one snapshot sends what its items say, each under its kind. */
  lemma SnapshotStream(t: Tools, raw: seq<seq<byte>>, blank: seq<byte>, v: Json, resp: Json, items: seq<Json>,
                       think: bool)
    requires forall i | 0 <= i < |raw| :: !HasNewline(raw[i]) && t.decode(raw[i]) != ""
    requires !HasNewline(blank) && t.decode(blank) == ""
    requires NameOf(t, Decoded(t, raw)) == None && Join(DataOf(t, Decoded(t, raw))) != ""
    requires !CutsCharacter(Join(DataOf(t, Decoded(t, raw))))
    requires var json := Payload(t, DataOf(t, Decoded(t, raw)));
             StringOr(json, "p", "") == "" && Has(json, "v", v) && Has(v, "response", resp)
               && Has(resp, "fragments", Arr(items))
    ensures Emitted(KindIf(think), Interpretation(t, true, Ended(raw + [blank])).1) == Said(t, think, items)
  {
    OnePatch(t, raw, blank);
    SnapshotPatch(t, PatchState("", "", []), Payload(t, DataOf(t, Decoded(t, raw))), v, resp, items, think);
  }
}
