/** The incremental event-stream parser of the account gateway: byte chunks to lines, lines to
events (WHATWG HTML, section 9.2.6, "Interpreting an event stream"), and JSON patches to text.

Decoding, trimming, JSON parsing, index parsing and sanitizing are library or string work; they
come in as `Tools` and nothing is assumed about them.
*/
module Sse {
  import opened Basics
  import opened JsonValue
  import opened TextLines

  const NEWLINE: byte := 10

  datatype Tools = Tools(
    decode: seq<byte> -> string,          // lossy UTF-8, trimmed
    trim: string -> string,
    parse: string -> Option<Json>,
    parseIndex: string -> Option<int>,
    sanitize: string -> string)

  datatype Kind = Think | Response

  datatype DsEvent =
    | Ready(requestMessageId: string, responseMessageId: string)
    | Fragment(kind: Kind, content: string)
    | Finished(reason: Option<string>)
    | Hint(message: Option<string>, finishReason: Option<string>, rateLimited: bool)
    | Other(name: string)

  datatype PatchState = PatchState(path: string, op: string, fragments: seq<(Kind, string)>)

  // ---------------------------------------------------------------- strings

  function OrEmpty(s: Option<string>): string { if s.Some? then s.value else "" }

  predicate StartsWith(s: string, p: string) { |p| <= |s| && s[..|p|] == p }
  predicate EndsWith(s: string, p: string) { |p| <= |s| && s[|s| - |p|..] == p }

  function TrimSlashes(s: string): string { if s != "" && s[0] == '/' then TrimSlashes(s[1..]) else s }

  /** The bytes of a character in UTF-8 (RFC 3629, section 3), and of a text. */
  function Width(c: char): nat {
    if c < '\U{80}' then 1 else if c < '\U{800}' then 2 else if c < '\U{10000}' then 3 else 4
  }

  function Bytes(s: string): nat { if s == "" then 0 else Bytes(s[..|s| - 1]) + Width(s[|s| - 1]) }

  const PREVIEW: nat := 200

  /** Cutting the text after 200 bytes cuts a character. */
  predicate CutsCharacter(s: string) {
    Bytes(s) > PREVIEW && forall k | 0 <= k <= |s| :: Bytes(s[..k]) != PREVIEW
  }

  // ---------------------------------------------------------------- patches

  function KindOf(f: Json): Kind { if Text(At(f, "type")) == Some("THINK") then Think else Response }

  function Piece(t: Tools, f: Json): (Kind, string) { (KindOf(f), t.sanitize(OrEmpty(Text(At(f, "content"))))) }

  function Emit(kind: Kind, content: string): seq<DsEvent> { if content == "" then [] else [Fragment(kind, content)] }

  function Append(t: Tools, st: PatchState, frags: seq<Json>): (PatchState, seq<DsEvent>) {
    if frags == [] then (st, [])
    else
      var (before, evs) := Append(t, st, frags[..|frags| - 1]);
      var p := Piece(t, frags[|frags| - 1]);
      (before.(fragments := before.fragments + [p]), evs + Emit(p.0, p.1))
  }

  function ApplySnapshot(t: Tools, st: PatchState, resp: Json): (PatchState, seq<DsEvent>) {
    var frags := At(resp, "fragments");
    if frags.Arr? then Append(t, st.(fragments := []), frags.items) else (st, [])
  }

  /** What a patch path addresses; tests are made in this order. */
  datatype Target = Status | PlainContent | Metadata | NewFragments | FragmentText(index: Option<int>) | Unknown

  function Classify(t: Tools, rawPath: string, op: string): Target {
    var path := TrimSlashes(rawPath);
    if StartsWith(path, "response/status") then Status
    else if path == "response/content" then PlainContent
    else if StartsWith(path, "response/thinking_elapsed_secs") then Metadata
    else if StartsWith(path, "response/accumulated_token_usage") then Metadata
    else if path == "response/fragments" && op == "APPEND" then NewFragments
    else if StartsWith(path, "response/fragments/") then
      var rest := path[|"response/fragments/"|..];
      if EndsWith(rest, "/content") then FragmentText(t.parseIndex(rest[..|rest| - |"/content"|])) else Unknown
    else Unknown
  }

  function StatusEvents(v: Json): seq<DsEvent> {
    if v == Str("FINISHED") then [Finished(Some("stop"))] else if v == Str("INCOMPLETE") then [Finished(None)] else []
  }

  function ApplyAt(t: Tools, st: PatchState, path: string, op: string, v: Json): (PatchState, seq<DsEvent>) {
    match Classify(t, path, op)
    case Status => (st, StatusEvents(v))
    case PlainContent => (st, if v.Str? then Emit(Response, t.sanitize(v.s)) else [])
    case NewFragments => if v.Arr? then Append(t, st, v.items) else (st, [])
    case FragmentText(index) => if v.Str? then ApplyToSlot(t, st, index, v.s) else (st, [])
    case Metadata => (st, [])
    case Unknown => (st, [])
  }

  /** Adds text to one fragment; a negative or unreadable index means the last. */
  function ApplyToSlot(t: Tools, st: PatchState, index: Option<int>, text: string): (PatchState, seq<DsEvent>) {
    var idx := if index.Some? then index.value else -1;
    var slot := if idx < 0 then |st.fragments| - 1 else idx;
    if 0 <= slot < |st.fragments| then
      var (kind, content) := st.fragments[slot];
      var sane := t.sanitize(text);
      (st.(fragments := st.fragments[slot := (kind, content + sane)]), Emit(kind, sane))
    else (st, [])
  }

  function ChildPath(path: string, child: string): string {
    if child == "" then path
    else if child[0] == '/' || StartsWith(child, "response/") then TrimSlashes(child)
    else path + "/" + child
  }

  function Batch(t: Tools, st: PatchState, path: string, items: seq<Json>): (PatchState, seq<DsEvent>) {
    if items == [] then (st, [])
    else
      var (before, evs) := Batch(t, st, path, items[..|items| - 1]);
      var item := items[|items| - 1];
      var op := Text(At(item, "o"));
      var (after, more) := ApplyAt(t, before, ChildPath(path, OrEmpty(Text(At(item, "p")))),
                                   if op.Some? then op.value else "SET", At(item, "v"));
      (after, evs + more)
  }

  /** Path and operation persist from one event to the next. */
  function ApplyPatch(t: Tools, st0: PatchState, json: Json): (PatchState, seq<DsEvent>) {
    var p, o := Text(At(json, "p")), Text(At(json, "o"));
    var st := st0.(path := if p.Some? then p.value else st0.path, op := if o.Some? then o.value else st0.op);
    var v := Get(json, "v");
    if v.None? then (st, [])
    else if st.path == "" then
      var resp := Get(v.value, "response");
      if resp.Some? then ApplySnapshot(t, st, resp.value)
      else (st, if v.value.Str? then Emit(Response, t.sanitize(v.value.s)) else [])
    else if st.op == "BATCH" then
      if v.value.Arr? then Batch(t, st, st.path, v.value.items) else (st, [])
    else ApplyAt(t, st, st.path, st.op, v.value)
  }

  function FlushEvent(t: Tools, st: PatchState, eventType: Option<string>, dataLines: seq<string>)
    : (PatchState, seq<DsEvent>)
  {
    var data := Join(dataLines);
    if data == "" then (st, [])
    else
      var parsed := t.parse(data);
      var json := if parsed.Some? then parsed.value else Null;
      if eventType.None? then ApplyPatch(t, st, json) else (st, NamedEvents(eventType.value, json))
  }

  function NamedEvents(name: string, json: Json): seq<DsEvent> {
    if name == "ready" then
      [Ready(OrEmpty(Text(At(json, "request_message_id"))), OrEmpty(Text(At(json, "response_message_id"))))]
    else if name == "hint" then
      var content := Text(At(json, "content"));
      [Hint(content, Text(At(json, "finish_reason")), content.Some? && Contains(content.value, "rate_limit"))]
    else if name == "update_session" || name == "close" then []
    else [Other(name)]
  }

  // ---------------------------------------------------------------- text is accounted for

  /** The text of a kind that the fragments hold, and that events carry. */
  function TextOf(kind: Kind, frags: seq<(Kind, string)>): string {
    if frags == [] then ""
    else TextOf(kind, frags[..|frags| - 1]) + if frags[|frags| - 1].0 == kind then frags[|frags| - 1].1 else ""
  }

  function Emitted(kind: Kind, evs: seq<DsEvent>): string {
    if evs == [] then ""
    else
      var e := evs[|evs| - 1];
      Emitted(kind, evs[..|evs| - 1]) + if e.Fragment? && e.kind == kind then e.content else ""
  }

  lemma EmittedGrows(kind: Kind, evs: seq<DsEvent>, e: DsEvent, all: seq<DsEvent>)
    requires all == evs + [e]
    ensures Emitted(kind, all) == Emitted(kind, evs) + if e.Fragment? && e.kind == kind then e.content else ""
  {
    assert all[..|all| - 1] == evs;
  }

  lemma {:induction false} EmittedAdds(kind: Kind, a: seq<DsEvent>, b: seq<DsEvent>)
    ensures Emitted(kind, a + b) == Emitted(kind, a) + Emitted(kind, b)
  {
    if b == [] {
      assert a + b == a;
    } else {
      var front, last := b[..|b| - 1], b[|b| - 1];
      EmittedAdds(kind, a, front);
      EmittedGrows(kind, a + front, last, a + b);
      Chained(Emitted(kind, a), Emitted(kind, front), Emitted(kind, a + front),
              if last.Fragment? && last.kind == kind then last.content else "",
              Emitted(kind, a + b), Emitted(kind, b));
    }
  }

  lemma EmittedOne(kind: Kind, k: Kind, content: string)
    ensures Emitted(kind, Emit(k, content)) == if k == kind then content else ""
  {
    assert Emitted(kind, []) == "";
    assert [Fragment(k, content)][..0] == [];
  }

  lemma TextGrows(kind: Kind, frags: seq<(Kind, string)>, f: (Kind, string), all: seq<(Kind, string)>)
    requires all == frags + [f]
    ensures TextOf(kind, all) == TextOf(kind, frags) + if f.0 == kind then f.1 else ""
  {
    assert all[..|all| - 1] == frags;
  }

  lemma {:induction false} TextAdds(kind: Kind, a: seq<(Kind, string)>, b: seq<(Kind, string)>)
    ensures TextOf(kind, a + b) == TextOf(kind, a) + TextOf(kind, b)
  {
    if b == [] {
      assert a + b == a;
    } else {
      var front, last := b[..|b| - 1], b[|b| - 1];
      TextAdds(kind, a, front);
      TextGrows(kind, a + front, last, a + b);
      Chained(TextOf(kind, a), TextOf(kind, front), TextOf(kind, a + front), if last.0 == kind then last.1 else "",
              TextOf(kind, a + b), TextOf(kind, b));
    }
  }

  lemma TextOne(kind: Kind, f: (Kind, string))
    ensures TextOf(kind, [f]) == if f.0 == kind then f.1 else ""
  {
    assert [f][..0] == [];
    assert TextOf(kind, []) == "";
  }

  /** Appended fragments send exactly the text that they add. */
  lemma {:induction false} AppendAccounts(t: Tools, st: PatchState, frags: seq<Json>, kind: Kind)
    ensures var (after, evs) := Append(t, st, frags);
            TextOf(kind, after.fragments) == TextOf(kind, st.fragments) + Emitted(kind, evs)
  {
    if frags == [] {
      assert TextOf(kind, st.fragments) + "" == TextOf(kind, st.fragments);
    } else {
      var (before, evs) := Append(t, st, frags[..|frags| - 1]);
      var p := Piece(t, frags[|frags| - 1]);
      AppendAccounts(t, st, frags[..|frags| - 1], kind);
      TextAdds(kind, before.fragments, [p]);
      TextOne(kind, p);
      EmittedAdds(kind, evs, Emit(p.0, p.1));
      EmittedOne(kind, p.0, p.1);
      Chained(TextOf(kind, st.fragments), Emitted(kind, evs), TextOf(kind, before.fragments),
              if p.0 == kind then p.1 else "",
              TextOf(kind, before.fragments + [p]), Emitted(kind, evs + Emit(p.0, p.1)));
    }
  }

  /** Text added to one fragment comes behind what the fragments up to it hold. */
  lemma TextUpdates(kind: Kind, frags: seq<(Kind, string)>, i: nat, more: string)
    requires i < |frags|
    ensures TextOf(kind, frags) == TextOf(kind, frags[..i + 1]) + TextOf(kind, frags[i + 1..])
    ensures TextOf(kind, frags[i := (frags[i].0, frags[i].1 + more)])
         == TextOf(kind, frags[..i + 1]) + (if frags[i].0 == kind then more else "") + TextOf(kind, frags[i + 1..])
  {
    var f, f' := frags[i], (frags[i].0, frags[i].1 + more);
    TextAround(kind, frags, frags[..i], f, frags[i + 1..]);
    TextAround(kind, frags[i := f'], frags[..i], f', frags[i + 1..]);
    TextAround(kind, frags[..i + 1], frags[..i], f, []);
    JoinText(TextOf(kind, frags[..i]), if f.0 == kind then f.1 else "",
             if f.0 == kind then more else "", TextOf(kind, frags[i + 1..]));
  }

  lemma TextAround(kind: Kind, frags: seq<(Kind, string)>, a: seq<(Kind, string)>, f: (Kind, string),
                   b: seq<(Kind, string)>)
    requires frags == a + [f] + b
    ensures TextOf(kind, frags) == TextOf(kind, a) + (if f.0 == kind then f.1 else "") + TextOf(kind, b)
    ensures b == [] ==> TextOf(kind, frags) == TextOf(kind, a) + (if f.0 == kind then f.1 else "")
  {
    TextAdds(kind, a + [f], b);
    TextAdds(kind, a, [f]);
    TextOne(kind, f);
    assert b == [] ==> a + [f] + b == a + [f];
  }

  lemma JoinText(a: string, f: string, more: string, b: string)
    ensures a + (f + more) + b == a + f + more + b
  {
  }

  /** The fragment that an index addresses, if there is one. */
  function SlotOf(st: PatchState, index: Option<int>): (slot: Option<nat>)
    ensures slot.Some? ==> slot.value < |st.fragments|
  {
    var idx := if index.Some? then index.value else -1;
    var slot := if idx < 0 then |st.fragments| - 1 else idx;
    if 0 <= slot < |st.fragments| then Some(slot) else None
  }

  /** The fragments behind the one that a patch adds to; none when it adds at the end. */
  function Behind(t: Tools, st: PatchState, path: string, op: string): seq<(Kind, string)> {
    var target := Classify(t, path, op);
    var slot := if target.FragmentText? then SlotOf(st, target.index) else None;
    if slot.Some? then st.fragments[slot.value + 1..] else []
  }

  /** What a patch sends is put in before the text `behind`. */
  ghost predicate PutsIn(kind: Kind, before: PatchState, after: PatchState, evs: seq<DsEvent>,
                         behind: seq<(Kind, string)>)
  {
    exists front ::
      && TextOf(kind, before.fragments) == front + TextOf(kind, behind)
      && TextOf(kind, after.fragments) == front + Emitted(kind, evs) + TextOf(kind, behind)
  }

  lemma PutsInAtEnd(kind: Kind, before: PatchState, after: PatchState, evs: seq<DsEvent>)
    requires TextOf(kind, after.fragments) == TextOf(kind, before.fragments) + Emitted(kind, evs)
    ensures PutsIn(kind, before, after, evs, [])
  {
    var front := TextOf(kind, before.fragments);
    assert TextOf(kind, []) == "";
    assert front == front + TextOf(kind, []);
    assert TextOf(kind, after.fragments) == front + Emitted(kind, evs) + TextOf(kind, []);
  }

  lemma SlotAccounts(t: Tools, st: PatchState, index: Option<int>, text: string, kind: Kind)
    ensures var (after, evs) := ApplyToSlot(t, st, index, text);
            var slot := SlotOf(st, index);
            PutsIn(kind, st, after, evs, if slot.Some? then st.fragments[slot.value + 1..] else [])
  {
    var slot := SlotOf(st, index);
    var (after, evs) := ApplyToSlot(t, st, index, text);
    if slot.Some? {
      var i := slot.value;
      TextUpdates(kind, st.fragments, i, t.sanitize(text));
      EmittedOne(kind, st.fragments[i].0, t.sanitize(text));
      var front := TextOf(kind, st.fragments[..i + 1]);
      assert TextOf(kind, after.fragments) == front + Emitted(kind, evs) + TextOf(kind, st.fragments[i + 1..]);
    } else {
      NothingAccounts(st, kind);
    }
  }

  lemma NothingAccounts(st: PatchState, kind: Kind)
    ensures PutsIn(kind, st, st, [], [])
  {
    assert Emitted(kind, []) == "";
    assert TextOf(kind, st.fragments) + "" == TextOf(kind, st.fragments);
    PutsInAtEnd(kind, st, st, []);
  }

  lemma StatusEmitsNothing(v: Json, kind: Kind)
    ensures Emitted(kind, StatusEvents(v)) == ""
  {
    assert Emitted(kind, []) == "";
    assert [Finished(Some("stop"))][..0] == [] && [Finished(None)][..0] == [];
  }

  /** The text that a patch sends, of each kind, is exactly the text that it puts into the fragments,
      and in front of the fragments behind the one addressed; only plain content, which keeps no
      fragments, is sent without being kept. */
  lemma PatchAccounts(t: Tools, st: PatchState, path: string, op: string, v: Json, kind: Kind)
    ensures var (after, evs) := ApplyAt(t, st, path, op, v);
            && after.path == st.path && after.op == st.op
            && (if Classify(t, path, op).PlainContent? then after == st
                else PutsIn(kind, st, after, evs, Behind(t, st, path, op)))
  {
    match Classify(t, path, op)
    case NewFragments =>
      if v.Arr? { NewAccounts(t, st, v.items, kind); } else { NothingAccounts(st, kind); }
    case FragmentText(index) =>
      if v.Str? { SlotAccounts(t, st, index, v.s, kind); } else { UnreadAccounts(st, index, kind); }
    case Status => StatusAccounts(st, v, kind);
    case Metadata => NothingAccounts(st, kind);
    case Unknown => NothingAccounts(st, kind);
    case PlainContent =>
  }

  lemma StatusAccounts(st: PatchState, v: Json, kind: Kind)
    ensures PutsIn(kind, st, st, StatusEvents(v), [])
  {
    StatusEmitsNothing(v, kind);
    assert TextOf(kind, st.fragments) + "" == TextOf(kind, st.fragments);
    PutsInAtEnd(kind, st, st, StatusEvents(v));
  }

  lemma NewAccounts(t: Tools, st: PatchState, frags: seq<Json>, kind: Kind)
    ensures var (after, evs) := Append(t, st, frags);
            after.path == st.path && after.op == st.op && PutsIn(kind, st, after, evs, [])
  {
    AppendAccounts(t, st, frags, kind);
    AppendKeepsPath(t, st, frags);
    PutsInAtEnd(kind, st, Append(t, st, frags).0, Append(t, st, frags).1);
  }

  lemma UnreadAccounts(st: PatchState, index: Option<int>, kind: Kind)
    ensures var slot := SlotOf(st, index);
            PutsIn(kind, st, st, [], if slot.Some? then st.fragments[slot.value + 1..] else [])
  {
    var slot := SlotOf(st, index);
    if slot.Some? {
      var front, behind := st.fragments[..slot.value + 1], st.fragments[slot.value + 1..];
      assert front + behind == st.fragments;
      TextAdds(kind, front, behind);
      assert Emitted(kind, []) == "";
      assert TextOf(kind, st.fragments) == TextOf(kind, front) + Emitted(kind, []) + TextOf(kind, behind);
    } else {
      NothingAccounts(st, kind);
    }
  }

  lemma {:induction false} AppendKeepsPath(t: Tools, st: PatchState, frags: seq<Json>)
    ensures var after := Append(t, st, frags).0; after.path == st.path && after.op == st.op
  {
    if frags != [] { AppendKeepsPath(t, st, frags[..|frags| - 1]); }
  }

  /** A snapshot that lists fragments replaces them, and sends exactly what they now hold. */
  lemma SnapshotAccounts(t: Tools, st: PatchState, resp: Json, kind: Kind)
    ensures var (after, evs) := ApplySnapshot(t, st, resp);
            if At(resp, "fragments").Arr? then TextOf(kind, after.fragments) == Emitted(kind, evs)
            else after == st && evs == []
  {
    if At(resp, "fragments").Arr? {
      AppendAccounts(t, st.(fragments := []), At(resp, "fragments").items, kind);
    }
  }

  // ---------------------------------------------------------------- append-only streams

  /** One patch: where, how and what. */
  datatype Patch = Patch(path: string, op: string, v: Json)

  function ApplyAll(t: Tools, st: PatchState, patches: seq<Patch>): (PatchState, seq<DsEvent>) {
    if patches == [] then (st, [])
    else
      var (before, evs) := ApplyAll(t, st, patches[..|patches| - 1]);
      var p := patches[|patches| - 1];
      var (after, more) := ApplyAt(t, before, p.path, p.op, p.v);
      (after, evs + more)
  }

  /** No patch addresses the plain content, or a fragment with text of the kind behind it. */
  ghost predicate AppendOnly(t: Tools, st: PatchState, patches: seq<Patch>, kind: Kind) {
    patches != [] ==>
      var front, p := patches[..|patches| - 1], patches[|patches| - 1];
      && AppendOnly(t, st, front, kind)
      && !Classify(t, p.path, p.op).PlainContent?
      && TextOf(kind, Behind(t, ApplyAll(t, st, front).0, p.path, p.op)) == ""
  }

  /** On an append-only stream the fragments hold, of each kind, what they held before followed by
      everything that was sent. */
  lemma {:induction false} AppendOnlyKeepsText(t: Tools, st: PatchState, patches: seq<Patch>, kind: Kind)
    requires AppendOnly(t, st, patches, kind)
    ensures var (after, evs) := ApplyAll(t, st, patches);
            TextOf(kind, after.fragments) == TextOf(kind, st.fragments) + Emitted(kind, evs)
  {
    if patches == [] {
      assert Emitted(kind, []) == "";
      assert TextOf(kind, st.fragments) + "" == TextOf(kind, st.fragments);
    } else {
      var front, p := patches[..|patches| - 1], patches[|patches| - 1];
      var (before, evs) := ApplyAll(t, st, front);
      var (after, more) := ApplyAt(t, before, p.path, p.op, p.v);
      AppendOnlyKeepsText(t, st, front, kind);
      PatchAccounts(t, before, p.path, p.op, p.v, kind);
      EndsWithSent(kind, before, after, more, Behind(t, before, p.path, p.op));
      EmittedAdds(kind, evs, more);
      Chained(TextOf(kind, st.fragments), Emitted(kind, evs), TextOf(kind, before.fragments), Emitted(kind, more),
              TextOf(kind, after.fragments),
              Emitted(kind, evs + more));
    }
  }

  lemma EndsWithSent(kind: Kind, before: PatchState, after: PatchState, evs: seq<DsEvent>, behind: seq<(Kind, string)>)
    requires PutsIn(kind, before, after, evs, behind) && TextOf(kind, behind) == ""
    ensures TextOf(kind, after.fragments) == TextOf(kind, before.fragments) + Emitted(kind, evs)
  {
    var front :| TextOf(kind, before.fragments) == front + TextOf(kind, behind)
      && TextOf(kind, after.fragments) == front + Emitted(kind, evs) + TextOf(kind, behind);
    assert front + "" == front && front + Emitted(kind, evs) + "" == front + Emitted(kind, evs);
  }
}
