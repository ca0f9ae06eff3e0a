/** The parser object: it is fed chunks and drains its buffer line by line. However the bytes are
cut into chunks, the events are those of the whole byte string. */
module SseParser {
  import opened Basics
  import opened JsonValue
  import opened Sse
  import opened SseLines
  import opened SseMeaning
  import opened TextLines

  /** What a receiver gets that hangs up after `accepts` events. */
  function Accepted(evs: seq<DsEvent>, accepts: nat): seq<DsEvent> {
    if |evs| <= accepts then evs else evs[..accepts]
  }

  class Parser {
    var path: string
    var op: string
    var fragments: seq<(Kind, string)>
    var buf: seq<byte>
    var eventType: Option<string>
    var dataLines: seq<string>

    ghost function Patch(): PatchState reads this { PatchState(path, op, fragments) }
    ghost function Value(): Progress reads this { Progress(Patch(), eventType, dataLines) }

    constructor ()
      ensures Value() == Begin && buf == []
    {
      path, op, fragments := "", "", [];
      buf, eventType, dataLines := [], None, [];
    }

    method AppendFragments(t: Tools, frags: seq<Json>) returns (evs: seq<DsEvent>)
      modifies this`fragments
      ensures (Patch(), evs) == Append(t, old(Patch()), frags)
    {
      evs := [];
      for i := 0 to |frags|
        invariant (Patch(), evs) == Append(t, old(Patch()), frags[..i])
      {
        assert frags[..i + 1][..i] == frags[..i];
        var (kind, content) := Piece(t, frags[i]);
        fragments := fragments + [(kind, content)];
        assert evs + [] == evs;
        if content != "" {
          evs := evs + [Fragment(kind, content)];
        }
      }
      assert frags[..|frags|] == frags;
    }

    method ApplySnapshot(t: Tools, resp: Json) returns (evs: seq<DsEvent>)
      modifies this`fragments
      ensures (Patch(), evs) == Sse.ApplySnapshot(t, old(Patch()), resp)
    {
      evs := [];
      var frags := At(resp, "fragments");
      if frags.Arr? {
        fragments := [];
        evs := AppendFragments(t, frags.items);
      }
    }

    method ApplyPatchAt(t: Tools, at: string, how: string, v: Json) returns (evs: seq<DsEvent>)
      modifies this`fragments
      ensures (Patch(), evs) == ApplyAt(t, old(Patch()), at, how, v)
    {
      evs := [];
      match Classify(t, at, how)
      case Status =>
        evs := StatusEvents(v);
      case PlainContent =>
        if v.Str? {
          evs := Emit(Response, t.sanitize(v.s));
        }
      case NewFragments =>
        if v.Arr? {
          evs := AppendFragments(t, v.items);
        }
      case FragmentText(index) =>
        if v.Str? {
          var idx := if index.Some? then index.value else -1;
          var slot := if idx < 0 then |fragments| - 1 else idx;
          if 0 <= slot < |fragments| {
            var (kind, content) := fragments[slot];
            var sane := t.sanitize(v.s);
            fragments := fragments[slot := (kind, content + sane)];
            evs := Emit(kind, sane);
          }
        }
      case Metadata =>
      case Unknown =>
    }

    method ApplyPatch(t: Tools, json: Json) returns (evs: seq<DsEvent>)
      modifies this`path, this`op, this`fragments
      ensures (Patch(), evs) == Sse.ApplyPatch(t, old(Patch()), json)
    {
      evs := [];
      var p := At(json, "p");
      if p.Str? {
        path := p.s;
      }
      var o := At(json, "o");
      if o.Str? {
        op := o.s;
      }
      var v := Get(json, "v");
      if v.None? {
        return;
      }
      if path == "" {
        var resp := Get(v.value, "response");
        if resp.Some? {
          evs := ApplySnapshot(t, resp.value);
        } else if v.value.Str? {
          evs := Emit(Response, t.sanitize(v.value.s));
        }
      } else if op == "BATCH" {
        if v.value.Arr? {
          evs := ApplyBatch(t, v.value.items);
        }
      } else {
        evs := ApplyPatchAt(t, path, op, v.value);
      }
    }

    method ApplyBatch(t: Tools, items: seq<Json>) returns (evs: seq<DsEvent>)
      modifies this`fragments
      ensures (Patch(), evs) == Batch(t, old(Patch()), path, items)
    {
      evs := [];
      for i := 0 to |items|
        invariant (Patch(), evs) == Batch(t, old(Patch()), path, items[..i])
      {
        assert items[..i + 1][..i] == items[..i];
        var childOp := Text(At(items[i], "o"));
        var more := ApplyPatchAt(t, ChildPath(path, OrEmpty(Text(At(items[i], "p")))),
                                 if childOp.Some? then childOp.value else "SET", At(items[i], "v"));
        evs := evs + more;
      }
      assert items[..|items|] == items;
    }

    /** The pending data lines make one event; they and the event type are used up. The log message
        cuts the data first, and `died` says that it could not. */
    method Flush(t: Tools) returns (evs: seq<DsEvent>, died: bool)
      modifies this
      ensures eventType == None && dataLines == [] && buf == old(buf) && died == CutsCharacter(Join(old(dataLines)))
      ensures if died then evs == [] && Patch() == old(Patch())
              else (Patch(), evs) == FlushEvent(t, old(Patch()), old(eventType), old(dataLines))
    {
      var data, kind := Join(dataLines), eventType;
      dataLines, eventType := [], None;
      evs, died := [], CutsCharacter(data);
      if data == "" || died {
        return;
      }
      var parsed := t.parse(data);
      var json := if parsed.Some? then parsed.value else Null;
      if kind.None? {
        evs := ApplyPatch(t, json);
      } else {
        evs := NamedEvents(kind.value, json);
      }
    }

    /** The events of a named type do not touch the patch state. */
    static method NamedEvents(name: string, json: Json) returns (evs: seq<DsEvent>)
      ensures evs == Sse.NamedEvents(name, json)
    {
      evs := [];
      if name == "ready" {
        var request, response := Text(At(json, "request_message_id")), Text(At(json, "response_message_id"));
        evs := [Ready(OrEmpty(request), OrEmpty(response))];
      } else if name == "hint" {
        var content := Text(At(json, "content"));
        var rateLimited := false;
        if content.Some? {
          rateLimited := Contains(content.value, "rate_limit");
        }
        evs := [Hint(content, Text(At(json, "finish_reason")), rateLimited)];
      } else if name != "update_session" && name != "close" {
        evs := [Other(name)];
      }
    }

    method TakeLine(t: Tools, raw: seq<byte>) returns (evs: seq<DsEvent>, died: bool)
      modifies this
      ensures (if died then None else Some(Value()), evs) == OnLine(t, true, old(Value()), raw) && buf == old(buf)
    {
      evs, died := [], false;
      var line := t.decode(raw);
      if line == "" {
        evs, died := Flush(t);
      } else if StartsWith(line, "event:") {
        eventType := Some(t.trim(line[|"event:"|..]));
      } else if StartsWith(line, "data:") {
        dataLines := dataLines + [t.trim(line[|"data:"|..])];
      }
    }

    /** Sends one event after the other until the receiver has hung up. */
    static method Send(sent: seq<DsEvent>, evs: seq<DsEvent>, accepts: nat) returns (r: seq<DsEvent>, closed: bool)
      requires |sent| <= accepts
      ensures r == Accepted(sent + evs, accepts) && closed == (|sent + evs| > accepts)
    {
      r := sent;
      for i := 0 to |evs|
        invariant r == sent + evs[..i] && |r| <= accepts
      {
        if |r| == accepts {
          return r, true;
        }
        r := r + [evs[i]];
      }
      closed := false;
    }

    /** Cuts the first line off the buffer. */
    method CutLine() returns (raw: seq<byte>)
      requires HasNewline(buf)
      modifies this`buf
      ensures !HasNewline(raw) && old(buf) == raw + [NEWLINE] + buf
    {
      var pos := FirstNewline(buf);
      raw := buf[..pos];
      buf := buf[pos + 1..];
    }

    /** Handles the first line; `taken` are the lines before it and `total` all of them. */
    method NextLine(t: Tools, sent: seq<DsEvent>, accepts: nat, ghost taken: seq<seq<byte>>,
                    ghost total: seq<seq<byte>>)
        returns (r: seq<DsEvent>, stopped: bool, ghost now: seq<seq<byte>>)
      requires HasNewline(buf) && taken + Lines(buf) == total
      requires OnLines(t, true, taken) == (Some(Value()), sent) && |sent| <= accepts
      modifies this
      ensures |buf| < |old(buf)| && Rest(buf) == Rest(old(buf)) && now + Lines(buf) == total
      ensures var (s, evs) := OnLines(t, true, now);
              r == Accepted(evs, accepts) && stopped == (s.None? || |evs| > accepts)
                && (!stopped ==> s == Some(Value()))
    {
      ghost var before := buf;
      var raw := CutLine();
      CutKeepsTotal(raw, buf, before, taken, total);
      OneMoreLine(t, true, taken, raw);
      var evs, died := TakeLine(t, raw);
      now := taken + [raw];
      r, stopped := Send(sent, evs, accepts);
      stopped := stopped || died;
    }

    /** Takes the complete lines out of the buffer; `lines` are those taken before. */
    method Drain(t: Tools, sent: seq<DsEvent>, accepts: nat, ghost lines: seq<seq<byte>>)
      returns (r: seq<DsEvent>, stopped: bool)
      requires OnLines(t, true, lines) == (Some(Value()), sent) && |sent| <= accepts
      modifies this
      ensures var (s, evs) := OnLines(t, true, lines + Lines(old(buf)));
              && r == Accepted(evs, accepts) && stopped == (s.None? || |evs| > accepts)
              && (!stopped ==> s == Some(Value()) && buf == Rest(old(buf)))
    {
      r := sent;
      ghost var taken, total := lines, lines + Lines(buf);
      while HasNewline(buf)
        invariant taken + Lines(buf) == total && Rest(buf) == Rest(old(buf))
        invariant OnLines(t, true, taken) == (Some(Value()), r) && |r| <= accepts
        decreases |buf|
      {
        r, stopped, taken := NextLine(t, r, accepts, taken, total);
        if stopped {
          LaterLinesAdd(t, true, taken, Lines(buf));
          return;
        }
      }
      NoLines(buf);
      assert taken + [] == taken;
      stopped := false;
    }

    /** One chunk; `done` are the bytes before it. */
    method Feed(t: Tools, chunk: seq<byte>, sent: seq<DsEvent>, accepts: nat, ghost done: seq<byte>)
      returns (r: seq<DsEvent>, stopped: bool)
      requires OnLines(t, true, Lines(done)) == (Some(Value()), sent) && buf == Rest(done) && |sent| <= accepts
      modifies this
      ensures var (s, evs) := OnLines(t, true, Lines(done + chunk));
              && r == Accepted(evs, accepts) && stopped == (s.None? || |evs| > accepts)
              && (!stopped ==> s == Some(Value()) && buf == Rest(done + chunk))
    {
      LinesJoin(done, chunk);
      RestJoin(done, chunk);
      buf := buf + chunk;
      r, stopped := Drain(t, sent, accepts, Lines(done));
    }

    /** The chunks up to the end of the stream, or to where the parser stops; `rest` are the bytes that
        it then leaves. */
    method Consume(t: Tools, items: seq<Item>, accepts: nat)
      returns (sent: seq<DsEvent>, stopped: bool, ghost done: seq<byte>, ghost rest: seq<byte>)
      requires Value() == Begin && buf == []
      modifies this
      ensures Received(items) == done + rest && (!stopped ==> rest == [])
      ensures var (s, evs) := OnLines(t, true, Lines(done));
              && sent == Accepted(evs, accepts) && stopped == (s.None? || |evs| > accepts)
              && (!stopped ==> s == Some(Value()) && buf == Rest(done))
    {
      sent, stopped, done := [], false, [];
      var i := 0;
      while i < |items| && items[i].Chunk?
        invariant i <= |items| && Received(items) == done + Received(items[i..])
        invariant OnLines(t, true, Lines(done)) == (Some(Value()), sent) && buf == Rest(done) && |sent| <= accepts
                  && !stopped
      {
        rest := Received(items[i + 1..]);
        assert items[i..][1..] == items[i + 1..];
        assert done + (items[i].bytes + rest) == done + items[i].bytes + rest;
        sent, stopped := Feed(t, items[i].bytes, sent, accepts, done);
        done := done + items[i].bytes;
        if stopped {
          return;
        }
        i := i + 1;
      }
      rest := [];
    }

    /** Consumes the stream; `sent` is what goes to a receiver that accepts `accepts` events and
        then hangs up, which stops the parser. The result depends on the bytes received, not on
        how they are cut into chunks. */
    method Parse(t: Tools, items: seq<Item>, accepts: nat) returns (sent: seq<DsEvent>)
      requires Value() == Begin && buf == []
      modifies this
      ensures var (patch, evs) := Interpretation(t, true, Received(items));
              sent == Accepted(evs, accepts) && (patch.Some? && |evs| <= accepts ==> Patch() == patch.value)
    {
      var stopped;
      ghost var done, rest;
      sent, stopped, done, rest := Consume(t, items, accepts);
      if stopped {
        LaterBytesAdd(t, true, done, rest);
      } else {
        assert done + [] == done;
        sent := Finish(t, sent, accepts, done);
      }
    }

    /** The end of the stream flushes what is pending. */
    method Finish(t: Tools, sent: seq<DsEvent>, accepts: nat, ghost done: seq<byte>) returns (r: seq<DsEvent>)
      requires OnLines(t, true, Lines(done)) == (Some(Value()), sent) && |sent| <= accepts
      modifies this
      ensures var (patch, evs) := Interpretation(t, true, done);
              r == Accepted(evs, accepts) && (patch.Some? ==> Patch() == patch.value)
    {
      var evs, died := Flush(t);
      var closed;
      r, closed := Send(sent, evs, accepts);
      assert sent + [] == sent;
    }
  }
}
