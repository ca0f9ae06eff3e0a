/** Which streamed answers reach their clients whole, and which cannot. */
module StreamRuns {
  import opened Basics
  import opened Sse
  import opened Consumers
  import opened Streaming

  // ---------------------------------------------------------------- what a client has read at the end

  ghost predicate Through(evs: seq<DsEvent>, steps: seq<Action>) {
    After(evs, steps).Some? && Complete(After(evs, steps).value)
  }

  /** What the client of such a run has read. */
  ghost function Received(evs: seq<DsEvent>, steps: seq<Action>): seq<Frame>
    requires Through(evs, steps)
  {
    After(evs, steps).value.accepted
  }

  ghost predicate ReadsAll(evs: seq<DsEvent>, steps: seq<Action>) {
    Through(evs, steps) && FrameText(Received(evs, steps)) == AnswerText(evs[..Cut(evs)])
  }

  /** At the end of a run the client has all text exactly if none was lost. */
  lemma EndSays(evs: seq<DsEvent>, steps: seq<Action>)
    requires Through(evs, steps)
    ensures var s := After(evs, steps).value;
            s.offered == Frames(evs) && Late(Frames(evs), s.lost) && (ReadsAll(evs, steps) <==> Texts(s.lost) == 0)
  {
    RunFits(evs, steps);
    FramesSay(evs);
    var s := After(evs, steps).value;
    assert s.offered + s.pending == s.offered;
    TextsMeanText(s.lost);
  }

  /** The client reads what is left. */
  lemma {:induction false} ReadRest(evs: seq<DsEvent>, s: State) returns (steps: seq<Action>)
    requires s.parsed && s.read <= |s.accepted|
    ensures Steps(Next(evs), s, steps) == Some(s.(read := |s.accepted|))
    decreases |s.accepted| - s.read
  {
    if s.read == |s.accepted| {
      return [];
    }
    var rest := ReadRest(evs, s.(read := s.read + 1));
    OneStep(Next(evs), s, Reads);
    StepsJoin(Next(evs), s, [Reads], rest);
    steps := [Reads] + rest;
  }

  /** Every run can be brought to its end, with a client that reads at once or one that reads last. */
  lemma BringThrough(evs: seq<DsEvent>, before: seq<Action>, eager: bool) returns (steps: seq<Action>)
    requires After(evs, before).Some? && (eager ==> After(evs, before).value.parsed)
    ensures Through(evs, steps)
    ensures eager ==> After(evs, steps).value.lost == After(evs, before).value.lost
    ensures !eager && After(evs, before).value.read == 0 ==> After(evs, steps).value.lost == Rest(Frames(evs))
  {
    var s := After(evs, before).value;
    RunFits(evs, before);
    var more, end := Finish(evs, s, eager);
    StepsJoin(Next(evs), Start, before, more);
    RunFits(evs, before + more);
    assert end.offered + end.pending == end.offered;
    var rest := ReadRest(evs, end);
    StepsJoin(Next(evs), Start, before + more, rest);
    steps := before + more + rest;
  }

  // ---------------------------------------------------------------- when every client reads all

  /** Every client reads the whole text, however the three run, exactly if no text lies beyond the
      frames that the channel holds. */
  lemma EveryClientReadsAllIff(evs: seq<DsEvent>)
    ensures (forall steps | Through(evs, steps) :: ReadsAll(evs, steps)) <==> Overflow(Frames(evs)) == 0
  {
    if Overflow(Frames(evs)) == 0 {
      forall steps | Through(evs, steps) ensures ReadsAll(evs, steps) { EndSays(evs, steps); }
    } else {
      var steps := BringThrough(evs, [], false);
      EndSays(evs, steps);
    }
  }

  /** An answer of no more frames than that arrives whole, the end marker included. */
  lemma ShortAnswersArriveWhole(evs: seq<DsEvent>, steps: seq<Action>)
    requires Through(evs, steps) && |Frames(evs)| <= SLOTS
    ensures Received(evs, steps) == Frames(evs)
  {
    EndSays(evs, steps);
    RunFits(evs, steps);
  }

  // ---------------------------------------------------------------- when some client reads all

  lemma {:induction false} SendMany(evs: seq<DsEvent>, s: State, k: nat) returns (steps: seq<Action>)
    requires !s.parsed && !s.quit && s.sent + k <= |evs| && s.sent + k <= s.taken + SLOTS
    ensures Steps(Next(evs), s, steps) == Some(s.(sent := s.sent + k))
  {
    if k == 0 {
      return [];
    }
    var front := SendMany(evs, s, k - 1);
    var mid := s.(sent := s.sent + (k - 1));
    Then(Next(evs), s, front, ParserSends, mid, s.(sent := s.sent + k));
    steps := front + [ParserSends];
  }

  /** The first events are sent, taken and offered, one after the other. */
  predicate Handled(evs: seq<DsEvent>, s: State, n: nat) {
    && s.sent == s.taken == n && s.pending == [] && s.read == 0
    && !s.stopped && !s.quit && !s.parsed
  }

  lemma {:induction false} HandleMany(evs: seq<DsEvent>, n: nat) returns (steps: seq<Action>)
    requires n <= Cut(evs)
    ensures After(evs, steps).Some? && Handled(evs, After(evs, steps).value, n)
  {
    if n == 0 {
      OneStep(Next(evs), Start, Offers);
      return [Offers];
    }
    var front := HandleMany(evs, n - 1);
    var more := HandleOne(evs, After(evs, front).value, n - 1);
    StepsJoin(Next(evs), Start, front, more);
    steps := front + more;
  }

  lemma HandleOne(evs: seq<DsEvent>, s: State, n: nat) returns (steps: seq<Action>)
    requires n < |evs| && !Ends(evs[n]) && Handled(evs, s, n)
    ensures Steps(Next(evs), s, steps).Some? && Handled(evs, Steps(Next(evs), s, steps).value, n + 1)
  {
    var sent := s.(sent := n + 1);
    var taken := sent.(taken := n + 1, pending := FramesOf(evs[n]));
    OneStep(Next(evs), s, ParserSends);
    Then(Next(evs), s, [ParserSends], Takes, sent, taken);
    steps := [ParserSends] + [Takes];
    if taken.pending != [] {
      Then(Next(evs), s, steps, Offers, taken, Step(evs, taken, Offers).value);
      steps := steps + [Offers];
    }
  }

  /** All events are sent as late as the forwarding task takes them, and the parser ends. */
  lemma SendAllLate(evs: seq<DsEvent>) returns (steps: seq<Action>)
    requires |evs| <= Cut(evs) + 1 + SLOTS
    ensures After(evs, steps).Some? && After(evs, steps).value.parsed
    ensures After(evs, steps).value.lost == Rest(Lead(evs))
  {
    var s;
    if |evs| <= SLOTS {
      steps := SendMany(evs, Start, |evs|);
      s := Start.(sent := |evs|);
    } else {
      steps, s := LeadAndOne(evs, |evs| - SLOTS - 1);
    }
    Then(Next(evs), Start, steps, ParserEnds, s, s.(parsed := true));
    steps := steps + [ParserEnds];
  }

  /** The first `n` events are handled, the next is taken, and all are sent. */
  lemma LeadAndOne(evs: seq<DsEvent>, n: nat) returns (steps: seq<Action>, s: State)
    requires n + 1 + SLOTS == |evs| && n <= Cut(evs)
    ensures After(evs, steps) == Some(s) && s.sent == |evs| && !s.parsed && !s.quit
    ensures s.lost == Rest(FramesUpTo(evs, n))
  {
    var front := HandleMany(evs, n);
    var s0 := After(evs, front).value;
    HandledOffered(evs, front, n);
    var more;
    more, s := FillAndTake(evs, s0, n);
    Onwards(Next(evs), Start, front, more, s0, s);
    steps := front + more;
  }

  lemma HandledOffered(evs: seq<DsEvent>, steps: seq<Action>, n: nat)
    requires n <= Cut(evs) && After(evs, steps).Some? && Handled(evs, After(evs, steps).value, n)
    ensures After(evs, steps).value.lost == Rest(FramesUpTo(evs, n))
  {
    var s := After(evs, steps).value;
    RunFits(evs, steps);
    assert s.offered + s.pending == s.offered;
  }

  /** The channel is filled, and once an event is taken there is room for the last. */
  lemma FillAndTake(evs: seq<DsEvent>, s: State, n: nat) returns (steps: seq<Action>, end: State)
    requires n + 1 + SLOTS == |evs| && Handled(evs, s, n)
    ensures Steps(Next(evs), s, steps) == Some(end) && end.sent == |evs| && !end.parsed && !end.quit
    ensures end.lost == s.lost
  {
    var full := s.(sent := n + SLOTS);
    var taken := full.(taken := n + 1, pending := FramesOf(evs[n]), stopped := Ends(evs[n]));
    end := taken.(sent := |evs|);
    var fill := SendMany(evs, s, SLOTS);
    Then(Next(evs), s, fill, Takes, full, taken);
    Then(Next(evs), s, fill + [Takes], ParserSends, taken, end);
    steps := fill + [Takes] + [ParserSends];
  }

  /** Some client reads the whole text, exactly if it fits unread, or the parser can end before more
      than fits has been offered: all but the last events that the two tasks can hold. */
  lemma SomeClientReadsAllIff(evs: seq<DsEvent>)
    ensures (exists steps :: ReadsAll(evs, steps)) <==> CanArrive(evs)
  {
    if steps :| ReadsAll(evs, steps) {
      EndSays(evs, steps);
      RunFits(evs, steps);
    }
    if CanArrive(evs) {
      var steps;
      if Overflow(Frames(evs)) == 0 {
        steps := BringThrough(evs, [], false);
      } else {
        var before := SendAllLate(evs);
        steps := BringThrough(evs, before, true);
      }
      EndSays(evs, steps);
      assert ReadsAll(evs, steps);
    }
  }

  // ---------------------------------------------------------------- long answers

  /** The events before the first ending one that carry text. */
  function TextEvents(evs: seq<DsEvent>): nat { Texts(FramesUpTo(evs, Cut(evs))) }

  lemma {:induction false} FewLater(evs: seq<DsEvent>, n: nat, m: nat)
    requires n <= m <= Cut(evs)
    ensures Texts(FramesUpTo(evs, m)) <= Texts(FramesUpTo(evs, n)) + (m - n)
  {
    if n < m {
      FewLater(evs, n, m - 1);
      SentUpTo(evs, m - 1, FramesUpTo(evs, m - 1), FramesUpTo(evs, m - 1) + FramesOf(evs[m - 1]));
      OneLater(FramesUpTo(evs, m - 1), FramesOf(evs[m - 1]), FramesUpTo(evs, m));
    }
  }

  lemma OneLater(before: seq<Frame>, more: seq<Frame>, after: seq<Frame>)
    requires after == before + more && |more| <= 1
    ensures Texts(after) <= Texts(before) + 1
  {
    TextsJoin(before, more);
    TextsMeanText(more);
  }

  /** All but one of the frames that a channel holds may be text. */
  lemma TextOverflows(frames: seq<Frame>)
    requires frames != [] && frames[0] == RoleDelta
    ensures Texts(frames) <= SLOTS - 1 + Overflow(frames)
  {
    var kept := Kept(frames);
    assert frames == kept + Rest(frames) && kept == [RoleDelta] + kept[1..];
    TextsJoin(kept, Rest(frames));
    TextsJoin([RoleDelta], kept[1..]);
    TextsMeanText(kept[1..]);
    assert Texts([RoleDelta]) == 0 by { assert [RoleDelta][..0] == []; }
  }

  lemma FramesBeyond(evs: seq<DsEvent>)
    ensures Overflow(FramesUpTo(evs, Cut(evs))) <= Overflow(Frames(evs))
  {
    var cut := Cut(evs);
    var open := FramesUpTo(evs, cut);
    if cut < |evs| {
      SentUpTo(evs, cut, open, open + FramesOf(evs[cut]));
      OverflowGrows(open, FramesOf(evs[cut]), Frames(evs));
    } else {
      OverflowGrows(open, Closing(evs), Frames(evs));
    }
  }

  lemma LongOverflows(evs: seq<DsEvent>)
    requires TextEvents(evs) > 2 * SLOTS
    ensures Overflow(Frames(evs)) > 0
  {
    TextOverflows(FramesUpTo(evs, Cut(evs)));
    FramesBeyond(evs);
  }

  lemma LongMeansMany(evs: seq<DsEvent>)
    requires TextEvents(evs) > 2 * SLOTS
    ensures Cut(evs) > 2 * SLOTS
  {
    FewLater(evs, 0, Cut(evs));
    NoTextYet(evs);
  }

  lemma NoTextYet(evs: seq<DsEvent>)
    ensures Texts(FramesUpTo(evs, 0)) == 0
  {
    assert FramesUpTo(evs, 0) == [RoleDelta] && [RoleDelta][..0] == [];
  }

  lemma LateEnough(evs: seq<DsEvent>, n: nat, cut: nat)
    requires n <= cut == Cut(evs) <= n + SLOTS + 1 && Texts(FramesUpTo(evs, cut)) > 2 * SLOTS
    ensures Overflow(FramesUpTo(evs, n)) > 0
  {
    FewLater(evs, n, cut);
    TextOverflows(FramesUpTo(evs, n));
  }

  lemma LeadIs(evs: seq<DsEvent>, n: nat)
    requires |evs| == n + SLOTS + 1
    ensures Lead(evs) == FramesUpTo(evs, n)
  {
  }

  lemma LongLead(evs: seq<DsEvent>)
    requires TextEvents(evs) > 2 * SLOTS && |evs| <= Cut(evs) + 1 + SLOTS
    ensures Overflow(Lead(evs)) > 0
  {
    LongMeansMany(evs);
    var n := |evs| - SLOTS - 1;
    LeadIs(evs, n);
    LateEnough(evs, n, Cut(evs));
  }

  lemma LongCannotArrive(evs: seq<DsEvent>)
    requires TextEvents(evs) > 2 * SLOTS
    ensures !CanArrive(evs)
  {
    LongOverflows(evs);
    if |evs| <= Cut(evs) + 1 + SLOTS { LongLead(evs); }
  }

  /** An answer of more pieces of text than the two channels hold loses text, however fast its client
      reads. */
  lemma LongAnswersLoseText(evs: seq<DsEvent>, steps: seq<Action>)
    requires Through(evs, steps) && TextEvents(evs) > 2 * SLOTS
    ensures FrameText(Received(evs, steps)) != AnswerText(evs[..Cut(evs)])
  {
    LongCannotArrive(evs);
    if ReadsAll(evs, steps) { SomeClientReadsAllIff(evs); }
  }

  /** An answer in `n` equal pieces. */
  function Pieces(n: nat, text: string): (evs: seq<DsEvent>)
    ensures |evs| == n + 1 && evs[n] == Finished(Some("stop"))
    ensures forall i | 0 <= i < n :: evs[i] == Fragment(Response, text)
  {
    seq(n, _ => Fragment(Response, text)) + [Finished(Some("stop"))]
  }

  lemma {:induction false} PiecesSent(text: string, n: nat, k: nat)
    requires text != "" && k <= n
    ensures |FramesUpTo(Pieces(n, text), k)| == k + 1
    ensures forall i | 1 <= i <= k :: FramesUpTo(Pieces(n, text), k)[i] == ContentDelta(text)
  {
    var evs := Pieces(n, text);
    if k == 0 {
      assert FramesUpTo(evs, 0) == [RoleDelta];
    } else {
      PiecesSent(text, n, k - 1);
      SentUpTo(evs, k - 1, FramesUpTo(evs, k - 1), FramesUpTo(evs, k - 1) + [ContentDelta(text)]);
    }
  }

  lemma PiecesOverflow(text: string, n: nat, k: nat)
    requires text != "" && k <= n
    ensures Overflow(FramesUpTo(Pieces(n, text), k)) == 0 <==> k < SLOTS
  {
    var frames := FramesUpTo(Pieces(n, text), k);
    PiecesSent(text, n, k);
    if k < SLOTS {
      assert Rest(frames) == [];
    } else {
      var rest := Rest(frames);
      var last := rest[|rest| - 1];
      assert last == frames[k];
      NextText(rest[..|rest| - 1], last, rest);
    }
  }

  lemma PiecesEnd(text: string, n: nat)
    requires text != ""
    ensures Cut(Pieces(n, text)) == n
    ensures Overflow(Frames(Pieces(n, text))) == 0 <==> n < SLOTS
  {
    var evs := Pieces(n, text);
    CutIs(evs, n);
    FramesBeyond(evs);
    PiecesOverflow(text, n, n);
    PiecesSent(text, n, n);
    var open, close := FramesUpTo(evs, n), FramesOf(evs[n]);
    SentUpTo(evs, n, open, open + close);
    if n < SLOTS {
      TextsMeanText(close);
      FramesTell(evs[n]);
      RestOfTextless(open, close);
    }
  }

  lemma RestOfTextless(open: seq<Frame>, close: seq<Frame>)
    requires |open| <= SLOTS && Texts(close) == 0
    ensures Overflow(open + close) == 0
  {
    var k := MinNat(SLOTS, |open + close|) - |open|;
    assert close == close[..k] + close[k..];
    TextsJoin(close[..k], close[k..]);
    assert Rest(open + close) == close[k..];
  }

  lemma ManyPiecesLead(text: string, n: nat)
    requires text != "" && n >= SLOTS
    ensures Overflow(Lead(Pieces(n, text))) == 0 <==> n < 2 * SLOTS
  {
    PiecesOverflow(text, n, n - SLOTS);
  }

  lemma PiecesCanArrive(text: string, n: nat)
    requires text != ""
    ensures CanArrive(Pieces(n, text)) <==> n < 2 * SLOTS
  {
    PiecesEnd(text, n);
    if n >= SLOTS { ManyPiecesLead(text, n); }
  }

  /** How long an answer may be: up to 63 pieces of text always arrive, 64 to 127 can lose text, and
      from 128 pieces on they always do. */
  lemma HowManyPieces(text: string, n: nat)
    requires text != ""
    ensures (forall steps | Through(Pieces(n, text), steps) :: ReadsAll(Pieces(n, text), steps)) <==> n <= 63
    ensures (exists steps :: ReadsAll(Pieces(n, text), steps)) <==> n <= 127
  {
    EveryClientReadsAllIff(Pieces(n, text));
    SomeClientReadsAllIff(Pieces(n, text));
    PiecesEnd(text, n);
    PiecesCanArrive(text, n);
  }
}
