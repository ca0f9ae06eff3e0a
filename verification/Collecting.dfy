/** A collected answer: the handler stops reading at the first ending event, keeps the receiver alive, and
waits for the parser before it answers. */
module Collecting {
  import opened Basics
  import opened Sse
  import opened Consumers

  datatype Progress = Progress(sent: nat, taken: nat, ended: bool, parsed: bool)

  const Begun: Progress := Progress(0, 0, false, false)

  datatype Move = Sends | ParserEnds | Takes | Closes

  function Moved(evs: seq<DsEvent>, p: Progress, m: Move): Option<Progress> {
    match m
    case Sends =>
      if !p.parsed && p.sent < |evs| && p.sent < p.taken + SLOTS then Some(p.(sent := p.sent + 1)) else None
    case ParserEnds => if !p.parsed && p.sent == |evs| then Some(p.(parsed := true)) else None
    case Takes =>
      if !p.ended && p.taken < p.sent <= |evs| then Some(p.(taken := p.taken + 1, ended := Ends(evs[p.taken])))
      else None
    case Closes => if !p.ended && p.parsed && p.taken == p.sent then Some(p.(ended := true)) else None
  }

  function MoveOn(evs: seq<DsEvent>): (Progress, Move) -> Option<Progress> {
    (p: Progress, m: Move) => Moved(evs, p, m)
  }

  function Along(evs: seq<DsEvent>, moves: seq<Move>): Option<Progress> { Steps(MoveOn(evs), Begun, moves) }

  /** The request is answered, and its account released, when both have ended. */
  predicate Answered(p: Progress) { p.ended && p.parsed }

  /** Nobody can go on, and the request is not answered. */
  ghost predicate Stuck(evs: seq<DsEvent>, p: Progress) {
    !Answered(p) && forall m :: Moved(evs, p, m).None?
  }

  ghost predicate Sound(evs: seq<DsEvent>, p: Progress) {
    && p.taken <= p.sent <= |evs| && p.sent <= p.taken + SLOTS
    && (p.taken <= Cut(evs) || (p.taken == Cut(evs) + 1 && p.ended))
    && (p.ended && p.taken <= Cut(evs) ==> p.parsed) && (p.parsed ==> p.sent == |evs|)
  }

  function Done(p: Progress): nat { p.sent + p.taken + (if p.ended then 1 else 0) + if p.parsed then 1 else 0 }

  lemma MoveSound(evs: seq<DsEvent>, p: Progress, m: Move)
    requires Sound(evs, p) && Moved(evs, p, m).Some?
    ensures Sound(evs, Moved(evs, p, m).value) && Done(p) < Done(Moved(evs, p, m).value)
  {
    if m == Takes && Ends(evs[p.taken]) { assert p.taken == Cut(evs); }
  }

  /** Every run is short: each event is sent once and taken once, and either side ends once. */
  lemma {:induction false} RunSound(evs: seq<DsEvent>, moves: seq<Move>)
    requires Along(evs, moves).Some?
    ensures Sound(evs, Along(evs, moves).value) && |moves| <= Done(Along(evs, moves).value)
  {
    if moves != [] {
      var n := |moves| - 1;
      RunSound(evs, moves[..n]);
      MoveSound(evs, Along(evs, moves[..n]).value, moves[n]);
    }
  }

  /** With no more events behind the ending one than the channel holds, somebody can go on until the
      request is answered. */
  lemma NeverStuck(evs: seq<DsEvent>, p: Progress)
    requires Sound(evs, p) && |evs| <= Cut(evs) + 1 + SLOTS
    ensures !Stuck(evs, p)
  {
    if !Answered(p) {
      var m := if !p.ended && p.taken < p.sent then Takes else if p.parsed then Closes
               else if p.sent < |evs| then Sends else ParserEnds;
      assert Moved(evs, p, m).Some?;
    }
  }

  lemma {:induction false} TakeMany(evs: seq<DsEvent>, n: nat) returns (moves: seq<Move>)
    requires n <= Cut(evs)
    ensures Along(evs, moves) == Some(Progress(n, n, false, false))
  {
    if n == 0 {
      return [];
    }
    var front := TakeMany(evs, n - 1);
    Then(MoveOn(evs), Begun, front, Sends, Progress(n - 1, n - 1, false, false), Progress(n, n - 1, false, false));
    Then(MoveOn(evs), Begun, front + [Sends], Takes, Progress(n, n - 1, false, false), Progress(n, n, false, false));
    moves := front + [Sends] + [Takes];
  }

  lemma {:induction false} FillUp(evs: seq<DsEvent>, k: nat) returns (moves: seq<Move>)
    requires Cut(evs) + 1 + k <= |evs| && k <= SLOTS
    ensures Along(evs, moves) == Some(Progress(Cut(evs) + 1 + k, Cut(evs) + 1, true, false))
  {
    var cut := Cut(evs);
    if k == 0 {
      var front := TakeMany(evs, cut);
      var mid, end := Progress(cut + 1, cut, false, false), Progress(cut + 1, cut + 1, true, false);
      Then(MoveOn(evs), Begun, front, Sends, Progress(cut, cut, false, false), mid);
      Then(MoveOn(evs), Begun, front + [Sends], Takes, mid, end);
      moves := front + [Sends] + [Takes];
    } else {
      var front := FillUp(evs, k - 1);
      Then(MoveOn(evs), Begun, front, Sends, Progress(cut + k, cut + 1, true, false),
           Progress(cut + 1 + k, cut + 1, true, false));
      moves := front + [Sends];
    }
  }

  /** Whoever can go on does. */
  lemma {:induction false} BringToEnd(evs: seq<DsEvent>, p: Progress, before: seq<Move>) returns (moves: seq<Move>)
    requires Along(evs, before) == Some(p) && Sound(evs, p) && |evs| <= Cut(evs) + 1 + SLOTS
    ensures Along(evs, moves).Some? && Answered(Along(evs, moves).value)
    decreases 2 * |evs| + 2 - Done(p)
  {
    if Answered(p) {
      return before;
    }
    NeverStuck(evs, p);
    var m :| Moved(evs, p, m).Some?;
    MoveSound(evs, p, m);
    Then(MoveOn(evs), Begun, before, m, p, Moved(evs, p, m).value);
    moves := BringToEnd(evs, Moved(evs, p, m).value, before + [m]);
  }

  /** A collected request can hang, exactly if more events than the channel holds follow the first
      ending one; and then it always does: no run of it is ever answered. */
  lemma HangsIff(evs: seq<DsEvent>)
    ensures (exists moves :: Along(evs, moves).Some? && Stuck(evs, Along(evs, moves).value))
       <==> |evs| > Cut(evs) + 1 + SLOTS
    ensures (exists moves :: Along(evs, moves).Some? && Answered(Along(evs, moves).value))
       <==> |evs| <= Cut(evs) + 1 + SLOTS
  {
    forall moves | Along(evs, moves).Some? && |evs| <= Cut(evs) + 1 + SLOTS
      ensures !Stuck(evs, Along(evs, moves).value)
    {
      RunSound(evs, moves);
      NeverStuck(evs, Along(evs, moves).value);
    }
    forall moves | Along(evs, moves).Some? && |evs| > Cut(evs) + 1 + SLOTS
      ensures !Answered(Along(evs, moves).value)
    {
      RunSound(evs, moves);
    }
    if |evs| > Cut(evs) + 1 + SLOTS {
      var moves := FillUp(evs, SLOTS);
      assert Stuck(evs, Along(evs, moves).value);
    } else {
      var moves := BringToEnd(evs, Begun, []);
      assert Answered(Along(evs, moves).value);
    }
  }

  /** An answer that is finished at once, with `n` events behind that. */
  lemma HowManyMayFollow(n: nat, more: DsEvent)
    ensures var evs := [Finished(None)] + seq(n, _ => more);
            (exists moves :: Along(evs, moves).Some? && Answered(Along(evs, moves).value)) <==> n <= 64
  {
    var evs := [Finished(None)] + seq(n, _ => more);
    CutIs(evs, 0);
    HangsIff(evs);
  }
}
