/** A streamed answer on its way to the client, over two bounded channels.

The parser puts events into the one and waits while it is full. The forwarding task takes them out and
offers frames to the other, which refuses a frame while it is full. The client reads that one, but only
once the parser has ended: the handler waits for the parser before it returns the response.
*/
module Streaming {
  import opened Basics
  import opened Sse
  import opened Consumers

  datatype State = State(
    sent: nat, taken: nat,                        // events put into the first channel, and taken out
    pending: seq<Frame>, offered: seq<Frame>,     // frames to be offered to the second channel, and offered
    accepted: seq<Frame>, lost: seq<Frame>,       // the offered ones, as the channel decided
    read: nat,                                    // how many of the accepted ones the client has read
    stopped: bool, quit: bool,                    // the forwarding task left its loop, and ended
    parsed: bool)                                 // the parser ended

  const Start: State := State(0, 0, [RoleDelta], [], [], [], 0, false, false, false)

  datatype Action = ParserSends | ParserEnds | Takes | Closes | Offers | Quits | Reads

  /** One step of one of the three. `evs` are the events that the parser has to send. */
  function Step(evs: seq<DsEvent>, s: State, a: Action): Option<State> {
    match a
    case ParserSends =>
      if !s.parsed && !s.quit && s.sent < |evs| && s.sent < s.taken + SLOTS then Some(s.(sent := s.sent + 1)) else None
    case ParserEnds =>
      if !s.parsed && (s.quit || s.sent == |evs|) then Some(s.(parsed := true)) else None
    case Takes =>
      if s.pending == [] && !s.stopped && s.taken < s.sent <= |evs| then
        var e := evs[s.taken];
        Some(s.(taken := s.taken + 1, pending := FramesOf(e), stopped := Ends(e)))
      else None
    case Closes =>
      if s.pending == [] && !s.stopped && s.parsed && s.taken == s.sent <= |evs| then
        Some(s.(pending := Closing(evs[..s.taken]), stopped := true))
      else None
    case Offers =>
      if s.pending == [] then None
      else
        var f, after := s.pending[0], s.(pending := s.pending[1..], offered := s.offered + [s.pending[0]]);
        Some(if |s.accepted| < s.read + SLOTS then after.(accepted := s.accepted + [f])
             else after.(lost := s.lost + [f]))
    case Quits => if s.stopped && s.pending == [] && !s.quit then Some(s.(quit := true)) else None
    case Reads => if s.parsed && s.read < |s.accepted| then Some(s.(read := s.read + 1)) else None
  }

  function Next(evs: seq<DsEvent>): (State, Action) -> Option<State> { (s: State, a: Action) => Step(evs, s, a) }

  function After(evs: seq<DsEvent>, steps: seq<Action>): Option<State> { Steps(Next(evs), Start, steps) }

  /** The answer is through: both tasks have ended and the client has read all there is. */
  predicate Complete(s: State) { s.quit && s.parsed && s.read == |s.accepted| }

  // ---------------------------------------------------------------- counting text

  function Texts(frames: seq<Frame>): nat {
    if frames == [] then 0
    else Texts(frames[..|frames| - 1]) + if DeltaText(frames[|frames| - 1]) != "" then 1 else 0
  }

  lemma {:induction false} TextsJoin(a: seq<Frame>, b: seq<Frame>)
    ensures Texts(a + b) == Texts(a) + Texts(b)
  {
    if b == [] {
      assert a + b == a;
    } else {
      assert (a + b)[..|a + b| - 1] == a + b[..|b| - 1];
      TextsJoin(a, b[..|b| - 1]);
    }
  }

  lemma NextText(frames: seq<Frame>, f: Frame, all: seq<Frame>)
    requires all == frames + [f]
    ensures Texts(all) == Texts(frames) + if DeltaText(f) != "" then 1 else 0
    ensures FrameText(all) == FrameText(frames) + DeltaText(f)
  {
    assert all[..|frames|] == frames;
    GatherGrows(DeltaText, frames, f, all);
  }

  lemma {:induction false} TextsMeanText(frames: seq<Frame>)
    ensures Texts(frames) <= |frames|
    ensures Texts(frames) == 0 <==> FrameText(frames) == ""
  {
    if frames != [] {
      var n := |frames| - 1;
      TextsMeanText(frames[..n]);
      NextText(frames[..n], frames[n], frames);
    }
  }

  /** What a channel without a reader takes of some frames, and the text in the rest. */
  function Kept(frames: seq<Frame>): seq<Frame> { frames[..MinNat(SLOTS, |frames|)] }
  function Rest(frames: seq<Frame>): seq<Frame> { frames[MinNat(SLOTS, |frames|)..] }
  function Overflow(frames: seq<Frame>): nat { Texts(Rest(frames)) }

  lemma OverflowGrows(a: seq<Frame>, more: seq<Frame>, b: seq<Frame>)
    requires b == a + more
    ensures Overflow(a) <= Overflow(b)
  {
    if |a| < SLOTS {
      assert Rest(a) == [];
    } else {
      assert Rest(b) == Rest(a) + more;
      TextsJoin(Rest(a), more);
    }
  }

  // ---------------------------------------------------------------- what every run keeps

  /** How far the three are. */
  predicate Shape(evs: seq<DsEvent>, s: State) {
    && s.taken <= s.sent <= |evs| && s.sent <= s.taken + SLOTS && s.read <= |s.accepted|
    && (s.quit ==> s.stopped && s.pending == [])
    && (s.parsed ==> s.quit || s.sent == |evs|)
  }

  lemma ShapeStep(evs: seq<DsEvent>, s: State, a: Action)
    requires Shape(evs, s) && Step(evs, s, a).Some?
    ensures Shape(evs, Step(evs, s, a).value)
  {
  }

  /** The forwarding task stops after the ending event, or after all. */
  predicate InPlace(evs: seq<DsEvent>, s: State) {
    && (s.taken <= Cut(evs) || (s.taken == Cut(evs) + 1 && s.stopped))
    && (s.stopped && s.taken <= Cut(evs) ==> s.taken == Cut(evs) == |evs|)
  }

  /** What it has to offer. */
  function Due(evs: seq<DsEvent>, s: State): seq<Frame>
    requires s.taken <= |evs|
  {
    if s.stopped then Frames(evs) else FramesUpTo(evs, s.taken)
  }

  /** It offers the frames of an event before it takes the next. */
  ghost predicate Behind(evs: seq<DsEvent>, s: State)
    requires s.taken <= |evs|
  {
    s.taken > 0 ==> FramesUpTo(evs, s.taken - 1) <= s.offered
  }

  ghost predicate EventsFit(evs: seq<DsEvent>, s: State) {
    Shape(evs, s) && InPlace(evs, s) && s.offered + s.pending == Due(evs, s) && Behind(evs, s)
  }

  /** What is offered is accepted or lost. */
  ghost predicate Shared(offered: seq<Frame>, accepted: seq<Frame>, lost: seq<Frame>) {
    && |accepted| + |lost| == |offered|
    && |FrameText(accepted)| + |FrameText(lost)| == |FrameText(offered)|
    && (Texts(lost) == 0 ==> FrameText(accepted) == FrameText(offered))
    && (lost == [] ==> accepted == offered)
  }

  /** No more is lost than lies beyond the first frames. */
  ghost predicate Late(offered: seq<Frame>, lost: seq<Frame>) {
    |lost| <= |Rest(offered)| && Texts(lost) <= Overflow(offered)
  }

  ghost predicate ChannelFits(s: State) {
    && (!s.parsed ==> s.read == 0)
    && s.read <= |s.accepted| <= s.read + SLOTS
    && Shared(s.offered, s.accepted, s.lost) && Late(s.offered, s.lost)
    && (s.read == 0 ==> s.accepted == Kept(s.offered) && s.lost == Rest(s.offered))
  }

  lemma StartFits(evs: seq<DsEvent>)
    ensures EventsFit(evs, Start) && ChannelFits(Start)
  {
    assert [] + [RoleDelta] == [RoleDelta] && FramesUpTo(evs, 0) == [RoleDelta];
  }

  lemma TakesFits(evs: seq<DsEvent>, s: State)
    requires EventsFit(evs, s) && Step(evs, s, Takes).Some?
    ensures EventsFit(evs, Step(evs, s, Takes).value)
  {
    var e := evs[s.taken];
    ShapeStep(evs, s, Takes);
    assert s.offered + s.pending == s.offered;
    SentUpTo(evs, s.taken, s.offered, s.offered + FramesOf(e));
    if Ends(e) { assert s.taken == Cut(evs); }
  }

  lemma ClosesFits(evs: seq<DsEvent>, s: State)
    requires EventsFit(evs, s) && Step(evs, s, Closes).Some?
    ensures EventsFit(evs, Step(evs, s, Closes).value)
  {
    ShapeStep(evs, s, Closes);
    assert s.offered + s.pending == s.offered && evs[..s.taken] == evs;
  }

  lemma OffersFits(evs: seq<DsEvent>, s: State)
    requires EventsFit(evs, s) && Step(evs, s, Offers).Some?
    ensures EventsFit(evs, Step(evs, s, Offers).value)
  {
    var s' := Step(evs, s, Offers).value;
    ShapeStep(evs, s, Offers);
    OneMoves(s.offered, s.pending);
    assert InPlace(evs, s') && Due(evs, s') == Due(evs, s);
    assert Behind(evs, s');
  }

  lemma OneMoves(a: seq<Frame>, b: seq<Frame>)
    requires b != []
    ensures (a + [b[0]]) + b[1..] == a + b && a <= a + [b[0]]
  {
  }

  lemma EventsFitStep(evs: seq<DsEvent>, s: State, a: Action)
    requires EventsFit(evs, s) && Step(evs, s, a).Some?
    ensures EventsFit(evs, Step(evs, s, a).value)
  {
    if a == Takes {
      TakesFits(evs, s);
    } else if a == Closes {
      ClosesFits(evs, s);
    } else if a == Offers {
      OffersFits(evs, s);
    } else {
      ShapeStep(evs, s, a);
    }
  }

  lemma SharedAccepts(offered: seq<Frame>, accepted: seq<Frame>, lost: seq<Frame>, f: Frame)
    requires Shared(offered, accepted, lost)
    ensures Shared(offered + [f], accepted + [f], lost)
  {
    NextText(offered, f, offered + [f]);
    NextText(accepted, f, accepted + [f]);
  }

  lemma SharedLoses(offered: seq<Frame>, accepted: seq<Frame>, lost: seq<Frame>, f: Frame)
    requires Shared(offered, accepted, lost)
    ensures Shared(offered + [f], accepted, lost + [f])
  {
    NextText(offered, f, offered + [f]);
    NextText(lost, f, lost + [f]);
    assert DeltaText(f) == "" ==> FrameText(offered) + DeltaText(f) == FrameText(offered);
  }

  lemma RestGrows(offered: seq<Frame>, f: Frame)
    requires |offered| >= SLOTS
    ensures Rest(offered + [f]) == Rest(offered) + [f] && Kept(offered + [f]) == Kept(offered)
  {
  }

  lemma LateAccepts(offered: seq<Frame>, lost: seq<Frame>, f: Frame)
    requires Late(offered, lost)
    ensures Late(offered + [f], lost)
  {
    OverflowGrows(offered, [f], offered + [f]);
  }

  lemma LateLoses(offered: seq<Frame>, lost: seq<Frame>, f: Frame)
    requires Late(offered, lost) && |offered| >= SLOTS
    ensures Late(offered + [f], lost + [f])
  {
    RestGrows(offered, f);
    NextText(Rest(offered), f, Rest(offered + [f]));
    NextText(lost, f, lost + [f]);
  }

  lemma AcceptFits(s: State, f: Frame, s': State)
    requires ChannelFits(s) && |s.accepted| < s.read + SLOTS
    requires s' == s.(pending := s'.pending, offered := s.offered + [f], accepted := s.accepted + [f])
    ensures ChannelFits(s')
  {
    SharedAccepts(s.offered, s.accepted, s.lost, f);
    LateAccepts(s.offered, s.lost, f);
    if s.read == 0 { assert Kept(s'.offered) == s'.offered && Rest(s'.offered) == []; }
  }

  lemma RefuseFits(s: State, f: Frame, s': State)
    requires ChannelFits(s) && |s.accepted| >= s.read + SLOTS
    requires s' == s.(pending := s'.pending, offered := s.offered + [f], lost := s.lost + [f])
    ensures ChannelFits(s')
  {
    SharedLoses(s.offered, s.accepted, s.lost, f);
    LateLoses(s.offered, s.lost, f);
    RestGrows(s.offered, f);
  }

  /** One more frame is offered. */
  lemma OfferFits(evs: seq<DsEvent>, s: State)
    requires ChannelFits(s) && s.pending != []
    ensures ChannelFits(Step(evs, s, Offers).value)
  {
    var s' := Step(evs, s, Offers).value;
    if |s.accepted| < s.read + SLOTS { AcceptFits(s, s.pending[0], s'); } else { RefuseFits(s, s.pending[0], s'); }
  }

  lemma ChannelFitsStep(evs: seq<DsEvent>, s: State, a: Action)
    requires ChannelFits(s) && Step(evs, s, a).Some?
    ensures ChannelFits(Step(evs, s, a).value)
  {
    if a == Offers { OfferFits(evs, s); }
  }

  /** What has certainly been offered when the last event is sent: at that time at most as many events
      as the first channel holds are still in it, and the frames of one more are not offered yet. */
  function Lead(evs: seq<DsEvent>): seq<Frame> {
    if |evs| <= SLOTS then [] else FramesUpTo(evs, |evs| - SLOTS - 1)
  }

  /** All text can reach a client: without being read, or since the parser can end early enough. */
  predicate CanArrive(evs: seq<DsEvent>) {
    Overflow(Frames(evs)) == 0 || (|evs| <= Cut(evs) + 1 + SLOTS && Overflow(Lead(evs)) == 0)
  }

  ghost predicate LeadFits(evs: seq<DsEvent>, s: State) { s.parsed && Texts(s.lost) == 0 ==> CanArrive(evs) }

  lemma {:induction false} MoreEvents(evs: seq<DsEvent>, n: nat, m: nat)
    requires n <= m <= |evs|
    ensures FramesUpTo(evs, n) <= FramesUpTo(evs, m)
    decreases m
  {
    if n < m {
      MoreEvents(evs, n, m - 1);
      SentUpTo(evs, m - 1, FramesUpTo(evs, m - 1), FramesUpTo(evs, m - 1) + FramesOf(evs[m - 1]));
    }
  }

  /** Events so far back have been offered. */
  lemma LeadIsOffered(evs: seq<DsEvent>, s: State, n: nat)
    requires Shape(evs, s) && Behind(evs, s) && n < s.taken
    ensures FramesUpTo(evs, n) <= s.offered && Overflow(FramesUpTo(evs, n)) <= Overflow(s.offered)
  {
    MoreEvents(evs, n, s.taken - 1);
    PrefixOverflows(FramesUpTo(evs, n), FramesUpTo(evs, s.taken - 1), s.offered);
  }

  lemma PrefixOverflows(a: seq<Frame>, b: seq<Frame>, c: seq<Frame>)
    requires a <= b <= c
    ensures a <= c && Overflow(a) <= Overflow(c)
  {
    assert c == a + c[|a|..];
    OverflowGrows(a, c[|a|..], c);
  }

  lemma SentEarlyEnough(evs: seq<DsEvent>, s: State)
    requires Shape(evs, s) && InPlace(evs, s) && Behind(evs, s) && s.sent == |evs| && Overflow(s.offered) == 0
    ensures |evs| <= Cut(evs) + 1 + SLOTS && Overflow(Lead(evs)) == 0
  {
    if |evs| > SLOTS { LeadIsOffered(evs, s, |evs| - SLOTS - 1); }
  }

  lemma ParserEndsFits(evs: seq<DsEvent>, s: State)
    requires EventsFit(evs, s) && ChannelFits(s) && !s.parsed && (s.quit || s.sent == |evs|) && Texts(s.lost) == 0
    ensures CanArrive(evs)
  {
    if s.quit {
      assert s.offered + s.pending == s.offered;
    } else {
      SentEarlyEnough(evs, s);
    }
  }

  lemma LeadFitsStep(evs: seq<DsEvent>, s: State, a: Action)
    requires EventsFit(evs, s) && ChannelFits(s) && LeadFits(evs, s) && Step(evs, s, a).Some?
    ensures LeadFits(evs, Step(evs, s, a).value)
  {
    if a == ParserEnds && Texts(s.lost) == 0 {
      ParserEndsFits(evs, s);
    } else if a == Offers {
      NextText(s.lost, s.pending[0], s.lost + [s.pending[0]]);
    }
  }

  ghost predicate Fits(evs: seq<DsEvent>, s: State) { EventsFit(evs, s) && ChannelFits(s) && LeadFits(evs, s) }

  lemma FitsStep(evs: seq<DsEvent>, s: State, a: Action)
    requires Fits(evs, s) && Step(evs, s, a).Some?
    ensures Fits(evs, Step(evs, s, a).value)
  {
    EventsFitStep(evs, s, a);
    ChannelFitsStep(evs, s, a);
    LeadFitsStep(evs, s, a);
  }

  /** All this holds in every run. */
  lemma {:induction false} RunFits(evs: seq<DsEvent>, steps: seq<Action>)
    requires After(evs, steps).Some?
    ensures Fits(evs, After(evs, steps).value)
  {
    if steps == [] {
      StartFits(evs);
    } else {
      var n := |steps| - 1;
      RunFits(evs, steps[..n]);
      FitsStep(evs, After(evs, steps[..n]).value, steps[n]);
    }
  }

  // ---------------------------------------------------------------- runs to the end

  /** What to do next: the client reads whenever it can, or not before the end. */
  function Pick(evs: seq<DsEvent>, s: State, eager: bool): Action {
    if eager && s.read < |s.accepted| then Reads
    else if s.pending != [] then Offers
    else if s.quit then ParserEnds
    else if s.stopped then Quits
    else if s.taken < s.sent then Takes
    else if s.parsed then Closes
    else if s.sent < |evs| then ParserSends
    else ParserEnds
  }

  lemma PickGoesOn(evs: seq<DsEvent>, s: State, eager: bool)
    requires Shape(evs, s) && (eager ==> s.parsed)
    requires !(s.quit && s.parsed && (eager ==> s.read == |s.accepted|))
    ensures Step(evs, s, Pick(evs, s, eager)).Some?
    ensures var s' := Step(evs, s, Pick(evs, s, eager)).value;
            (eager ==> s'.lost == s.lost && s'.parsed) && (!eager ==> s'.read == s.read)
  {
  }

  /** A run from any state to the end of both tasks. */
  lemma {:induction false} Finish(evs: seq<DsEvent>, s: State, eager: bool) returns (steps: seq<Action>, end: State)
    requires Shape(evs, s) && (eager ==> s.parsed)
    ensures Steps(Next(evs), s, steps) == Some(end) && end.quit && end.parsed
    ensures (eager ==> end.lost == s.lost) && (!eager ==> end.read == s.read)
    decreases |evs| - s.sent, |evs| - s.taken, !s.stopped, |s.pending|, !s.quit, !s.parsed, |s.accepted| - s.read
  {
    if s.quit && s.parsed && (eager ==> s.read == |s.accepted|) {
      return [], s;
    }
    var a := Pick(evs, s, eager);
    PickGoesOn(evs, s, eager);
    ShapeStep(evs, s, a);
    var rest;
    rest, end := Finish(evs, Step(evs, s, a).value, eager);
    OneStep(Next(evs), s, a);
    StepsJoin(Next(evs), s, [a], rest);
    steps := [a] + rest;
  }
}
