/** The two readers of the event channel: one collects the answer, one forwards it frame by frame. */
module Consumers {
  import opened Basics
  import opened Sse

  datatype Frame = RoleDelta | ContentDelta(text: string) | FinishReason(reason: string) | Done

  datatype Penalty = NoPenalty | Muted | Transient

  /** What the event channel holds, and so much the channel of a response's body. */
  const SLOTS: nat := 64

  // ---------------------------------------------------------------- what an event sequence says

  predicate Ends(e: DsEvent) { e.Finished? || e.Hint? }

  /** The position of the first event that ends the answer, or the length. */
  function Cut(evs: seq<DsEvent>): (n: nat)
    ensures n <= |evs| && (n < |evs| ==> Ends(evs[n])) && forall i | 0 <= i < n :: !Ends(evs[i])
  {
    if evs == [] || Ends(evs[0]) then 0 else Cut(evs[1..]) + 1
  }

  lemma CutIs(evs: seq<DsEvent>, n: nat)
    requires n <= |evs| && (n < |evs| ==> Ends(evs[n])) && forall i | 0 <= i < n :: !Ends(evs[i])
    ensures Cut(evs) == n
  {
    var c := Cut(evs);
    assert c < |evs| ==> Ends(evs[c]);
    assert n < |evs| ==> Ends(evs[n]);
  }

  predicate IsText(e: DsEvent) { e.Fragment? && e.kind == Response }

  function TextIn(e: DsEvent): string { if IsText(e) then e.content else "" }

  /** The answer text among the events. */
  function AnswerText(evs: seq<DsEvent>): string { Gather(TextIn, evs) }

  function DeltaText(f: Frame): string { if f.ContentDelta? then f.text else "" }

  /** The text that frames carry to the client. */
  function FrameText(frames: seq<Frame>): string { Gather(DeltaText, frames) }

  predicate HasText(evs: seq<DsEvent>, n: nat)
    requires n <= |evs|
  {
    exists i | 0 <= i < n :: IsText(evs[i])
  }

  // ---------------------------------------------------------------- what is sent for it

  /** The frames that one event makes. */
  function FramesOf(e: DsEvent): seq<Frame> {
    match e
    case Fragment(kind, content) => if kind == Response then [ContentDelta(content)] else []
    case Finished(reason) => [FinishReason(if reason.Some? then reason.value else "stop"), Done]
    case Hint(_, _, _) => [FinishReason("stop"), Done]
    case _ => []
  }

  /** The role, and what the first `n` events make. */
  function FramesUpTo(evs: seq<DsEvent>, n: nat): seq<Frame>
    requires n <= |evs|
  {
    [RoleDelta] + Gather(FramesOf, evs[..n])
  }

  /** How a stream is closed that breaks off before an ending event: politely after some text,
      otherwise not at all. */
  function Closing(evs: seq<DsEvent>): seq<Frame> {
    if HasText(evs, |evs|) then [FinishReason("stop"), Done] else []
  }

  /** All frames that are sent for an event sequence. */
  function Frames(evs: seq<DsEvent>): seq<Frame> {
    var cut := Cut(evs);
    if cut < |evs| then FramesUpTo(evs, cut + 1) else FramesUpTo(evs, cut) + Closing(evs)
  }

  /** What a hint that ends the answer means for the account. */
  function PenaltyOf(evs: seq<DsEvent>): Penalty {
    var cut := Cut(evs);
    if cut < |evs| && evs[cut].Hint? then (if evs[cut].rateLimited then Muted else Transient) else NoPenalty
  }

  // ---------------------------------------------------------------- the readers

  /** The text up to the first ending event, and what that event was. */
  ghost predicate Collected(evs: seq<DsEvent>, content: string, finished: bool, rateLimited: bool) {
    var cut := Cut(evs);
    && content == AnswerText(evs[..cut])
    && (finished <==> cut < |evs| && evs[cut].Finished?)
    && (rateLimited <==> cut < |evs| && evs[cut].Hint? && evs[cut].rateLimited)
  }

  method AggregateResponse(evs: seq<DsEvent>) returns (content: string, finished: bool, rateLimited: bool)
    ensures Collected(evs, content, finished, rateLimited)
  {
    content, finished, rateLimited := "", false, false;
    var i := 0;
    while i < |evs|
      invariant i <= |evs| && content == AnswerText(evs[..i]) && !finished && !rateLimited
      invariant forall j | 0 <= j < i :: !Ends(evs[j])
    {
      GatherGrows(TextIn, evs[..i], evs[i], evs[..i + 1]);
      match evs[i] {
        case Fragment(kind, c) =>
          if kind == Response {
            content := content + c;
          }
        case Finished(_) =>
          finished := true;
          break;
        case Hint(_, _, rl) =>
          if rl {
            rateLimited := true;
          }
          break;
        case _ =>
      }
      i := i + 1;
    }
    CutIs(evs, i);
  }

  lemma SentUpTo(evs: seq<DsEvent>, i: nat, frames: seq<Frame>, more: seq<Frame>)
    requires i < |evs| && frames == FramesUpTo(evs, i) && more == frames + FramesOf(evs[i])
    ensures more == FramesUpTo(evs, i + 1)
  {
    GatherGrows(FramesOf, evs[..i], evs[i], evs[..i + 1]);
  }

  lemma EndsAt(evs: seq<DsEvent>, i: nat)
    requires i < |evs| && Ends(evs[i]) && forall j | 0 <= j < i :: !Ends(evs[j])
    ensures Frames(evs) == FramesUpTo(evs, i + 1)
    ensures PenaltyOf(evs)
            == if !evs[i].Hint? then NoPenalty else if evs[i].rateLimited then Muted else Transient
  {
    CutIs(evs, i);
  }

  lemma NeverEnds(evs: seq<DsEvent>)
    requires forall j | 0 <= j < |evs| :: !Ends(evs[j])
    ensures Frames(evs) == FramesUpTo(evs, |evs|) + Closing(evs) && PenaltyOf(evs) == NoPenalty
  {
    CutIs(evs, |evs|);
  }

  /** Sends a frame for each piece of text; a stream that breaks off after some text is closed
      politely, one without any is left open as an error signal. `frames` is what is sent, in order,
      whether the body's channel takes it or not. */
  method StreamResponse(evs: seq<DsEvent>) returns (frames: seq<Frame>, penalty: Penalty)
    ensures frames == Frames(evs) && penalty == PenaltyOf(evs)
  {
    frames, penalty := [RoleDelta], NoPenalty;
    var sentAny := false;
    var i := 0;
    while i < |evs|
      invariant i <= |evs| && frames == FramesUpTo(evs, i) && penalty == NoPenalty
      invariant sentAny <==> HasText(evs, i)
      invariant forall j | 0 <= j < i :: !Ends(evs[j])
    {
      ghost var before := frames;
      match evs[i] {
        case Fragment(kind, content) =>
          if kind == Response {
            sentAny := true;
            frames := frames + [ContentDelta(content)];
          }
        case Finished(reason) =>
          frames := Close(frames, if reason.Some? then reason.value else "stop");
          SentUpTo(evs, i, before, frames);
          EndsAt(evs, i);
          return;
        case Hint(_, _, rateLimited) =>
          penalty := if rateLimited then Muted else Transient;
          frames := Close(frames, "stop");
          SentUpTo(evs, i, before, frames);
          EndsAt(evs, i);
          return;
        case _ =>
      }
      SentUpTo(evs, i, before, frames);
      i := i + 1;
    }
    NeverEnds(evs);
    if sentAny {
      frames := Close(frames, "stop");
    }
  }

  /** The finish reason and the end marker. */
  method Close(frames: seq<Frame>, reason: string) returns (r: seq<Frame>)
    ensures r == frames + [FinishReason(reason), Done] && FrameText(r) == FrameText(frames)
  {
    r := frames + [FinishReason(reason)];
    r := r + [Done];
    GatherJoin(DeltaText, frames, [FinishReason(reason), Done]);
    ClosingTellsNothing(reason);
    assert FrameText(frames) + "" == FrameText(frames);
    assert r == frames + [FinishReason(reason), Done];
  }

  // ---------------------------------------------------------------- they agree

  /** Complete answers carry one end marker, as their last frame. */
  ghost predicate WellTerminated(frames: seq<Frame>, done: bool) {
    && (forall i | 0 <= i < |frames| :: frames[i] == Done ==> done && i == |frames| - 1)
    && (done ==> |frames| >= 2 && frames[|frames| - 1] == Done && frames[|frames| - 2].FinishReason?)
  }

  /** Before an ending event the frames carry the text so far, and no end marker. */
  lemma {:induction false} OpenFrames(evs: seq<DsEvent>, n: nat)
    requires n <= |evs| && forall i | 0 <= i < n :: !Ends(evs[i])
    ensures Done !in FramesUpTo(evs, n) && FrameText(FramesUpTo(evs, n)) == AnswerText(evs[..n])
  {
    if n == 0 {
      assert [RoleDelta] + Gather(FramesOf, []) == [RoleDelta];
      GatherOne(DeltaText, RoleDelta);
    } else {
      OpenFrames(evs, n - 1);
      NextFrames(evs, n - 1);
    }
  }

  lemma NextFrames(evs: seq<DsEvent>, n: nat)
    requires n < |evs|
    ensures FramesUpTo(evs, n + 1) == FramesUpTo(evs, n) + FramesOf(evs[n])
    ensures FrameText(FramesUpTo(evs, n + 1)) == FrameText(FramesUpTo(evs, n)) + TextIn(evs[n])
    ensures AnswerText(evs[..n + 1]) == AnswerText(evs[..n]) + TextIn(evs[n])
  {
    GatherGrows(FramesOf, evs[..n], evs[n], evs[..n + 1]);
    GatherGrows(TextIn, evs[..n], evs[n], evs[..n + 1]);
    GatherJoin(DeltaText, FramesUpTo(evs, n), FramesOf(evs[n]));
    FramesTell(evs[n]);
  }

  lemma FramesTell(e: DsEvent)
    ensures FrameText(FramesOf(e)) == TextIn(e)
  {
    if IsText(e) {
      GatherOne(DeltaText, ContentDelta(e.content));
    } else if Ends(e) {
      var reason := FramesOf(e)[0].reason;
      ClosingTellsNothing(reason);
    } else {
      assert FramesOf(e) == [];
    }
  }

  lemma ClosingTellsNothing(reason: string)
    ensures FrameText([FinishReason(reason), Done]) == ""
  {
    GatherOne(DeltaText, FinishReason(reason));
    GatherGrows(DeltaText, [FinishReason(reason)], Done, [FinishReason(reason), Done]);
  }

  /** Frames that carry the text, and one end marker, last, if it is due. */
  ghost predicate Says(frames: seq<Frame>, text: string, done: bool) {
    FrameText(frames) == text && WellTerminated(frames, done)
  }

  /** Closing frames after frames without an end marker. */
  lemma ClosesWell(open: seq<Frame>, reason: string, frames: seq<Frame>)
    requires Done !in open && frames == open + [FinishReason(reason), Done]
    ensures Says(frames, FrameText(open), true)
  {
    GatherJoin(DeltaText, open, [FinishReason(reason), Done]);
    ClosingTellsNothing(reason);
  }

  lemma EndedSays(evs: seq<DsEvent>, n: nat)
    requires n < |evs| && Ends(evs[n]) && forall j | 0 <= j < n :: !Ends(evs[j])
    ensures Says(Frames(evs), AnswerText(evs[..n]), true)
  {
    var open := FramesUpTo(evs, n);
    OpenFrames(evs, n);
    SentUpTo(evs, n, open, open + FramesOf(evs[n]));
    EndsAt(evs, n);
    ClosesWell(open, FramesOf(evs[n])[0].reason, open + FramesOf(evs[n]));
  }

  lemma UnendedSays(evs: seq<DsEvent>)
    requires forall j | 0 <= j < |evs| :: !Ends(evs[j])
    ensures Says(Frames(evs), AnswerText(evs[..|evs|]), HasText(evs, |evs|))
  {
    var open := FramesUpTo(evs, |evs|);
    OpenFrames(evs, |evs|);
    NeverEnds(evs);
    if HasText(evs, |evs|) {
      ClosesWell(open, "stop", open + Closing(evs));
    } else {
      assert open + [] == open;
    }
  }

  /** What is sent carries the text up to the first ending event, and one end marker, last, exactly if
      an ending event or some text came. */
  lemma FramesSay(evs: seq<DsEvent>)
    ensures Says(Frames(evs), AnswerText(evs[..Cut(evs)]), Cut(evs) < |evs| || HasText(evs, Cut(evs)))
  {
    if Cut(evs) < |evs| { EndedSays(evs, Cut(evs)); } else { UnendedSays(evs); }
  }

  function PieceOf(e: DsEvent): seq<Frame> {
    if e.Fragment? && e.kind == Response then [ContentDelta(e.content)] else []
  }

  lemma {:induction false} OpenFramesAre(evs: seq<DsEvent>)
    requires forall i | 0 <= i < |evs| :: !evs[i].Finished? && !evs[i].Hint?
    ensures Gather(FramesOf, evs) == Gather(PieceOf, evs)
  {
    if evs != [] {
      OpenFramesAre(evs[..|evs| - 1]);
      assert FramesOf(evs[|evs| - 1]) == PieceOf(evs[|evs| - 1]);
    }
  }

  /** The frames of an event sequence: the role, one frame for each piece of answer text before the
      first ending event, and at its end the reason and the end marker. The reason is the one that
      event gives, and stop if it gives none or if there is no such event. */
  lemma FramesAre(evs: seq<DsEvent>, n: nat)
    requires n <= |evs| && forall i | 0 <= i < n :: !evs[i].Finished? && !evs[i].Hint?
    requires n < |evs| ==> evs[n].Finished? || evs[n].Hint?
    ensures var reason := if n < |evs| && evs[n].Finished? && evs[n].reason.Some? then evs[n].reason.value else "stop";
            var pieces := Gather(PieceOf, evs[..n]);
            Frames(evs)
            == [RoleDelta] + pieces + if n < |evs| || pieces != [] then [FinishReason(reason), Done] else []
  {
    CutIs(evs, n);
    OpenFramesAre(evs[..n]);
    assert evs[..|evs|] == evs;
    if n < |evs| {
      GatherGrows(FramesOf, evs[..n], evs[n], evs[..n + 1]);
    } else {
      PiecesAreText(evs);
    }
  }

  lemma {:induction false} PiecesAreText(evs: seq<DsEvent>)
    ensures HasText(evs, |evs|) <==> Gather(PieceOf, evs) != []
  {
    if evs != [] {
      var front, last := evs[..|evs| - 1], evs[|evs| - 1];
      PiecesAreText(front);
      assert forall i | 0 <= i < |front| :: IsText(front[i]) == IsText(evs[i]);
    }
  }

  /** On one event sequence the stream sends the text that the collector returns. It is marked complete
      whenever the collector finds it finished, once and last, and the account is muted exactly when the
      collector reports a rate limit. */
  lemma ReadersAgree(evs: seq<DsEvent>, content: string, finished: bool, rateLimited: bool)
    requires Collected(evs, content, finished, rateLimited)
    ensures var frames := Frames(evs);
            && FrameText(frames) == content
            && (finished ==> frames[|frames| - 1] == Done)
            && (frames[|frames| - 1] == Done
                ==> frames[|frames| - 2].FinishReason? && forall i | 0 <= i < |frames| - 1 :: frames[i] != Done)
    ensures rateLimited <==> PenaltyOf(evs) == Muted
  {
    FramesSay(evs);
    var cut := Cut(evs);
    assert finished ==> Ends(evs[cut]);
    assert Frames(evs)[0] == RoleDelta;
  }
}
