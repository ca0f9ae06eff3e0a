/** What each end of a tunnelled stream hears of the other: how the connection went, and that it is over. */
module TunnelRuns {
  import opened Basics
  import opened TunnelCodec
  import opened Tunnel

  /** What has happened to a stream. */
  datatype Past = Past(
    connected: Option<bool>,      // how the client side's first frame of the stream, the request, went
    clientShut: bool,             // the client side has handled a Close, or a write to the target has failed
    serverShut: bool,             // the server side has handled a Close, or a write to the SOCKS client has failed
    gaveUp: bool,                 // the SOCKS client was not kept waiting any longer
    socksEnded: bool,             // the SOCKS client has ended
    targetEnded: bool)            // the target has ended, and the other side is told

  const Nothing: Past := Past(None, false, false, false, false, false)

  /** The next frame closes the stream, or is data that cannot be written. */
  predicate Shuts(channel: seq<Msg>, failure: Failure) {
    channel != [] && (channel[0] == Close || (channel[0].Data? && failure.Some?))
  }

  function Remember(p: Past, l: Local, a: Action): Past {
    match a
    case ClientTakes(connects, failure) =>
      p.(connected := if p.connected.None? then Some(connects) else p.connected,
         clientShut := p.clientShut || Shuts(l.in_, failure))
    case ServerTakes(failure) => p.(serverShut := p.serverShut || Shuts(l.back, failure))
    case GiveUp => p.(gaveUp := p.gaveUp || (l.side.Some? && l.side.value.pending))
    case SocksEnd => p.(socksEnded := true)
    case TargetEnd(tell) => p.(targetEnded := p.targetEnded || tell)
    case _ => p
  }

  /** What has happened to stream `sid` in the first `i` events of a run. */
  ghost function PastOf(states: seq<State>, events: seq<Event>, i: nat, sid: nat): Past
    requires i <= |events| < |states|
  {
    if i == 0 then Nothing
    else
      var before := PastOf(states, events, i - 1, sid);
      if events[i - 1].sid == sid then Remember(before, View(states[i - 1], sid), events[i - 1].action) else before
  }

  // ---------------------------------------------------------------- one stream

  /** An open target end is connected and not shut. */
  ghost predicate TargetTells(s: Side, p: Past) {
    && (s.clientOpen <==> p.connected == Some(true) && !p.clientShut)
    && (s.relaying ==> p.connected == Some(true))
  }

  /** The SOCKS client is told how the connection went, unless it gave up before. */
  ghost predicate ReplyTells(s: Side, back: seq<Msg>, p: Past) {
    && (ConnectOk in back ==> p.connected == Some(true))
    && (ConnectFail in back ==> p.connected == Some(false))
    && (s.downOut != [] ==> p.connected.Some? && s.downOut[0] == Reply(p.connected.value))
    && (s.pending <==> s.downOut == [] && !p.gaveUp) && (s.pending ==> !p.serverShut)
    && (s.serverOpen <==> s.downOut != [] && s.downOut[0] == Reply(true) && !p.serverShut)
  }

  /** An end is heard of, or the news is on its way. */
  ghost predicate EndsTell(s: Side, in_: seq<Msg>, back: seq<Msg>, p: Past) {
    && (p.socksEnded ==> Close in in_ || !s.clientOpen)
    && (p.targetEnded ==> Close in back || (!s.serverOpen && !s.pending))
  }

  ghost predicate Tells(l: Local, p: Past) {
    match l.side
    case None => p == Nothing
    case Some(s) =>
      && (p.connected.None? <==> Fresh(s, l.in_, l.back))
      && (p.connected.None? ==> !p.clientShut && !p.serverShut && !p.socksEnded && !p.targetEnded)
      && TargetTells(s, p) && ReplyTells(s, l.back, p) && EndsTell(s, l.in_, l.back, p)
  }

  lemma OpeningTells(l: Local)
    requires LocalFits(l) && l.side.None?
    ensures Tells(Local(Some(Opened), l.in_ + [Connect], l.back), Nothing)
  {
    assert [] + [Connect] == [Connect];
  }

  /** The request is handled: the first answer is how the connection went. */
  lemma RequestTells(s: Side, in_: seq<Msg>, back: seq<Msg>, p: Past, connects: bool, failure: Failure)
    requires Tells(Local(Some(s), in_, back), p) && Fresh(s, in_, back)
    ensures var l, a := Local(Some(s), in_, back), ClientTakes(connects, failure);
            Alone(l, a).Some? && Tells(Alone(l, a).value, Remember(p, l, a))
  {
    var answer := if connects then ConnectOk else ConnectFail;
    assert back + [answer] == [answer] && in_[1..] == [];
  }

  lemma FreshTells(s: Side, in_: seq<Msg>, back: seq<Msg>, a: Action, p: Past)
    requires Tells(Local(Some(s), in_, back), p) && Fresh(s, in_, back) && Alone(Local(Some(s), in_, back), a).Some?
    ensures var l := Local(Some(s), in_, back); Tells(Alone(l, a).value, Remember(p, l, a))
  {
    if a.ClientTakes? { RequestTells(s, in_, back, p, a.connects, a.failure); }
  }

  ghost predicate Underway(s: Side, in_: seq<Msg>, back: seq<Msg>, p: Past) {
    && UpFits(s, in_) && DownFits(s, back) && p.connected.Some?
    && TargetTells(s, p) && ReplyTells(s, back, p) && EndsTell(s, in_, back, p)
  }

  lemma NoLongerFresh(s: Side, in_: seq<Msg>, back: seq<Msg>)
    requires UpFits(s, in_)
    ensures !Fresh(s, in_, back)
  {
    assert [Connect][0] == Connect;
  }

  /** Taking the first frame off a channel. */
  lemma TakenIn(channel: seq<Msg>, m: Msg)
    requires channel != []
    ensures m in channel <==> m == channel[0] || m in channel[1..]
  {
    assert channel == [channel[0]] + channel[1..];
  }

  lemma TargetIsHeard(s: Side, in_: seq<Msg>, p: Past, connects: bool, failure: Failure)
    requires UpFits(s, in_) && TargetTells(s, p) && p.connected.Some? && in_ != []
    requires p.socksEnded ==> Close in in_ || !s.clientOpen
    ensures var s' := ClientHandles(s, in_[0], connects, failure);
            && TargetTells(s', p.(clientShut := p.clientShut || Shuts(in_, failure)))
            && (p.socksEnded ==> Close in in_[1..] || !s'.clientOpen)
  {
    assert in_[0] != Connect;
    TakenIn(in_, Close);
  }

  /** The way down does not notice the way up. */
  lemma ClientLeavesDown(s: Side, back: seq<Msg>, m: Msg, p: Past, connects: bool, failure: Failure)
    requires DownFits(s, back) && ReplyTells(s, back, p) && m != Connect
    requires p.targetEnded ==> Close in back || (!s.serverOpen && !s.pending)
    ensures var s' := ClientHandles(s, m, connects, failure);
            && DownFits(s', back) && ReplyTells(s', back, p)
            && (p.targetEnded ==> Close in back || (!s'.serverOpen && !s'.pending))
  {
  }

  lemma ClientTells(s: Side, in_: seq<Msg>, back: seq<Msg>, p: Past, connects: bool, failure: Failure)
    requires Underway(s, in_, back, p) && in_ != []
    ensures var l, a := Local(Some(s), in_, back), ClientTakes(connects, failure);
            var s', p' := ClientHandles(s, in_[0], connects, failure), Remember(p, l, a);
            Alone(l, a) == Some(Local(Some(s'), in_[1..], back)) && Underway(s', in_[1..], back, p')
  {
    assert in_[0] != Connect;
    ClientKeepsUp(s, in_, connects, failure);
    TargetIsHeard(s, in_, p, connects, failure);
    ClientLeavesDown(s, back, in_[0], p, connects, failure);
    assert back + [] == back;
  }

  /** An answer is what the reply says, to a SOCKS client that still waits. */
  lemma AnswerTells(s: Side, back: seq<Msg>, rest: seq<Msg>, p: Past, ok: bool)
    requires ReplyTells(s, back, p) && DownFits(s, back) && back == [if ok then ConnectOk else ConnectFail] + rest
    ensures ReplyTells(ServerHandles(s, back[0], None), rest, p)
  {
    TakenIn(back, ConnectOk);
    TakenIn(back, ConnectFail);
    assert back[0] in back && back[1..] == rest;
    if s.pending { assert s.downOut + [Reply(ok)] == [Reply(ok)]; }
  }

  lemma FrameTells(s: Side, back: seq<Msg>, rest: seq<Msg>, p: Past, m: Msg, failure: Failure)
    requires ReplyTells(s, back, p) && DownFits(s, back) && back == [m] + rest && !IsAnswer(m)
    ensures ReplyTells(ServerHandles(s, m, failure), rest, p.(serverShut := p.serverShut || Shuts(back, failure)))
  {
    TakenIn(back, ConnectOk);
    TakenIn(back, ConnectFail);
    assert back[1..] == rest && back[0] == m;
    assert !s.pending;
  }

  lemma TargetEndTells(s: Side, back: seq<Msg>, p: Past, failure: Failure)
    requires ReplyTells(s, back, p) && DownFits(s, back) && back != []
    requires p.targetEnded ==> Close in back || (!s.serverOpen && !s.pending)
    ensures var s' := ServerHandles(s, back[0], failure);
            p.targetEnded ==> Close in back[1..] || (!s'.serverOpen && !s'.pending)
  {
    TakenIn(back, Close);
    assert s.pending ==> IsAnswer(back[0]);
  }

  /** The way up does not notice the way down. */
  lemma ServerLeavesUp(s: Side, in_: seq<Msg>, m: Msg, p: Past, failure: Failure)
    requires UpFits(s, in_) && TargetTells(s, p) && (p.socksEnded ==> Close in in_ || !s.clientOpen)
    ensures var s' := ServerHandles(s, m, failure);
            UpFits(s', in_) && TargetTells(s', p) && (p.socksEnded ==> Close in in_ || !s'.clientOpen)
  {
  }

  lemma ReplyIsHeard(s: Side, back: seq<Msg>, p: Past, failure: Failure)
    requires ReplyTells(s, back, p) && DownFits(s, back) && back != []
    ensures ReplyTells(ServerHandles(s, back[0], failure), back[1..],
                       p.(serverShut := p.serverShut || Shuts(back, failure)))
  {
    assert back == [back[0]] + back[1..];
    if IsAnswer(back[0]) {
      AnswerTells(s, back, back[1..], p, back[0] == ConnectOk);
      assert p.(serverShut := p.serverShut || Shuts(back, failure)) == p;
    } else {
      FrameTells(s, back, back[1..], p, back[0], failure);
    }
  }

  lemma ServerTells(s: Side, in_: seq<Msg>, back: seq<Msg>, p: Past, failure: Failure)
    requires Underway(s, in_, back, p) && back != []
    ensures var l, a := Local(Some(s), in_, back), ServerTakes(failure);
            Underway(ServerHandles(s, back[0], failure), in_, back[1..], Remember(p, l, a))
  {
    ServerKeepsDown(s, back, failure);
    ReplyIsHeard(s, back, p, failure);
    TargetEndTells(s, back, p, failure);
    ServerLeavesUp(s, in_, back[0], p, failure);
  }

  lemma SentIn(channel: seq<Msg>, m: Msg, sent: Msg)
    ensures m in channel + [sent] <==> m in channel || m == sent
  {
  }

  lemma TargetSends(s: Side, in_: seq<Msg>, back: seq<Msg>, p: Past, a: Action)
    requires Underway(s, in_, back, p) && Alone(Local(Some(s), in_, back), a).Some? && (a.TargetRead? || a.TargetEnd?)
    ensures var l := Local(Some(s), in_, back);
            var l' := Alone(l, a).value;
            l'.side.Some? && Underway(l'.side.value, l'.in_, l'.back, Remember(p, l, a))
  {
    match a
    case TargetRead(b) =>
      MoreDown(s, back, Data(b), b);
      SentIn(back, Close, Data(b));
      SentIn(back, ConnectOk, Data(b));
      SentIn(back, ConnectFail, Data(b));
    case TargetEnd(tell) =>
      assert back + [] == back && s.downRead + [] == s.downRead;
      if tell {
        MoreDown(s, back, Close, []);
        SentIn(back, Close, Close);
        SentIn(back, ConnectOk, Close);
        SentIn(back, ConnectFail, Close);
      }
  }

  lemma SocksSends(s: Side, in_: seq<Msg>, back: seq<Msg>, p: Past, a: Action)
    requires Underway(s, in_, back, p) && Alone(Local(Some(s), in_, back), a).Some?
    requires a.SocksRead? || a.SocksEnd? || a == StartTalking || a == GiveUp
    ensures var l := Local(Some(s), in_, back);
            var l' := Alone(l, a).value;
            l'.side.Some? && Underway(l'.side.value, l'.in_, l'.back, Remember(p, l, a))
  {
    match a
    case SocksRead(b) =>
      MoreUp(s, in_, Data(b), b);
      SentIn(in_, Close, Data(b));
    case SocksEnd =>
      MoreUp(s, in_, Close, []);
      SentIn(in_, Close, Close);
      assert s.upRead + [] == s.upRead;
    case _ =>
  }

  lemma UnderwayTells(s: Side, in_: seq<Msg>, back: seq<Msg>, a: Action, p: Past)
    requires Underway(s, in_, back, p) && Alone(Local(Some(s), in_, back), a).Some?
    ensures var l := Local(Some(s), in_, back);
            var l' := Alone(l, a).value;
            l'.side.Some? && Underway(l'.side.value, l'.in_, l'.back, Remember(p, l, a))
  {
    match a
    case ClientTakes(connects, failure) => ClientTells(s, in_, back, p, connects, failure);
    case ServerTakes(failure) => ServerTells(s, in_, back, p, failure);
    case TargetRead(_) => TargetSends(s, in_, back, p, a);
    case TargetEnd(_) => TargetSends(s, in_, back, p, a);
    case _ => SocksSends(s, in_, back, p, a);
  }

  lemma StepTells(l: Local, a: Action, p: Past)
    requires LocalFits(l) && Tells(l, p) && Alone(l, a).Some?
    ensures Tells(Alone(l, a).value, Remember(p, l, a))
  {
    if l.side.None? {
      OpeningTells(l);
    } else if Fresh(l.side.value, l.in_, l.back) {
      FreshTells(l.side.value, l.in_, l.back, a, p);
    } else {
      UnderwayTells(l.side.value, l.in_, l.back, a, p);
      var l' := Alone(l, a).value;
      NoLongerFresh(l'.side.value, l'.in_, l'.back);
    }
  }

  // ---------------------------------------------------------------- all streams

  /** In every run, for every stream. */
  lemma {:induction false} EveryStreamTells(states: seq<State>, events: seq<Event>, i: nat, sid: nat)
    requires IsRun(states, events) && i < |states|
    ensures Tells(View(states[i], sid), PastOf(states, events, i, sid))
  {
    if i > 0 {
      EveryStreamTells(states, events, i - 1, sid);
      EveryStreamFits(states, events, i - 1, sid);
      assert Next(states[i - 1], events[i - 1]) == Some(states[i - 1 + 1]);
      StepIsLocal(states[i - 1], events[i - 1], sid);
      if events[i - 1].sid == sid {
        StepTells(View(states[i - 1], sid), events[i - 1].action, PastOf(states, events, i - 1, sid));
      }
    }
  }

  /** The reply that a SOCKS client gets says how the connection to its target went; it gets one unless
      it gave up or the request or its answer is still travelling. */
  lemma ReplyIsOutcome(states: seq<State>, events: seq<Event>, i: nat, sid: nat)
    requires IsRun(states, events) && i < |states| && sid in states[i].sides
    ensures var s, p := states[i].sides[sid], PastOf(states, events, i, sid);
            && (s.downOut != [] ==> p.connected.Some? && s.downOut[0] == Reply(p.connected.value))
            && (s.downOut == [] && !p.gaveUp
                ==> Connect in Of(states[i].toClient, sid)
                    || (if p.connected == Some(true) then ConnectOk else ConnectFail) in Of(states[i].toServer, sid))
  {
    EveryStreamTells(states, events, i, sid);
    EveryStreamFits(states, events, i, sid);
    var s, in_, back := states[i].sides[sid], Of(states[i].toClient, sid), Of(states[i].toServer, sid);
    if Fresh(s, in_, back) {
      assert in_[0] == Connect;
    } else if s.pending {
      assert back[0] in back;
    }
  }

  /** Either end of a stream is open exactly from when it is connected, or answered with a success,
      until a close or a failed write. */
  lemma OpenIff(states: seq<State>, events: seq<Event>, i: nat, sid: nat)
    requires IsRun(states, events) && i < |states| && sid in states[i].sides
    ensures var s, p := states[i].sides[sid], PastOf(states, events, i, sid);
            && (s.clientOpen <==> p.connected == Some(true) && !p.clientShut)
            && (s.serverOpen <==> s.downOut != [] && p.connected == Some(true) && !p.serverShut)
  {
    EveryStreamTells(states, events, i, sid);
  }

  /** When nothing of a stream travels any more, an end of the one side has closed the other. */
  lemma EndsAreHeard(states: seq<State>, events: seq<Event>, i: nat, sid: nat)
    requires IsRun(states, events) && i < |states| && sid in states[i].sides
    requires Of(states[i].toClient, sid) == [] && Of(states[i].toServer, sid) == []
    ensures var s, p := states[i].sides[sid], PastOf(states, events, i, sid);
            && (p.socksEnded ==> !s.clientOpen) && (p.targetEnded ==> !s.serverOpen)
  {
    EveryStreamTells(states, events, i, sid);
  }
}
