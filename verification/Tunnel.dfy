/** The multiplexed tunnel: many SOCKS streams over one pair of FIFO channels.

`Next` is the system, one step of either side or of an endpoint at a time. `Alone` is a single
stream with a pair of channels of its own. Each stream of the system moves as it would alone;
what is proved about one stream therefore holds for all of them together.
*/
module Tunnel {
  import opened Basics
  import opened TunnelCodec

  datatype Msg = Connect | ConnectOk | ConnectFail | Data(bytes: seq<byte>) | Close

  /** What a SOCKS client is sent. */
  datatype Out = Reply(ok: bool) | Bytes(bytes: seq<byte>)

  /** One stream: where either side has it, and what has passed its four ends. */
  datatype Side = Side(
    pending: bool, serverOpen: bool, talking: bool,   // server: awaiting an answer, in its table, reading the client
    clientOpen: bool, relaying: bool,                 // client: in its table, reading the target
    upRead: seq<byte>, upWritten: seq<byte>,          // read from the SOCKS client, written to the target
    downRead: seq<byte>, downOut: seq<Out>)           // read from the target, sent to the SOCKS client

  const Opened: Side := Side(true, false, false, false, false, [], [], [], [])

  datatype Action =
    | Open                                            // a SOCKS request takes a fresh id and sends Connect
    | ClientTakes(connects: bool, failure: Failure)       // the client side handles its next frame
    | TargetRead(bytes: seq<byte>) | TargetEnd(tell: bool)
    | ServerTakes(failure: Failure)                       // the server side handles its next frame
    | StartTalking | GiveUp
    | SocksRead(bytes: seq<byte>) | SocksEnd

  /** A write succeeds, or fails after some bytes. */
  type Failure = Option<nat>

  function Written(b: seq<byte>, f: Failure): (r: seq<byte>)
    ensures r <= b && (f.None? ==> r == b)
  {
    if f.Some? && f.value < |b| then b[..f.value] else b
  }

  // ---------------------------------------------------------------- one stream

  /** A stream by itself: `in_` holds what travels from server to client, `back` the other way. */
  datatype Local = Local(side: Option<Side>, in_: seq<Msg>, back: seq<Msg>)

  /** The client side handles a frame. A write that fails closes the stream on
      this side. */
  function ClientHandles(s: Side, m: Msg, connects: bool, failure: Failure): Side {
    match m
    case Connect => if connects then s.(clientOpen := true, relaying := true) else s
    case Data(b) =>
      if !s.clientOpen then s
      else s.(upWritten := s.upWritten + Written(b, failure), clientOpen := failure.None?)
    case Close => s.(clientOpen := false)
    case _ => s
  }

  /** What it answers. */
  function ClientAnswers(m: Msg, connects: bool): seq<Msg> {
    if m == Connect then [if connects then ConnectOk else ConnectFail] else []
  }

  function ServerHandles(s: Side, m: Msg, failure: Failure): Side {
    match m
    case ConnectOk =>
      if s.pending then s.(pending := false, serverOpen := true, downOut := s.downOut + [Reply(true)]) else s
    case ConnectFail => if s.pending then s.(pending := false, downOut := s.downOut + [Reply(false)]) else s
    case Data(b) =>
      if !s.serverOpen then s
      else s.(downOut := s.downOut + [Bytes(Written(b, failure))], serverOpen := failure.None?)
    case Close => s.(serverOpen := false)
    case Connect => s
  }

  function Alone(l: Local, a: Action): Option<Local> {
    if l.side.None? then
      if a == Open then Some(Local(Some(Opened), l.in_ + [Connect], l.back)) else None
    else
      var s := l.side.value;
      match a
      case Open => None
      case ClientTakes(connects, failure) =>
        if l.in_ == [] then None
        else
          Some(Local(Some(ClientHandles(s, l.in_[0], connects, failure)), l.in_[1..],
                     l.back + ClientAnswers(l.in_[0], connects)))
      case TargetRead(b) =>
        if s.relaying then Some(Local(Some(s.(downRead := s.downRead + b)), l.in_, l.back + [Data(b)])) else None
      case TargetEnd(tell) =>
        if s.relaying then Some(Local(Some(s.(relaying := false)), l.in_, l.back + if tell then [Close] else []))
        else None
      case ServerTakes(failure) =>
        if l.back == [] then None else Some(Local(Some(ServerHandles(s, l.back[0], failure)), l.in_, l.back[1..]))
      case StartTalking => if s.serverOpen && !s.talking then Some(l.(side := Some(s.(talking := true)))) else None
      case GiveUp => Some(l.(side := Some(s.(pending := false))))
      case SocksRead(b) =>
        if s.talking then Some(Local(Some(s.(upRead := s.upRead + b)), l.in_ + [Data(b)], l.back)) else None
      case SocksEnd => if s.talking then Some(Local(Some(s.(talking := false)), l.in_ + [Close], l.back)) else None
  }

  function DataOf(msgs: seq<Msg>): seq<byte> {
    if msgs == [] then [] else (if msgs[0].Data? then msgs[0].bytes else []) + DataOf(msgs[1..])
  }

  function BytesOf(outs: seq<Out>): seq<byte> {
    if outs == [] then []
    else BytesOf(outs[..|outs| - 1]) + if outs[|outs| - 1].Bytes? then outs[|outs| - 1].bytes else []
  }

  lemma {:induction false} DataAppend(msgs: seq<Msg>, more: seq<Msg>)
    ensures DataOf(msgs + more) == DataOf(msgs) + DataOf(more)
  {
    if msgs == [] {
      assert msgs + more == more;
    } else {
      assert (msgs + more)[1..] == msgs[1..] + more;
      DataAppend(msgs[1..], more);
    }
  }

  lemma DataOne(m: Msg)
    ensures DataOf([m]) == if m.Data? then m.bytes else []
  {
    assert [m][1..] == [];
    assert DataOf([]) == [];
  }

  lemma BytesAppend(outs: seq<Out>, o: Out)
    ensures BytesOf(outs + [o]) == BytesOf(outs) + if o.Bytes? then o.bytes else []
  {
    assert (outs + [o])[..|outs|] == outs;
  }

  predicate IsAnswer(m: Msg) { m.ConnectOk? || m.ConnectFail? }

  ghost predicate NoAnswers(msgs: seq<Msg>) { forall i | 0 <= i < |msgs| :: !IsAnswer(msgs[i]) }
  ghost predicate NoConnects(msgs: seq<Msg>) { forall i | 0 <= i < |msgs| :: msgs[i] != Connect }

  /** Nothing has happened to the stream yet but the request on its way. */
  ghost predicate Fresh(s: Side, in_: seq<Msg>, back: seq<Msg>) {
    && in_ == [Connect] && back == []
    && (s == Opened || s == Opened.(pending := false))
  }

  /** Up: while the target's end is open, what was read is what was written and what travels. */
  ghost predicate UpFits(s: Side, in_: seq<Msg>) {
    && NoConnects(in_)
    && s.upWritten <= s.upRead
    && (s.clientOpen ==> s.upRead == s.upWritten + DataOf(in_))
  }

  /** Down: the same, after exactly one reply. */
  ghost predicate DownFits(s: Side, back: seq<Msg>) {
    && BytesOf(s.downOut) <= s.downRead
    && Replied(s.downOut)
    && (s.pending
        ==> !s.serverOpen && !s.talking && s.downOut == [] && back != [] && IsAnswer(back[0]) && NoAnswers(back[1..])
            && s.downRead == DataOf(back))
    && (s.serverOpen
        ==> s.downOut != [] && s.downOut[0] == Reply(true) && NoAnswers(back)
            && s.downRead == BytesOf(s.downOut) + DataOf(back))
  }

  /** A SOCKS client hears one reply, first, and bytes only after a success. */
  ghost predicate Replied(outs: seq<Out>) {
    && (outs != [] ==> outs[0].Reply?)
    && (forall i | 1 <= i < |outs| :: outs[i].Bytes? && outs[0] == Reply(true))
  }

  ghost predicate LocalFits(l: Local) {
    match l.side
    case None => l.in_ == [] && l.back == []
    case Some(s) => Fresh(s, l.in_, l.back) || (UpFits(s, l.in_) && DownFits(s, l.back))
  }

  lemma FreshIsSilent(s: Side, in_: seq<Msg>, back: seq<Msg>)
    requires Fresh(s, in_, back)
    ensures BytesOf(s.downOut) == [] && s.upRead == [] && s.upWritten == [] && s.downOut == [] && !s.serverOpen
            && !s.clientOpen && !s.talking && !s.relaying
  {
  }

  lemma ClientKeepsUp(s: Side, in_: seq<Msg>, connects: bool, failure: Failure)
    requires in_ != [] && UpFits(s, in_)
    ensures UpFits(ClientHandles(s, in_[0], connects, failure), in_[1..])
  {
    ClientKeepsUpFrom(s, in_[0], in_[1..], in_, connects, failure);
  }

  lemma ClientKeepsUpFrom(s: Side, m: Msg, rest: seq<Msg>, in_: seq<Msg>, connects: bool, failure: Failure)
    requires in_ == [m] + rest && UpFits(s, in_)
    ensures UpFits(ClientHandles(s, m, connects, failure), rest)
  {
    assert m == in_[0] && in_[1..] == rest;
    assert NoConnects(rest) by {
      forall i | 0 <= i < |rest| ensures rest[i] != Connect { assert rest[i] == in_[i + 1]; }
    }
    var b := if m.Data? then m.bytes else [];
    if s.clientOpen {
      assert DataOf(in_) == b + DataOf(rest);
      WriteAdvances(s.upRead, s.upWritten, b, DataOf(rest), failure);
      assert [] + DataOf(rest) == DataOf(rest);
    }
  }

  lemma WriteAdvances(read: seq<byte>, written: seq<byte>, b: seq<byte>, rest: seq<byte>, failure: Failure)
    requires read == written + (b + rest)
    ensures written + Written(b, failure) <= read
    ensures failure.None? ==> read == written + Written(b, failure) + rest
  {
    assert written + (b + rest) == written + b + rest;
  }

  lemma ServerRepliesDown(s: Side, back: seq<Msg>, ok: bool)
    requires back != [] && DownFits(s, back) && s.pending && back[0] == (if ok then ConnectOk else ConnectFail)
    ensures DownFits(s.(pending := false, serverOpen := ok, downOut := s.downOut + [Reply(ok)]), back[1..])
  {
    BytesAppend(s.downOut, Reply(ok));
    assert BytesOf(s.downOut) == [];
    assert s.downOut + [Reply(ok)] == [Reply(ok)];
  }

  lemma ServerWritesDown(s: Side, back: seq<Msg>, b: seq<byte>, failure: Failure)
    requires back != [] && DownFits(s, back) && s.serverOpen && back[0] == Data(b)
    ensures DownFits(s.(downOut := s.downOut + [Bytes(Written(b, failure))], serverOpen := failure.None?), back[1..])
  {
    var rest, sent := DataOf(back[1..]), BytesOf(s.downOut);
    BytesAppend(s.downOut, Bytes(Written(b, failure)));
    assert DataOf(back) == b + rest;
    WriteAdvances(s.downRead, sent, b, rest, failure);
    assert !s.pending;
  }

  /** A stream that is neither awaited nor open takes no notice. */
  lemma ServerSkipsDown(s: Side, back: seq<Msg>)
    requires DownFits(s, back) && !s.pending
    ensures back != [] ==> DownFits(s.(serverOpen := false), back[1..])
  {
  }

  lemma ServerKeepsDown(s: Side, back: seq<Msg>, failure: Failure)
    requires back != [] && DownFits(s, back)
    ensures DownFits(ServerHandles(s, back[0], failure), back[1..])
  {
    assert s.pending ==> IsAnswer(back[0]);
    assert s.serverOpen ==> !IsAnswer(back[0]);
    if back[0] == ConnectOk && s.pending {
      ServerRepliesDown(s, back, true);
    } else if back[0] == ConnectFail && s.pending {
      ServerRepliesDown(s, back, false);
    } else if back[0].Data? && s.serverOpen {
      ServerWritesDown(s, back, back[0].bytes, failure);
    } else if back[0] == Connect && s.serverOpen {
      assert DataOf(back) == DataOf(back[1..]);
    } else {
      ServerSkipsDown(s, back);
    }
  }

  lemma ClientConnects(s: Side, connects: bool, failure: Failure)
    requires s == Opened || s == Opened.(pending := false)
    ensures var s' := ClientHandles(s, Connect, connects, failure);
            UpFits(s', []) && DownFits(s', ClientAnswers(Connect, connects))
  {
    var answer := if connects then ConnectOk else ConnectFail;
    DataOne(answer);
    assert [answer][1..] == [];
  }

  predicate Carries(m: Msg, b: seq<byte>) { b == if m.Data? then m.bytes else [] }

  lemma DataSent(msgs: seq<Msg>, m: Msg, b: seq<byte>)
    requires Carries(m, b)
    ensures DataOf(msgs + [m]) == DataOf(msgs) + b
  {
    DataAppend(msgs, [m]);
    DataOne(m);
  }

  /** What is read joins what travels. */
  lemma ReadTravels(read: seq<byte>, written: seq<byte>, travelling: seq<byte>, b: seq<byte>)
    ensures read == written + travelling ==> read + b == written + (travelling + b)
    ensures written <= read ==> written <= read + b
  {
    assert written + travelling + b == written + (travelling + b);
  }

  /** Sending more on a channel. */
  lemma MoreUp(s: Side, in_: seq<Msg>, m: Msg, b: seq<byte>)
    requires UpFits(s, in_) && m != Connect && Carries(m, b)
    ensures UpFits(s.(upRead := s.upRead + b), in_ + [m])
  {
    DataSent(in_, m, b);
    ReadTravels(s.upRead, s.upWritten, DataOf(in_), b);
  }

  lemma MoreDown(s: Side, back: seq<Msg>, m: Msg, b: seq<byte>)
    requires DownFits(s, back) && !IsAnswer(m) && Carries(m, b)
    ensures DownFits(s.(downRead := s.downRead + b), back + [m])
  {
    DataSent(back, m, b);
    ReadTravels(s.downRead, BytesOf(s.downOut), DataOf(back), b);
    if back != [] { assert (back + [m])[1..] == back[1..] + [m]; }
  }

  lemma FreshStep(s: Side, in_: seq<Msg>, back: seq<Msg>, a: Action)
    requires Fresh(s, in_, back) && Alone(Local(Some(s), in_, back), a).Some?
    ensures LocalFits(Alone(Local(Some(s), in_, back), a).value)
  {
    FreshIsSilent(s, in_, back);
    if a.ClientTakes? {
      ClientConnects(s, a.connects, a.failure);
      assert in_[1..] == [] && [] + ClientAnswers(Connect, a.connects) == ClientAnswers(Connect, a.connects);
    }
  }

  /** An end reads and sends. */
  lemma SendingStep(s: Side, in_: seq<Msg>, back: seq<Msg>, a: Action)
    requires UpFits(s, in_) && DownFits(s, back) && Alone(Local(Some(s), in_, back), a).Some?
    requires a.TargetRead? || a.TargetEnd? || a.SocksRead? || a.SocksEnd?
    ensures LocalFits(Alone(Local(Some(s), in_, back), a).value)
  {
    match a
    case TargetRead(b) => MoreDown(s, back, Data(b), b);
    case TargetEnd(tell) =>
      assert back + [] == back && s.downRead + [] == s.downRead;
      if tell { MoreDown(s, back, Close, []); }
    case SocksRead(b) => MoreUp(s, in_, Data(b), b);
    case SocksEnd => MoreUp(s, in_, Close, []); assert s.upRead + [] == s.upRead;
  }

  /** A side takes a frame. */
  lemma HandlingStep(s: Side, in_: seq<Msg>, back: seq<Msg>, a: Action)
    requires UpFits(s, in_) && DownFits(s, back) && Alone(Local(Some(s), in_, back), a).Some?
    requires a.ClientTakes? || a.ServerTakes?
    ensures LocalFits(Alone(Local(Some(s), in_, back), a).value)
  {
    if a.ServerTakes? {
      ServerKeepsDown(s, back, a.failure);
    } else {
      ClientKeepsUp(s, in_, a.connects, a.failure);
      assert in_[0] != Connect;
      assert back + [] == back;
    }
  }

  lemma FittingStep(s: Side, in_: seq<Msg>, back: seq<Msg>, a: Action)
    requires UpFits(s, in_) && DownFits(s, back) && Alone(Local(Some(s), in_, back), a).Some?
    ensures LocalFits(Alone(Local(Some(s), in_, back), a).value)
  {
    if a.ClientTakes? || a.ServerTakes? {
      HandlingStep(s, in_, back, a);
    } else if a != StartTalking && a != GiveUp {
      SendingStep(s, in_, back, a);
    }
  }

  /** A stream alone keeps its books in order, whatever step it takes. */
  lemma AloneFits(l: Local, a: Action)
    requires LocalFits(l) && Alone(l, a).Some?
    ensures LocalFits(Alone(l, a).value)
  {
    if l.side.None? {
      assert [] + [Connect] == [Connect];
    } else if Fresh(l.side.value, l.in_, l.back) {
      FreshStep(l.side.value, l.in_, l.back, a);
    } else {
      FittingStep(l.side.value, l.in_, l.back, a);
    }
  }

  // ---------------------------------------------------------------- all streams together

  datatype State = State(sides: map<nat, Side>, toClient: seq<(nat, Msg)>, toServer: seq<(nat, Msg)>)

  datatype Event = Event(sid: nat, action: Action)

  function Sent(sid: nat, msgs: seq<Msg>): seq<(nat, Msg)> { seq(|msgs|, i requires 0 <= i < |msgs| => (sid, msgs[i])) }

  /** A frame is handled for the stream it names; ids are never used twice. */
  function Next(st: State, e: Event): Option<State> {
    var sid := e.sid;
    if sid !in st.sides then
      if e.action == Open then Some(State(st.sides[sid := Opened], st.toClient + [(sid, Connect)], st.toServer))
      else None
    else
      var s := st.sides[sid];
      match e.action
      case Open => None
      case ClientTakes(connects, failure) =>
        if st.toClient == [] || st.toClient[0].0 != sid then None
        else Some(State(st.sides[sid := ClientHandles(s, st.toClient[0].1, connects, failure)], st.toClient[1..],
                        st.toServer + Sent(sid, ClientAnswers(st.toClient[0].1, connects))))
      case TargetRead(b) =>
        if s.relaying then
          Some(State(st.sides[sid := s.(downRead := s.downRead + b)], st.toClient, st.toServer + [(sid, Data(b))]))
        else None
      case TargetEnd(tell) =>
        if s.relaying then
          Some(State(st.sides[sid := s.(relaying := false)], st.toClient,
                     st.toServer + if tell then [(sid, Close)] else []))
        else None
      case ServerTakes(failure) =>
        if st.toServer == [] || st.toServer[0].0 != sid then None
        else Some(State(st.sides[sid := ServerHandles(s, st.toServer[0].1, failure)], st.toClient, st.toServer[1..]))
      case StartTalking =>
        if s.serverOpen && !s.talking then Some(st.(sides := st.sides[sid := s.(talking := true)])) else None
      case GiveUp => Some(st.(sides := st.sides[sid := s.(pending := false)]))
      case SocksRead(b) =>
        if s.talking then
          Some(State(st.sides[sid := s.(upRead := s.upRead + b)], st.toClient + [(sid, Data(b))], st.toServer))
        else None
      case SocksEnd =>
        if s.talking then Some(State(st.sides[sid := s.(talking := false)], st.toClient + [(sid, Close)], st.toServer))
        else None
  }

  /** The frames of one stream in a channel. */
  function Of(channel: seq<(nat, Msg)>, sid: nat): seq<Msg> {
    if channel == [] then [] else (if channel[0].0 == sid then [channel[0].1] else []) + Of(channel[1..], sid)
  }

  function View(st: State, sid: nat): Local {
    Local(if sid in st.sides then Some(st.sides[sid]) else None, Of(st.toClient, sid), Of(st.toServer, sid))
  }

  lemma {:induction false} OfAppend(a: seq<(nat, Msg)>, b: seq<(nat, Msg)>, sid: nat)
    ensures Of(a + b, sid) == Of(a, sid) + Of(b, sid)
  {
    if a == [] {
      assert a + b == b;
    } else {
      var first := if a[0].0 == sid then [a[0].1] else [];
      assert (a + b)[1..] == a[1..] + b;
      OfAppend(a[1..], b, sid);
      assert Of(a + b, sid) == first + Of(a[1..] + b, sid);
      assert first + (Of(a[1..], sid) + Of(b, sid)) == first + Of(a[1..], sid) + Of(b, sid);
    }
  }

  lemma OfOne(k: nat, m: Msg, sid: nat)
    ensures Of([(k, m)], sid) == if k == sid then [m] else []
  {
    assert [(k, m)][1..] == [];
    assert Of([], sid) == [];
  }

  lemma OfSent(channel: seq<(nat, Msg)>, k: nat, m: Msg, sid: nat)
    ensures Of(channel + [(k, m)], sid) == Of(channel, sid) + if k == sid then [m] else []
  {
    OfAppend(channel, [(k, m)], sid);
    OfOne(k, m, sid);
  }

  lemma OfTaken(channel: seq<(nat, Msg)>, k: nat, sid: nat)
    requires channel != [] && channel[0].0 == k
    ensures k == sid ==> Of(channel, sid) != [] && channel[0].1 == Of(channel, sid)[0]
    ensures Of(channel[1..], sid) == if k == sid then Of(channel, sid)[1..] else Of(channel, sid)
  {
  }

  lemma OfAnswers(channel: seq<(nat, Msg)>, k: nat, m: Msg, connects: bool, sid: nat)
    ensures Of(channel + Sent(k, ClientAnswers(m, connects)), sid)
            == Of(channel, sid) + if k == sid then ClientAnswers(m, connects) else []
  {
    if m == Connect {
      var answer := if connects then ConnectOk else ConnectFail;
      assert Sent(k, ClientAnswers(m, connects)) == [(k, answer)];
      OfSent(channel, k, answer, sid);
    } else {
      assert Sent(k, ClientAnswers(m, connects)) == [] && channel + [] == channel;
    }
  }

  predicate Follows(e: Event, sid: nat, before: Local, after: Local) {
    if e.sid == sid then Alone(before, e.action) == Some(after) else after == before
  }

  lemma HandlingIsLocal(st: State, e: Event, sid: nat)
    requires Next(st, e).Some? && (e.action.ClientTakes? || e.action.ServerTakes?)
    ensures Follows(e, sid, View(st, sid), View(Next(st, e).value, sid))
  {
    if e.action.ClientTakes? {
      OfTaken(st.toClient, e.sid, sid);
      OfAnswers(st.toServer, e.sid, st.toClient[0].1, e.action.connects, sid);
    } else {
      OfTaken(st.toServer, e.sid, sid);
    }
  }

  lemma SendingIsLocal(st: State, e: Event, sid: nat)
    requires Next(st, e).Some? && !e.action.ClientTakes? && !e.action.ServerTakes?
    ensures Follows(e, sid, View(st, sid), View(Next(st, e).value, sid))
  {
    match e.action
    case Open => OfSent(st.toClient, e.sid, Connect, sid);
    case TargetRead(b) => OfSent(st.toServer, e.sid, Data(b), sid);
    case TargetEnd(tell) =>
      OfSent(st.toServer, e.sid, Close, sid);
      assert st.toServer + [] == st.toServer && Of(st.toServer, sid) + [] == Of(st.toServer, sid);
    case SocksRead(b) => OfSent(st.toClient, e.sid, Data(b), sid);
    case SocksEnd => OfSent(st.toClient, e.sid, Close, sid);
    case _ =>
  }

  /** Multiplexing is transparent: a step of one stream is that stream's step alone, and no other
      stream notices. */
  lemma StepIsLocal(st: State, e: Event, sid: nat)
    requires Next(st, e).Some?
    ensures var st' := Next(st, e).value;
            if e.sid == sid then Alone(View(st, sid), e.action) == Some(View(st', sid))
            else View(st', sid) == View(st, sid)
  {
    if e.action.ClientTakes? || e.action.ServerTakes? {
      HandlingIsLocal(st, e, sid);
    } else {
      SendingIsLocal(st, e, sid);
    }
  }

  ghost predicate IsRun(states: seq<State>, events: seq<Event>) {
    && |states| == |events| + 1 && states[0] == State(map[], [], [])
    && forall i | 0 <= i < |events| :: Next(states[i], events[i]) == Some(states[i + 1])
  }

  lemma {:induction false} EveryStreamFits(states: seq<State>, events: seq<Event>, i: nat, sid: nat)
    requires IsRun(states, events) && i < |states|
    ensures LocalFits(View(states[i], sid))
  {
    if i > 0 {
      EveryStreamFits(states, events, i - 1, sid);
      assert Next(states[i - 1], events[i - 1]) == Some(states[i - 1 + 1]);
      StepIsLocal(states[i - 1], events[i - 1], sid);
      if events[i - 1].sid == sid { AloneFits(View(states[i - 1], sid), events[i - 1].action); }
    }
  }

  /** In every run, for every stream: the bytes written to the target are the first bytes read from
      its SOCKS client, the bytes sent to the SOCKS client are the first bytes read from its target,
      and they follow exactly one reply, a success. */
  lemma StreamsDeliverPrefixes(states: seq<State>, events: seq<Event>, i: nat, sid: nat)
    requires IsRun(states, events) && i < |states| && sid in states[i].sides
    ensures var s := states[i].sides[sid];
            s.upWritten <= s.upRead && BytesOf(s.downOut) <= s.downRead && Replied(s.downOut)
  {
    EveryStreamFits(states, events, i, sid);
  }

  /** And nothing is lost on the way: as long as the receiving end has not been closed, whatever
      was read and is not delivered is still travelling. */
  lemma NothingIsLost(states: seq<State>, events: seq<Event>, i: nat, sid: nat)
    requires IsRun(states, events) && i < |states| && sid in states[i].sides
    ensures var s := states[i].sides[sid];
            && (s.clientOpen ==> s.upRead == s.upWritten + DataOf(Of(states[i].toClient, sid)))
            && (s.serverOpen ==> s.downRead == BytesOf(s.downOut) + DataOf(Of(states[i].toServer, sid)))
  {
    EveryStreamFits(states, events, i, sid);
  }
}
