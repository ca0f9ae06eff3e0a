/** What a key's bucket says of the responses recorded for it. Counters, cooldown and health are
given by the responses alone, and so is whether an ordinary selection may take the key. */
module KeyHistory {
  import opened Basics
  import opened Scheduler
  import opened SchedulerRuns

  datatype Response = Response(success: bool, status: nat, latencyMs: nat, at: int)

  predicate IsSuccess(r: Response) { r.success }

  predicate Is429(r: Response) { !r.success && r.status == 429 }

  predicate Is5xx(r: Response) { !r.success && 500 <= r.status <= 599 }

  predicate IsConnectionError(r: Response) { !r.success && r.status == 0 }

  function HowMany(p: Response -> bool, rs: seq<Response>): nat {
    if rs == [] then 0 else HowMany(p, rs[..|rs| - 1]) + if p(rs[|rs| - 1]) then 1 else 0
  }

  function Latency(rs: seq<Response>): nat {
    if rs == [] then 0 else Latency(rs[..|rs| - 1]) + rs[|rs| - 1].latencyMs
  }

  /** The response that opened the window of the last one: the first of all, and then each that comes
      more than 60 seconds after the one before it that opened a window. */
  function Opener(rs: seq<Response>): (i: nat)
    requires rs != []
    ensures i < |rs|
  {
    if |rs| == 1 then 0
    else
      var i := Opener(rs[..|rs| - 1]);
      if rs[|rs| - 1].at - rs[i].at > 60 * SECOND then |rs| - 1 else i
  }

  function InWindow(rs: seq<Response>): (recent: seq<Response>)
    ensures rs != [] ==> recent != [] && recent[|recent| - 1] == rs[|rs| - 1]
  {
    if rs == [] then [] else rs[Opener(rs)..]
  }

  /** The 429s since the window of the last response was opened, and the 429s and 5xx of all time. */
  function Streak(rs: seq<Response>): nat { HowMany(Is429, InWindow(rs)) }

  function Overloads(rs: seq<Response>): nat { HowMany(Is429, rs) + HowMany(Is5xx, rs) }

  /** The seconds that a failure cools its key. */
  function SecondsFor(status: nat, streak: nat, overloads: nat): nat {
    if status == 429 then (if streak < 3 then 30 else if streak < 10 then 120 else 600)
    else if status == 403 then Promised(overloads + 1)
    else if status == 0 then 30
    else if 500 <= status <= 599 then 10
    else 60
  }

  function Seconds(rs: seq<Response>): nat
    requires rs != []
  {
    SecondsFor(rs[|rs| - 1].status, Streak(rs), Overloads(rs))
  }

  /** When the last failure's cooldown ends. */
  function CoolUntil(rs: seq<Response>): Option<int> {
    if rs == [] then None
    else if rs[|rs| - 1].success then CoolUntil(rs[..|rs| - 1])
    else Some(rs[|rs| - 1].at + Seconds(rs) * SECOND)
  }

  /** 100 points up to half a second on average, none from ten seconds on. */
  function Promptness(rs: seq<Response>): real
    requires rs != []
  {
    var average := Latency(rs) as real / |rs| as real;
    if average <= 500.0 then 100.0 else if average >= 10_000.0 then 0.0 else (10_000.0 - average) / 95.0
  }

  function Share(p: Response -> bool, rs: seq<Response>): real
    requires rs != []
  {
    HowMany(p, rs) as real / |rs| as real
  }

  function Health(rs: seq<Response>): real
    requires rs != []
  {
    80.0 - 40.0 * (1.0 - Share(IsSuccess, rs)) - 20.0 * Share(Is429, rs) - 20.0 * Share(Is5xx, rs)
      + Promptness(InWindow(rs)) / 5.0
  }

  // ---------------------------------------------------------------- one response more

  /** The bucket of a key that no response has been recorded for. */
  ghost predicate Untold(b: Bucket, now: int) {
    && b.windowStart <= now - 3600 * SECOND && b.cooldownUntil <= now - 3600 * SECOND
    && b.totalRequests == b.totalSuccess == b.total429 == b.total5xx == b.totalConnErr == 0
    && b.windowReq == 0 && b.healthScore == 100.0
  }

  ghost predicate CountersTell(b: Bucket, rs: seq<Response>) {
    && b.totalRequests == |rs| && b.totalSuccess == HowMany(IsSuccess, rs)
    && b.total429 == HowMany(Is429, rs) && b.total5xx == HowMany(Is5xx, rs)
    && b.totalConnErr == HowMany(IsConnectionError, rs)
  }

  ghost predicate WindowTells(b: Bucket, recent: seq<Response>)
    requires recent != []
  {
    && b.windowStart == recent[0].at && b.windowReq == |recent| - 1
    && b.window429 == HowMany(Is429, recent) && b.window5xx == HowMany(Is5xx, recent)
    && b.rtSum == Latency(recent) && b.rtCount == |recent|
  }

  /** What the bucket of a key with these responses says at `now`. */
  ghost predicate Tells(b: Bucket, rs: seq<Response>, now: int) {
    if rs == [] then Untold(b, now)
    else
      && rs[|rs| - 1].at <= now
      && CountersTell(b, rs) && WindowTells(b, InWindow(rs)) && b.healthScore == Health(rs)
      && (match CoolUntil(rs)
          case Some(until) => b.cooldownUntil == until
          case None => b.cooldownUntil <= now - 3600 * SECOND)
  }

  lemma HowManyGrows(p: Response -> bool, rs: seq<Response>, r: Response, all: seq<Response>)
    requires all == rs + [r]
    ensures HowMany(p, all) == HowMany(p, rs) + if p(r) then 1 else 0
  {
    assert all[..|rs|] == rs;
  }

  lemma HowManyOne(p: Response -> bool, r: Response)
    ensures HowMany(p, [r]) == (if p(r) then 1 else 0) && Latency([r]) == r.latencyMs
  {
    assert [r][..0] == [];
    assert HowMany(p, []) == 0 && Latency([]) == 0;
  }

  lemma LatencyGrows(rs: seq<Response>, r: Response, all: seq<Response>)
    requires all == rs + [r]
    ensures Latency(all) == Latency(rs) + r.latencyMs
  {
    assert all[..|rs|] == rs;
  }

  lemma WindowGrows(rs: seq<Response>, r: Response, all: seq<Response>)
    requires all == rs + [r]
    ensures InWindow(all)
         == if rs != [] && r.at - InWindow(rs)[0].at <= 60 * SECOND then InWindow(rs) + [r] else [r]
  {
    assert all[..|rs|] == rs;
  }

  lemma CountersStep(b: Bucket, rs: seq<Response>, r: Response, all: seq<Response>)
    requires all == rs + [r] && CountersTell(b, rs)
    ensures CountersTell(Counted(b, r.at, r.success, r.status, r.latencyMs), all)
  {
    HowManyGrows(IsSuccess, rs, r, all);
    HowManyGrows(Is429, rs, r, all);
    HowManyGrows(Is5xx, rs, r, all);
    HowManyGrows(IsConnectionError, rs, r, all);
  }

  /** A response that comes more than 60 seconds after the window opened opens one of its own. */
  lemma WindowStep(b: Bucket, recent: seq<Response>, r: Response, next: seq<Response>)
    requires recent != [] && WindowTells(b, recent)
    requires next == if r.at - recent[0].at <= 60 * SECOND then recent + [r] else [r]
    ensures WindowTells(Counted(b, r.at, r.success, r.status, r.latencyMs), next)
  {
    if r.at - recent[0].at <= 60 * SECOND {
      HowManyGrows(Is429, recent, r, next);
      HowManyGrows(Is5xx, recent, r, next);
      LatencyGrows(recent, r, next);
    } else {
      HowManyOne(Is429, r);
      HowManyOne(Is5xx, r);
    }
  }

  lemma FirstWindow(b: Bucket, r: Response)
    requires b.windowStart < r.at - 60 * SECOND
    ensures WindowTells(Counted(b, r.at, r.success, r.status, r.latencyMs), [r])
  {
    HowManyOne(Is429, r);
    HowManyOne(Is5xx, r);
  }

  lemma SecondsAre(b: Bucket, rs: seq<Response>)
    requires rs != [] && !rs[|rs| - 1].success && CountersTell(b, rs) && WindowTells(b, InWindow(rs))
    ensures CooldownSecs(rs[|rs| - 1].status, b.window429, b.total429 + b.total5xx) == Seconds(rs)
  {
    CooldownOfLevel(b.total429 + b.total5xx, 1);
  }

  lemma PromptnessIs(b: Bucket, recent: seq<Response>)
    requires recent != [] && WindowTells(b, recent)
    ensures RtScore(b.rtSum, b.rtCount) == Promptness(recent) && 0.0 <= Promptness(recent) <= 100.0
  {
    var average := Latency(recent) as real / |recent| as real;
    assert 100.0 - (average - 500.0) / 9500.0 * 100.0 == (10_000.0 - average) / 95.0;
  }

  lemma {:induction false} OutcomesAreApart(rs: seq<Response>)
    ensures HowMany(IsSuccess, rs) + HowMany(Is429, rs) + HowMany(Is5xx, rs) <= |rs|
  {
    if rs != [] { OutcomesAreApart(rs[..|rs| - 1]); }
  }

  lemma HealthIs(b: Bucket, rs: seq<Response>)
    requires rs != [] && CountersTell(b, rs) && WindowTells(b, InWindow(rs))
    ensures HealthScore(b) == Health(rs)
  {
    PromptnessIs(b, InWindow(rs));
    OutcomesAreApart(rs);
    RatesShareOneTotal(b.totalSuccess, b.total429, b.total5xx, b.totalRequests);
  }

  lemma WindowAfter(b: Bucket, rs: seq<Response>, r: Response, all: seq<Response>)
    requires all == rs + [r] && Tells(b, rs, r.at)
    ensures WindowTells(Counted(b, r.at, r.success, r.status, r.latencyMs), InWindow(all))
  {
    WindowGrows(rs, r, all);
    if rs == [] { FirstWindow(b, r); } else { WindowStep(b, InWindow(rs), r, InWindow(all)); }
  }

  lemma CountersAfter(b: Bucket, rs: seq<Response>, r: Response, all: seq<Response>)
    requires all == rs + [r] && Tells(b, rs, r.at)
    ensures CountersTell(Counted(b, r.at, r.success, r.status, r.latencyMs), all)
  {
    assert CountersTell(b, rs);
    CountersStep(b, rs, r, all);
  }

  lemma CoolingGrows(rs: seq<Response>, r: Response, all: seq<Response>)
    requires all == rs + [r]
    ensures CoolUntil(all) == if r.success then CoolUntil(rs) else Some(r.at + Seconds(all) * SECOND)
  {
    assert all[..|rs|] == rs;
  }

  lemma CooldownAfter(b: Bucket, rs: seq<Response>, r: Response, all: seq<Response>, c: Bucket)
    requires all == rs + [r] && Tells(b, rs, r.at) && c == Counted(b, r.at, r.success, r.status, r.latencyMs)
    requires CountersTell(c, all) && WindowTells(c, InWindow(all))
    ensures var b', u := Respond(b, r.at, r.success, r.status, r.latencyMs), CoolUntil(all);
            if u.Some? then b'.cooldownUntil == u.value else b'.cooldownUntil <= r.at - 3600 * SECOND
  {
    CoolingGrows(rs, r, all);
    if !r.success { SecondsAre(c, all); }
  }

  lemma ScoredTells(b: Bucket, c: Bucket, all: seq<Response>, now: int)
    requires all != [] && all[|all| - 1].at <= now && CountersTell(c, all) && WindowTells(c, InWindow(all))
    requires b == c.(cooldownUntil := b.cooldownUntil, healthScore := HealthScore(c), warmup := b.warmup)
    requires var u := CoolUntil(all);
             if u.Some? then b.cooldownUntil == u.value else b.cooldownUntil <= now - 3600 * SECOND
    ensures Tells(b, all, now)
  {
    HealthIs(c, all);
  }

  lemma ResponseTells(b: Bucket, rs: seq<Response>, r: Response, all: seq<Response>)
    requires all == rs + [r] && Tells(b, rs, r.at)
    ensures Tells(Respond(b, r.at, r.success, r.status, r.latencyMs), all, r.at)
  {
    var c := Counted(b, r.at, r.success, r.status, r.latencyMs);
    CountersAfter(b, rs, r, all);
    WindowAfter(b, rs, r, all);
    CooldownAfter(b, rs, r, all, c);
    ScoredTells(Respond(b, r.at, r.success, r.status, r.latencyMs), c, all, r.at);
  }

  lemma TellsLater(b: Bucket, rs: seq<Response>, now: int, later: int)
    requires Tells(b, rs, now) && now <= later
    ensures Tells(b, rs, later)
  {
  }

  /** Stamp and in-flight count say nothing about responses. */
  lemma TouchedTells(b: Bucket, b': Bucket, rs: seq<Response>, now: int)
    requires Tells(b, rs, now) && b' == b.(lastUsedAt := b'.lastUsedAt, inflight := b'.inflight)
    ensures Tells(b', rs, now)
  {
  }

  // ---------------------------------------------------------------- runs of the scheduler

  ghost predicate InOrder(ops: seq<Op>) {
    forall i, j | 0 <= i <= j < |ops| && !ops[i].EndOp? && !ops[j].EndOp? :: ops[i].at <= ops[j].at
  }

  ghost predicate NotAfter(ops: seq<Op>, now: int) {
    forall i | 0 <= i < |ops| && !ops[i].EndOp? :: ops[i].at <= now
  }

  /** The responses recorded for the key since a sweep last dropped its bucket. */
  ghost function Heard(ops: seq<Op>, id: string): seq<Response> {
    if ops == [] then []
    else
      var before, op := Heard(ops[..|ops| - 1], id), ops[|ops| - 1];
      if op.RespondOp? && op.id == id then before + [Response(op.success, op.status, op.latencyMs, op.at)]
      else if op.SweepOp? && id !in Run(Initial, ops).buckets then []
      else before
  }

  /** The bucket of a key, if there is one, tells what was heard; without one nothing was. */
  ghost predicate Known(v: View, id: string, rs: seq<Response>, now: int) {
    if id in v.buckets then Tells(v.buckets[id], rs, now) else rs == []
  }

  lemma FreshTells(now: int)
    ensures Tells(FreshBucket(now), [], now)
  {
  }

  lemma RespondKnown(v: View, id: string, rs: seq<Response>, op: Op, all: seq<Response>)
    requires op.RespondOp? && op.id == id && Known(v, id, rs, op.at)
    requires all == rs + [Response(op.success, op.status, op.latencyMs, op.at)]
    ensures Known(Apply(v, op), id, all, op.at)
  {
    FreshTells(op.at);
    ResponseTells(BucketOf(v.buckets, id, op.at), rs, Response(op.success, op.status, op.latencyMs, op.at), all);
  }

  lemma SelectKnown(v: View, id: string, rs: seq<Response>, op: Op)
    requires op.SelectOp? && Known(v, id, rs, op.at)
    ensures Known(Apply(v, op), id, rs, op.at)
  {
    SelectTouches(v, op.keys, op.model, op.tried, op.at);
    FreshTells(op.at);
    if id in Apply(v, op).buckets {
      TouchedTells(BucketOf(v.buckets, id, op.at), Apply(v, op).buckets[id], rs, op.at);
    }
  }

  lemma CountKnown(v: View, id: string, rs: seq<Response>, op: Op, now: int)
    requires (op.BeginOp? && op.at == now) || op.EndOp?
    requires Known(v, id, rs, now)
    ensures Known(Apply(v, op), id, rs, now)
  {
    FreshTells(now);
    if id in Apply(v, op).buckets {
      TouchedTells(BucketOf(v.buckets, id, now), Apply(v, op).buckets[id], rs, now);
    }
  }

  lemma OpKnown(v: View, id: string, rs: seq<Response>, op: Op, now: int, all: seq<Response>)
    requires Known(v, id, rs, now) && (!op.EndOp? ==> op.at == now)
    requires all == if op.RespondOp? && op.id == id then rs + [Response(op.success, op.status, op.latencyMs, op.at)]
                    else if op.SweepOp? && id !in Apply(v, op).buckets then [] else rs
    ensures Known(Apply(v, op), id, all, now)
  {
    match op
    case SelectOp(_, _, _, _) => SelectKnown(v, id, rs, op);
    case RespondOp(other, _, _, _, _) => if other == id { RespondKnown(v, id, rs, op, all); }
    case BeginOp(_, _) => CountKnown(v, id, rs, op, now);
    case EndOp(_) => CountKnown(v, id, rs, op, now);
    case SweepOp(_) =>
  }

  lemma KnownLater(v: View, id: string, rs: seq<Response>, now: int, later: int)
    requires Known(v, id, rs, now) && now <= later
    ensures Known(v, id, rs, later)
  {
    if id in v.buckets { TellsLater(v.buckets[id], rs, now, later); }
  }

  lemma HeardGrows(front: seq<Op>, op: Op, ops: seq<Op>, id: string)
    requires ops == front + [op]
    ensures Run(Initial, ops) == Apply(Run(Initial, front), op)
    ensures Heard(ops, id)
         == if op.RespondOp? && op.id == id then
              Heard(front, id) + [Response(op.success, op.status, op.latencyMs, op.at)]
            else if op.SweepOp? && id !in Run(Initial, ops).buckets then [] else Heard(front, id)
  {
    assert ops[..|ops| - 1] == front;
  }

  lemma FrontInOrder(front: seq<Op>, op: Op, ops: seq<Op>, now: int)
    requires ops == front + [op] && InOrder(ops) && NotAfter(ops, now)
    ensures InOrder(front) && NotAfter(front, if op.EndOp? then now else op.at)
    ensures !op.EndOp? ==> op.at <= now
  {
    assert ops[|front|] == op;
    forall i, j | 0 <= i <= j < |front| && !front[i].EndOp? && !front[j].EndOp? ensures front[i].at <= front[j].at {
      assert front[i] == ops[i] && front[j] == ops[j];
    }
    forall i | 0 <= i < |front| && !front[i].EndOp? ensures front[i].at <= if op.EndOp? then now else op.at {
      assert front[i] == ops[i];
    }
  }

  /** In every run by a clock that does not go back, every bucket tells exactly the responses recorded
      for its key: what they count to in all and in their window, how healthy they leave the key, and
      until when the last failure among them cools it. */
  lemma {:induction false} BucketTells(ops: seq<Op>, id: string, now: int)
    requires InOrder(ops) && NotAfter(ops, now)
    ensures Known(Run(Initial, ops), id, Heard(ops, id), now)
  {
    if ops != [] {
      var front, op := ops[..|ops| - 1], ops[|ops| - 1];
      assert ops == front + [op];
      var moment := if op.EndOp? then now else op.at;
      FrontInOrder(front, op, ops, now);
      BucketTells(front, id, moment);
      HeardGrows(front, op, ops, id);
      OpKnown(Run(Initial, front), id, Heard(front, id), op, moment, Heard(ops, id));
      KnownLater(Run(Initial, ops), id, Heard(ops, id), moment, now);
    }
  }

  lemma LastIsLatest(ops: seq<Op>, op: Op, all: seq<Op>)
    requires all == ops + [op] && InOrder(all) && !op.EndOp?
    ensures NotAfter(all, op.at)
  {
    assert all[|ops|] == op;
    forall i | 0 <= i < |all| && !all[i].EndOp? ensures all[i].at <= op.at {
      assert all[i].at <= all[|ops|].at;
    }
  }

  lemma FailureIsHeard(ops: seq<Op>, op: Op, all: seq<Op>, id: string, r: Response)
    requires op.RespondOp? && op.id == id && !op.success && r == Response(false, op.status, op.latencyMs, op.at)
    requires all == ops + [op] && InOrder(all)
    ensures id in Run(Initial, all).buckets && Heard(all, id) == Heard(ops, id) + [r]
    ensures Run(Initial, all).buckets[id].cooldownUntil == op.at + Seconds(Heard(all, id)) * SECOND
  {
    LastIsLatest(ops, op, all);
    BucketTells(all, id, op.at);
    HeardGrows(ops, op, all, id);
    CoolingGrows(Heard(ops, id), r, Heard(all, id));
  }

  /** How long a failure cools its key. `k` counts the 429s from the response that opened the window. */
  lemma FailureCools(ops: seq<Op>, id: string, status: nat, latencyMs: nat, at: int, all: seq<Op>)
    returns (secs: nat, k: nat, overloads: nat)
    requires all == ops + [RespondOp(id, false, status, latencyMs, at)] && InOrder(all)
    ensures id in Run(Initial, all).buckets && Run(Initial, all).buckets[id].cooldownUntil == at + secs * SECOND
    ensures Heard(all, id) == Heard(ops, id) + [Response(false, status, latencyMs, at)]
    ensures k == HowMany(Is429, InWindow(Heard(all, id)))
    ensures overloads == HowMany(Is429, Heard(all, id)) + HowMany(Is5xx, Heard(all, id))
    ensures status == 429 && k < 3 ==> secs == 30
    ensures status == 429 && 3 <= k < 10 ==> secs == 120
    ensures status == 429 && 10 <= k ==> secs == 600
    ensures status == 403 ==> secs == Promised(overloads + 1)
    ensures 500 <= status <= 599 ==> secs == 10
    ensures status == 0 ==> secs == 30
    ensures status !in {0, 403, 429} && !(500 <= status <= 599) ==> secs == 60
  {
    var rs, r := Heard(all, id), Response(false, status, latencyMs, at);
    FailureIsHeard(ops, RespondOp(id, false, status, latencyMs, at), all, id, r);
    assert rs[|rs| - 1] == r;
    k, overloads := Streak(rs), Overloads(rs);
    secs := SecondsFor(status, k, overloads);
  }

  /** A response concerns its own key: no other bucket changes, and a failure releases exactly the models
      that the key serves. */
  lemma ResponseIsLocal(v: View, id: string, success: bool, status: nat, latencyMs: nat, at: int, other: string,
                        model: string)
    ensures var v' := Recorded(v, id, success, status, latencyMs, at);
            && (other != id ==> (other in v'.buckets <==> other in v.buckets))
            && (other != id && other in v.buckets ==> v'.buckets[other] == v.buckets[other])
            && (model in v'.serving <==> model in v.serving && (success || v.serving[model].id != id))
            && (model in v'.serving ==> v'.serving[model] == v.serving[model])
            && v'.roundRobin == v.roundRobin
  {
  }

  ghost predicate IsStreak(rs: seq<Response>) {
    forall i | 0 <= i < |rs| :: Is429(rs[i]) && rs[i].at - rs[0].at <= 60 * SECOND
  }

  lemma {:induction false} SharesWindow(rs: seq<Response>)
    requires rs != [] && IsStreak(rs)
    ensures Opener(rs) == 0 && HowMany(Is429, rs) == |rs|
  {
    var front, last := rs[..|rs| - 1], rs[|rs| - 1];
    assert rs == front + [last] && Is429(last);
    if front == [] { HowManyOne(Is429, last); } else { SharesWindow(front); }
  }

  /** The k-th 429 of a key that had no response before, all within 60 seconds of the first: half a
      minute for the first two, two minutes up to the ninth, then ten. */
  lemma StreakCools(rs: seq<Response>)
    requires rs != [] && IsStreak(rs)
    ensures CoolUntil(rs) == Some(rs[|rs| - 1].at + (if |rs| < 3 then 30 else if |rs| < 10 then 120 else 600) * SECOND)
  {
    SharesWindow(rs);
    assert rs[0..] == rs && Is429(rs[|rs| - 1]);
  }

  /** When an ordinary selection may take a key: untried and in scope, the last failure's cooldown is
      over, fewer than eight requests are in flight, and the window of the last response holds no
      more responses than the limit (its first is not counted). Health never decides. */
  lemma AdmissibleIff(ops: seq<Op>, k: UpstreamKey, scoped: bool, model: string, tried: set<string>, now: int)
    requires InOrder(ops) && NotAfter(ops, now)
    ensures var v, rs := Run(Initial, ops), Heard(ops, k.id);
            Admissible(v.buckets, k, scoped, model, tried, now)
            <==>
              && k.id !in tried && InScope(scoped, k, model)
              && (CoolUntil(rs).Some? ==> CoolUntil(rs).value <= now)
              && (k.id in v.buckets ==> v.buckets[k.id].inflight < 8)
              && (k.rpmLimit >= 1 ==> |InWindow(rs)| <= k.rpmLimit)
  {
    BucketTells(ops, k.id, now);
    ReachableSound(ops);
    FreshTells(now);
    var b := BucketOf(Run(Initial, ops).buckets, k.id, now);
    assert Tells(b, Heard(ops, k.id), now) && SchedulerRuns.Sound(b);
  }

  /** The limit is per window only for keys that go on being used: a key at its limit is out until a
      response is recorded for it or its bucket is swept, however long ago its window opened. */
  lemma FullWindowLocksOut(v: View, ops: seq<Op>, k: UpstreamKey, scoped: bool, model: string, tried: set<string>,
                           now: int)
    requires k.id in v.buckets && 1 <= k.rpmLimit <= v.buckets[k.id].windowReq && RunSpares(v, ops, k.id)
    ensures !Admissible(Run(v, ops).buckets, k, scoped, model, tried, now)
  {
    BucketKept(v, ops, k.id);
  }

  /** Below full warm-up, successes climb from 30 by way of 60 and 90, and a failure takes one back. No
      run leaves full warm-up, though. */
  lemma WarmupLadder(w: real)
    requires w in {30.0, 60.0, 90.0}
    ensures NextWarmup(w, true) == (if w == 90.0 then 100.0 else if w == 60.0 then 90.0 else 60.0)
    ensures w < 90.0 ==> NextWarmup(NextWarmup(w, true), false) == w
    ensures NextWarmup(30.0, false) == 30.0 && NextWarmup(100.0, true) == NextWarmup(100.0, false) == 100.0
  {
  }
}
