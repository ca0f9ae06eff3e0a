/** What every run of the scheduler keeps: sound counters, the health floor, and from it the
exact condition under which a selection fails. */
module SchedulerRuns {
  import opened Basics
  import opened Scheduler

  /** Every operation another task may perform between two of ours. */
  datatype Op =
    | SelectOp(keys: seq<UpstreamKey>, model: string, tried: set<string>, at: int)
    | RespondOp(id: string, success: bool, status: nat, latencyMs: nat, at: int)
    | BeginOp(id: string, at: int)
    | EndOp(id: string)
    | SweepOp(at: int)

  function Apply(v: View, op: Op): View {
    match op
    case SelectOp(keys, model, tried, at) => Select(v, keys, model, tried, at).0
    case RespondOp(id, success, status, latencyMs, at) => Recorded(v, id, success, status, latencyMs, at)
    case BeginOp(id, at) => v.(buckets := Begun(v.buckets, id, at))
    case EndOp(id) => v.(buckets := Ended(v.buckets, id))
    case SweepOp(at) => v.(buckets := Swept(v.buckets, at))
  }

  function Run(v: View, ops: seq<Op>): View {
    if ops == [] then v else Apply(Run(v, ops[..|ops| - 1]), ops[|ops| - 1])
  }

  const Initial: View := View(map[], map[], 0)

  // ---------------------------------------------------------------- health

  /** Each response is counted once, so the three rates share one total. */
  ghost predicate Sound(b: Bucket) {
    && b.totalSuccess + b.total429 + b.total5xx + b.totalConnErr <= b.totalRequests
    && b.warmup == WARMUP_FULL
    && 20.0 <= b.healthScore <= 100.0
    && (b.totalRequests > 0 ==> 20.0 + 60.0 * Rate(b.totalSuccess, b.totalRequests) <= b.healthScore)
  }

  ghost predicate AllSound(v: View) { forall id | id in v.buckets :: Sound(v.buckets[id]) }

  lemma RatesShareOneTotal(s: nat, e: nat, f: nat, t: nat)
    requires s + e + f <= t && t > 0
    ensures Rate(s, t) + Rate(e, t) + Rate(f, t) <= 1.0
    ensures 0.0 <= Rate(s, t) && 0.0 <= Rate(e, t) && 0.0 <= Rate(f, t)
  {
    assert Rate(s, t) + Rate(e, t) + Rate(f, t) == (s + e + f) as real / t as real;
  }

  /** The score stays between 20 + 60 times the success rate and 100. */
  lemma HealthFloor(b: Bucket)
    requires b.totalSuccess + b.total429 + b.total5xx <= b.totalRequests && b.totalRequests > 0
    ensures 20.0 + 60.0 * Rate(b.totalSuccess, b.totalRequests) <= HealthScore(b) <= 100.0
    ensures 20.0 <= HealthScore(b)
  {
    RatesShareOneTotal(b.totalSuccess, b.total429, b.total5xx, b.totalRequests);
  }

  lemma RespondSound(b: Bucket, now: int, success: bool, status: nat, latencyMs: nat)
    requires Sound(b)
    ensures Sound(Respond(b, now, success, status, latencyMs))
  {
    HealthFloor(Counted(b, now, success, status, latencyMs));
  }

  /** All that a selection does to the buckets is to stamp one of them. */
  lemma SelectTouches(v: View, keys: seq<UpstreamKey>, model: string, tried: set<string>, now: int)
    ensures var (v', r) := Select(v, keys, model, tried, now);
            v'.buckets == if r.Ok? then Touch(v.buckets, r.value.id, now) else v.buckets
  {
  }

  lemma ApplySound(v: View, op: Op)
    requires AllSound(v)
    ensures AllSound(Apply(v, op))
  {
    match op
    case SelectOp(keys, model, tried, at) => SelectTouches(v, keys, model, tried, at);
    case RespondOp(id, success, status, latencyMs, at) =>
      assert Sound(BucketOf(v.buckets, id, at));
      RespondSound(BucketOf(v.buckets, id, at), at, success, status, latencyMs);
    case BeginOp(_, _) =>
    case EndOp(_) =>
    case SweepOp(_) =>
  }

  /** Health, warm-up and counters of every bucket that any run can reach. */
  lemma {:induction false} ReachableSound(ops: seq<Op>)
    ensures AllSound(Run(Initial, ops))
  {
    if ops != [] {
      ReachableSound(ops[..|ops| - 1]);
      ApplySound(Run(Initial, ops[..|ops| - 1]), ops[|ops| - 1]);
    }
  }

  // ---------------------------------------------------------------- selection

  /** The key has a scope, and the model's name occurs in it. */
  predicate Names(k: UpstreamKey, model: string) { k.modelScope != "" && Contains(k.modelScope, model) }

  lemma DedicatedNames(k: UpstreamKey, model: string)
    ensures Dedicated(k, model) <==> Names(k, model)
  {
    if k.modelScope == model { assert OccursAt(k.modelScope, model, 0); }
  }

  lemma ScopedNames(keys: seq<UpstreamKey>, model: string)
    ensures HasScoped(keys, model) <==> exists d | d in keys :: Names(d, model)
  {
    if i :| 0 <= i < |keys| && Dedicated(keys[i], model) {
      DedicatedNames(keys[i], model);
      assert keys[i] in keys;
    }
    if d :| d in keys && Names(d, model) {
      DedicatedNames(d, model);
      var i :| 0 <= i < |keys| && keys[i] == d;
      assert Dedicated(keys[i], model);
    }
  }

  /** When some key has a scope that names the model, the scope is the keys that have one; otherwise it
      is those without a scope. */
  lemma ScopeMeaning(keys: seq<UpstreamKey>, model: string, k: UpstreamKey)
    requires k in keys
    ensures InScope(HasScoped(keys, model), k, model)
       <==> if exists d | d in keys :: Names(d, model) then Names(k, model) else k.modelScope == ""
  {
    ScopedNames(keys, model);
    DedicatedNames(k, model);
    if k.modelScope == model { assert OccursAt(k.modelScope, model, 0); }
  }

  /** In a sound state a selection fails exactly when each key in scope was tried already (or
      there is no key at all), and then it changes nothing. */
  lemma SelectFailsIff(v: View, keys: seq<UpstreamKey>, model: string, tried: set<string>, now: int)
    requires AllSound(v)
    ensures var (v', r) := Select(v, keys, model, tried, now);
            && (r.Err? <==> forall k | k in keys && InScope(HasScoped(keys, model), k, model) :: k.id in tried)
            && (r.Err? ==> v' == v)
  {
    var scoped := HasScoped(keys, model);
    var cands := Candidates(v.buckets, keys, scoped, model, tried, now);
    var fallbacks := Fallbacks(v.buckets, keys, scoped, model, tried, now);
    forall k | k in keys && InScope(scoped, k, model) && k.id !in tried
      ensures k in fallbacks
    {
      assert Sound(BucketOf(v.buckets, k.id, now));
    }
    if cands != [] { assert cands[0] in cands; }
    if fallbacks != [] { assert fallbacks[0] in fallbacks; }
  }

  /** So it is in every state that a run can reach. */
  lemma ReachableSelectFailsIff(ops: seq<Op>, keys: seq<UpstreamKey>, model: string, tried: set<string>, now: int)
    ensures Select(Run(Initial, ops), keys, model, tried, now).1.Err?
       <==> forall k | k in keys && InScope(HasScoped(keys, model), k, model) :: k.id in tried
  {
    ReachableSound(ops);
    SelectFailsIff(Run(Initial, ops), keys, model, tried, now);
  }

  /** Whom a successful selection may choose, and all that it changes. */
  lemma SelectChooses(v: View, keys: seq<UpstreamKey>, model: string, tried: set<string>, now: int)
    requires Select(v, keys, model, tried, now).1.Ok?
    ensures var (v', r) := Select(v, keys, model, tried, now);
            var k, scoped := r.value, HasScoped(keys, model);
            && k in keys && InScope(scoped, k, model) && k.id !in tried
            && (if exists c | c in keys :: Admissible(v.buckets, c, scoped, model, tried, now)
                then Admissible(v.buckets, k, scoped, model, tried, now)
                else forall c | c in keys && c.id !in tried && InScope(scoped, c, model) ::
                       BucketOf(v.buckets, c.id, now).healthScore <= BucketOf(v.buckets, k.id, now).healthScore)
            && v'.buckets == v.buckets[k.id := BucketOf(v.buckets, k.id, now).(lastUsedAt := now)]
            && v'.serving == v.serving[model := Serving(k.id, v'.serving[model].count)]
  {
    var scoped := HasScoped(keys, model);
    var cands := Candidates(v.buckets, keys, scoped, model, tried, now);
    if cands != [] { assert cands[0] in cands; }
  }

  /** Without a key that passes every filter, the first of the healthiest serves and starts a block of
      its own; the round robin does not move. */
  lemma LastResortServes(v: View, keys: seq<UpstreamKey>, model: string, tried: set<string>, now: int)
    requires Select(v, keys, model, tried, now).1.Ok?
    requires forall c | c in keys :: !Admissible(v.buckets, c, HasScoped(keys, model), model, tried, now)
    ensures var (v', r) := Select(v, keys, model, tried, now);
            && v'.serving == v.serving[model := Serving(r.value.id, 1)] && v'.roundRobin == v.roundRobin
            && exists i | 0 <= i < |keys| ::
                 && keys[i] == r.value
                 && forall k | k in keys[..i] && LastResort(v.buckets, k, HasScoped(keys, model), model, tried, now) ::
                      BucketOf(v.buckets, k.id, now).healthScore < BucketOf(v.buckets, r.value.id, now).healthScore
  {
    var scoped := HasScoped(keys, model);
    var cands := Candidates(v.buckets, keys, scoped, model, tried, now);
    if cands != [] { SomeIn(cands); }
    var fallbacks := Fallbacks(v.buckets, keys, scoped, model, tried, now);
    var i := FirstHealthiest(v.buckets, fallbacks, now);
    var p := PlaceInPool(v.buckets, keys, scoped, model, tried, now, i);
  }

  lemma SomeIn(ks: seq<UpstreamKey>)
    requires ks != []
    ensures exists k :: k in ks
  {
    assert ks[0] in ks;
  }

  lemma {:induction false} FirstHealthiest(buckets: map<string, Bucket>, ks: seq<UpstreamKey>, now: int)
    returns (i: nat)
    requires ks != []
    ensures i < |ks| && ks[i] == Healthiest(buckets, ks, now)
    ensures forall j | 0 <= j < i ::
              BucketOf(buckets, ks[j].id, now).healthScore < BucketOf(buckets, ks[i].id, now).healthScore
  {
    if |ks| == 1 {
      i := 0;
    } else {
      i := FirstHealthiest(buckets, ks[..|ks| - 1], now);
      var last := BucketOf(buckets, ks[|ks| - 1].id, now).healthScore;
      if last > BucketOf(buckets, ks[i].id, now).healthScore {
        forall j | 0 <= j < |ks| - 1 ensures BucketOf(buckets, ks[j].id, now).healthScore < last {
          assert ks[j] in ks[..|ks| - 1];
        }
        i := |ks| - 1;
      }
    }
  }

  lemma FallbacksGrow(buckets: map<string, Bucket>, front: seq<UpstreamKey>, k: UpstreamKey, keys: seq<UpstreamKey>,
                      scoped: bool, model: string, tried: set<string>, now: int)
    requires keys == front + [k]
    ensures Fallbacks(buckets, keys, scoped, model, tried, now)
            == Fallbacks(buckets, front, scoped, model, tried, now)
               + if LastResort(buckets, k, scoped, model, tried, now) then [k] else []
  {
    assert keys[..|keys| - 1] == front;
  }

  /** The keys of last resort before place `p` are among `ks`. */
  ghost predicate Listed(buckets: map<string, Bucket>, keys: seq<UpstreamKey>, scoped: bool, model: string,
                         tried: set<string>, now: int, p: nat, ks: seq<UpstreamKey>)
    requires p <= |keys|
  {
    forall k | k in keys[..p] && LastResort(buckets, k, scoped, model, tried, now) :: k in ks
  }

  /** Where a key of last resort stands among all keys. */
  lemma {:induction false} PlaceInPool(buckets: map<string, Bucket>, keys: seq<UpstreamKey>, scoped: bool,
                                       model: string, tried: set<string>, now: int, i: nat)
    returns (p: nat)
    requires i < |Fallbacks(buckets, keys, scoped, model, tried, now)|
    ensures p < |keys| && keys[p] == Fallbacks(buckets, keys, scoped, model, tried, now)[i]
    ensures Listed(buckets, keys, scoped, model, tried, now, p,
                   Fallbacks(buckets, keys, scoped, model, tried, now)[..i])
  {
    var front, last := keys[..|keys| - 1], keys[|keys| - 1];
    var before := Fallbacks(buckets, front, scoped, model, tried, now);
    FallbacksGrow(buckets, front, last, keys, scoped, model, tried, now);
    var all := Fallbacks(buckets, keys, scoped, model, tried, now);
    if i < |before| {
      p := PlaceInPool(buckets, front, scoped, model, tried, now, i);
      assert all[..i] == before[..i] && keys[..p] == front[..p];
    } else {
      p := |front|;
      assert all[..i] == before && keys[..p] == front;
    }
  }

  /** Which error a selection gives. */
  lemma SelectErrs(v: View, keys: seq<UpstreamKey>, model: string, tried: set<string>, now: int)
    ensures Select(v, keys, model, tried, now).1 == Err(NoActiveKeys) <==> keys == []
  {
  }

  // ---------------------------------------------------------------- cooldown

  lemma CooldownRange(status: nat, window429: nat, overloads: nat)
    ensures 10 <= CooldownSecs(status, window429, overloads) <= 600
    ensures status == 403 ==> (CooldownSecs(status, window429, overloads) == 60 <==> overloads == 0)
  {
    assert Doubled(60, 0) == 60 && Doubled(60, 1) == 120 && Doubled(60, 2) == 240 && Doubled(60, 3) == 480
           && Doubled(60, 4) == 960;
  }

  function Rejections(b: Bucket, ats: seq<int>): Bucket {
    if ats == [] then b else Respond(Rejections(b, ats[..|ats| - 1]), ats[|ats| - 1], false, 403, 0)
  }

  /** The 403 back-off counts 429 and 5xx totals, which a 403 does not raise: however many 403s
      a key collects in a row, each cools it for the same time. */
  lemma {:induction false} RepeatedRejectionsNeverEscalate(b: Bucket, ats: seq<int>)
    ensures var r := Rejections(b, ats);
            && r.total429 == b.total429 && r.total5xx == b.total5xx
            && (ats != []
                ==> r.cooldownUntil == ats[|ats| - 1] + CooldownSecs(403, 0, b.total429 + b.total5xx) * SECOND)
  {
    if ats != [] {
      RepeatedRejectionsNeverEscalate(b, ats[..|ats| - 1]);
    }
  }

  /** The seconds that the comment gives for the k-th 403: 60, 120, 240, 480, 600. */
  function Promised(k: nat): nat
    requires k >= 1
  {
    if k == 1 then 60 else if k == 2 then 120 else if k == 3 then 240 else if k == 4 then 480 else 600
  }

  lemma CooldownOfLevel(overloads: nat, k: nat)
    requires k >= 1
    ensures CooldownSecs(403, 0, overloads) == Promised(overloads + 1)
    ensures Promised(overloads + 1) == Promised(k) <==> MinNat(overloads + 1, 5) == MinNat(k, 5)
  {
    assert Doubled(60, 0) == 60 && Doubled(60, 1) == 120 && Doubled(60, 2) == 240 && Doubled(60, 3) == 480
           && Doubled(60, 4) == 960;
  }

  /** The k-th 403 in a row cools the key for the time the comment gives for it, exactly if the
      overloads before the row stand at that level already. */
  lemma KthRejectionAsPromisedIff(b: Bucket, ats: seq<int>, k: nat)
    requires 1 <= k <= |ats|
    ensures Rejections(b, ats[..k]).cooldownUntil == ats[k - 1] + Promised(k) * SECOND
       <==> MinNat(b.total429 + b.total5xx + 1, 5) == MinNat(k, 5)
  {
    RepeatedRejectionsNeverEscalate(b, ats[..k]);
    CooldownOfLevel(b.total429 + b.total5xx, k);
  }

  /** The operation leaves what `id`'s bucket says of responses alone: no response is recorded for it and its
      bucket does not fall to the sweep. */
  ghost predicate Spares(v: View, op: Op, id: string) {
    && (op.RespondOp? ==> op.id != id)
    && (op.SweepOp? && id in v.buckets ==> !Stale(v.buckets[id], op.at))
  }

  ghost predicate RunSpares(v: View, ops: seq<Op>, id: string) {
    forall i {:trigger ops[i]} | 0 <= i < |ops| :: Spares(Run(v, ops[..i]), ops[i], id)
  }

  /** Only the time of last use and the in-flight count differ. */
  ghost predicate SameButUse(b: Bucket, b': Bucket) {
    b' == b.(lastUsedAt := b'.lastUsedAt, inflight := b'.inflight)
  }

  lemma SparedStep(v: View, op: Op, id: string)
    requires id in v.buckets && Spares(v, op, id)
    ensures id in Apply(v, op).buckets && SameButUse(v.buckets[id], Apply(v, op).buckets[id])
  {
    if op.SelectOp? { SelectTouches(v, op.keys, op.model, op.tried, op.at); }
  }

  lemma {:induction false} BucketKept(v: View, ops: seq<Op>, id: string)
    requires id in v.buckets && RunSpares(v, ops, id)
    ensures id in Run(v, ops).buckets && SameButUse(v.buckets[id], Run(v, ops).buckets[id])
  {
    if ops != [] {
      var n := |ops| - 1;
      forall i | 0 <= i < n ensures Spares(Run(v, ops[..n][..i]), ops[..n][i], id) {
        assert ops[..n][..i] == ops[..i];
        assert Spares(Run(v, ops[..i]), ops[i], id);
      }
      BucketKept(v, ops[..n], id);
      SparedStep(Run(v, ops[..n]), ops[n], id);
    }
  }

  /** After a failure the key sits out: until its cooldown ends, whatever else happens, a
      selection takes it only when no key in scope is ready. */
  lemma FailedKeySitsOut(v: View, id: string, status: nat, latencyMs: nat, at: int, ops: seq<Op>, failed: View,
                         keys: seq<UpstreamKey>, model: string, tried: set<string>, now: int)
    requires failed == Recorded(v, id, false, status, latencyMs, at)
    requires RunSpares(failed, ops, id) && now < failed.buckets[id].cooldownUntil
    ensures at + 10 * SECOND <= failed.buckets[id].cooldownUntil <= at + 600 * SECOND
    ensures forall m | m in failed.serving :: failed.serving[m].id != id
    ensures var v' := Run(failed, ops);
            var (_, r) := Select(v', keys, model, tried, now);
            r.Ok? && r.value.id == id
            ==> forall c | c in keys :: !Admissible(v'.buckets, c, HasScoped(keys, model), model, tried, now)
  {
    var c := Counted(BucketOf(v.buckets, id, at), at, false, status, latencyMs);
    CooldownRange(status, c.window429, c.total429 + c.total5xx);
    BucketKept(failed, ops, id);
    var v' := Run(failed, ops);
    var (_, r) := Select(v', keys, model, tried, now);
    if r.Ok? {
      SelectChooses(v', keys, model, tried, now);
      assert r.value.id == id ==> !Ready(BucketOf(v'.buckets, id, now), r.value, now);
    }
  }
}
