/** The upstream key scheduler: scope filter, cooldown, health score, sticky round robin,
in-flight counters and the periodic sweep of idle buckets.

The class updates its maps in place. Every method is specified by a function on `View`, the
value of those maps; the theorems over runs are about these functions.
*/
module Scheduler {
  import opened Basics

  const ROTATION_REQUESTS_PER_WEIGHT: nat := 6
  const MIN_ROTATION_REQUESTS: nat := 3
  const MAX_ROTATION_REQUESTS: nat := 40
  const PER_KEY_CONCURRENCY_CAP: nat := 8
  const HEALTH_SCORE_MIN: real := 10.0
  const WARMUP_TARGET: real := 30.0
  const WARMUP_STEP1: real := 60.0
  const WARMUP_STEP2: real := 90.0
  const WARMUP_FULL: real := 100.0
  const SLIDE_WINDOW: int := 60 * SECOND
  const STALE_AFTER: int := 600 * SECOND
  const U64: nat := 0x1_0000_0000_0000_0000

  datatype UpstreamKey = UpstreamKey(id: string, weight: int, rpmLimit: int, modelScope: string)

  datatype Bucket = Bucket(
    lastUsedAt: int, cooldownUntil: int, healthScore: real, warmup: real,
    totalRequests: nat, totalSuccess: nat, total429: nat, total5xx: nat, totalConnErr: nat,
    window429: nat, window5xx: nat, windowReq: nat, windowStart: int, rtSum: nat, rtCount: nat,
    inflight: nat)

  datatype Serving = Serving(id: string, count: nat)

  datatype SelectError = NoActiveKeys | AllExhausted

  type Choice = Result<UpstreamKey, SelectError>

  /** The scheduler's mutable state as a value. */
  datatype View = View(buckets: map<string, Bucket>, serving: map<string, Serving>, roundRobin: nat)

  function FreshBucket(now: int): Bucket {
    var past := now - 3600 * SECOND;
    Bucket(past, past, 100.0, WARMUP_FULL, 0, 0, 0, 0, 0, 0, 0, 0, past, 0, 0, 0)
  }

  /** A missing bucket reads as a fresh one. */
  function BucketOf(buckets: map<string, Bucket>, id: string, now: int): Bucket {
    if id in buckets then buckets[id] else FreshBucket(now)
  }

  function Touch(buckets: map<string, Bucket>, id: string, now: int): map<string, Bucket> {
    buckets[id := BucketOf(buckets, id, now).(lastUsedAt := now)]
  }

  // ---------------------------------------------------------------- scope and order

  /** The key carries a scope and the scope covers the model. */
  predicate Dedicated(k: UpstreamKey, model: string) {
    k.modelScope != "" && (k.modelScope == model || Contains(k.modelScope, model))
  }

  predicate HasScoped(keys: seq<UpstreamKey>, model: string) {
    exists i | 0 <= i < |keys| :: Dedicated(keys[i], model)
  }

  /** Dedicated keys serve the model when there are any; otherwise the general keys do. */
  predicate InScope(scoped: bool, k: UpstreamKey, model: string) {
    if scoped then Dedicated(k, model)
    else k.modelScope == "" || k.modelScope == model || Contains(k.modelScope, model)
  }

  /** Lexicographic order of key ids. */
  predicate Before(a: string, b: string) {
    a == "" || (b != "" && (a[0] < b[0] || (a[0] == b[0] && Before(a[1..], b[1..]))))
  }

  lemma {:induction false} BeforeTotal(a: string, b: string)
    ensures Before(a, b) || Before(b, a)
    ensures Before(a, b) && Before(b, a) ==> a == b
  {
    if a != "" && b != "" && a[0] == b[0] {
      BeforeTotal(a[1..], b[1..]);
      assert a == [a[0]] + a[1..] && b == [b[0]] + b[1..];
    }
  }

  lemma {:induction false} BeforeTransitive(a: string, b: string, c: string)
    requires Before(a, b) && Before(b, c)
    ensures Before(a, c)
  {
    if a != "" && a[0] == b[0] == c[0] {
      BeforeTransitive(a[1..], b[1..], c[1..]);
    }
  }

  ghost predicate SortedById(ks: seq<UpstreamKey>) {
    forall i, j | 0 <= i < j < |ks| :: Before(ks[i].id, ks[j].id)
  }

  lemma LastIsGreatest(front: seq<UpstreamKey>, last: UpstreamKey, k: UpstreamKey)
    requires SortedById(front + [last]) && Before(last.id, k.id)
    ensures SortedById(front + [last] + [k])
  {
    forall i | 0 <= i < |front| ensures Before(front[i].id, k.id) {
      assert Before((front + [last])[i].id, (front + [last])[|front|].id);
      BeforeTransitive(front[i].id, last.id, k.id);
    }
  }

  lemma LastStaysGreatest(front: seq<UpstreamKey>, last: UpstreamKey, k: UpstreamKey, r: seq<UpstreamKey>)
    requires SortedById(front + [last]) && !Before(last.id, k.id)
    requires SortedById(r) && multiset(r) == multiset(front) + multiset{k}
    ensures SortedById(r + [last])
  {
    BeforeTotal(k.id, last.id);
    forall i | 0 <= i < |r| ensures Before(r[i].id, last.id) {
      assert r[i] in multiset(front) + multiset{k};
      if r[i] in front {
        var j :| 0 <= j < |front| && front[j] == r[i];
        assert Before((front + [last])[j].id, (front + [last])[|front|].id);
      }
    }
  }

  function InsertById(k: UpstreamKey, ks: seq<UpstreamKey>): (r: seq<UpstreamKey>)
    requires SortedById(ks)
    ensures SortedById(r) && multiset(r) == multiset(ks) + multiset{k}
  {
    if ks == [] then [k]
    else
      var front, last := ks[..|ks| - 1], ks[|ks| - 1];
      assert ks == front + [last];
      if Before(last.id, k.id) then
        LastIsGreatest(front, last, k);
        ks + [k]
      else
        var r := InsertById(k, front);
        LastStaysGreatest(front, last, k, r);
        r + [last]
  }

  /** The stable order that the round-robin index counts in. */
  function SortById(ks: seq<UpstreamKey>): (r: seq<UpstreamKey>)
    ensures SortedById(r) && multiset(r) == multiset(ks)
    ensures |r| == |ks|
  {
    if ks == [] then []
    else
      assert ks == ks[..|ks| - 1] + [ks[|ks| - 1]];
      var r := InsertById(ks[|ks| - 1], SortById(ks[..|ks| - 1]));
      assert |multiset(r)| == |r| && |multiset(ks)| == |ks|;
      r
  }

  // ---------------------------------------------------------------- selection

  function RotationTarget(k: UpstreamKey): nat {
    var base := (if k.weight >= 1 then k.weight else 1) * ROTATION_REQUESTS_PER_WEIGHT;
    if base < MIN_ROTATION_REQUESTS then MIN_ROTATION_REQUESTS
    else if base > MAX_ROTATION_REQUESTS then MAX_ROTATION_REQUESTS
    else base
  }

  /** The key may take one more ordinary request now. */
  predicate Ready(b: Bucket, k: UpstreamKey, now: int) {
    b.cooldownUntil <= now && HEALTH_SCORE_MIN <= b.healthScore && b.inflight < PER_KEY_CONCURRENCY_CAP
    && (k.rpmLimit <= 0 || b.windowReq < k.rpmLimit)
  }

  /** The key passes every filter of an ordinary selection. */
  predicate Admissible(buckets: map<string, Bucket>, k: UpstreamKey, scoped: bool, model: string, tried: set<string>,
                       now: int)
  {
    k.id !in tried && InScope(scoped, k, model) && Ready(BucketOf(buckets, k.id, now), k, now)
  }

  /** The key may serve when no key is ready: only a broken key stays out. */
  predicate LastResort(buckets: map<string, Bucket>, k: UpstreamKey, scoped: bool, model: string, tried: set<string>,
                       now: int)
  {
    k.id !in tried && InScope(scoped, k, model) && HEALTH_SCORE_MIN <= BucketOf(buckets, k.id, now).healthScore
  }

  function Candidates(buckets: map<string, Bucket>, keys: seq<UpstreamKey>, scoped: bool, model: string,
                      tried: set<string>, now: int): (r: seq<UpstreamKey>)
    ensures forall k :: k in r <==> k in keys && Admissible(buckets, k, scoped, model, tried, now)
  {
    if keys == [] then []
    else
      var k := keys[|keys| - 1];
      Candidates(buckets, keys[..|keys| - 1], scoped, model, tried, now)
      + if Admissible(buckets, k, scoped, model, tried, now) then [k] else []
  }

  function Fallbacks(buckets: map<string, Bucket>, keys: seq<UpstreamKey>, scoped: bool, model: string,
                     tried: set<string>, now: int): (r: seq<UpstreamKey>)
    ensures forall k :: k in r <==> k in keys && LastResort(buckets, k, scoped, model, tried, now)
  {
    if keys == [] then []
    else
      var k := keys[|keys| - 1];
      Fallbacks(buckets, keys[..|keys| - 1], scoped, model, tried, now)
      + if LastResort(buckets, k, scoped, model, tried, now) then [k] else []
  }

  /** The first key of highest health, as a stable descending sort leaves it in front. */
  function Healthiest(buckets: map<string, Bucket>, ks: seq<UpstreamKey>, now: int): (r: UpstreamKey)
    requires ks != []
    ensures r in ks
    ensures forall k | k in ks ::
              BucketOf(buckets, k.id, now).healthScore <= BucketOf(buckets, r.id, now).healthScore
  {
    if |ks| == 1 then ks[0]
    else
      var best, last := Healthiest(buckets, ks[..|ks| - 1], now), ks[|ks| - 1];
      if BucketOf(buckets, last.id, now).healthScore > BucketOf(buckets, best.id, now).healthScore then last else best
  }

  lemma HealthiestExtends(buckets: map<string, Bucket>, ks: seq<UpstreamKey>, i: nat, now: int)
    requires 1 <= i < |ks|
    ensures var best := Healthiest(buckets, ks[..i], now);
            Healthiest(buckets, ks[..i + 1], now)
            == if BucketOf(buckets, ks[i].id, now).healthScore > BucketOf(buckets, best.id, now).healthScore then ks[i]
               else best
  {
    assert ks[..i + 1][..i] == ks[..i];
  }

  function PositionOf(ks: seq<UpstreamKey>, id: string): (r: Option<nat>)
    ensures r.Some? ==> r.value < |ks| && ks[r.value].id == id
    ensures r.None? ==> forall k | k in ks :: k.id != id
  {
    if ks == [] then None
    else if ks[0].id == id then Some(0)
    else
      var r := PositionOf(ks[1..], id);
      if r.None? then None else Some(r.value + 1)
  }

  /** Where the global index points among `len` candidates; `IndexIsRemainder` relates it to `%`. */
  function IndexInto(i: nat, len: nat): (r: nat)
    requires len > 0
    ensures r < len
  {
    if i < len then i else IndexInto(i - len, len)
  }

  lemma {:induction false} IndexIsRemainder(i: nat, len: nat)
    requires len > 0
    ensures IndexInto(i, len) == i % len
    decreases i
  {
    if i >= len {
      IndexIsRemainder(i - len, len);
      var q, r := (i - len) / len, (i - len) % len;
      assert i == (q + 1) * len + r;
      Remainder(i, q + 1, r, len);
    }
  }

  lemma Remainder(a: nat, q: nat, r: nat, n: nat)
    requires n > 0 && r < n && a == q * n + r
    ensures a % n == r
  {
    var q', r' := a / n, a % n;
    assert (q - q') * n == r' - r;
    Multiple(q - q', n);
  }

  lemma Multiple(d: int, n: nat)
    ensures d >= 1 ==> d * n >= n
    ensures d <= -1 ==> d * n <= 0 - n
  {
    if d >= 1 { assert d * n == n + (d - 1) * n; }
    if d <= -1 { assert d * n == (d + 1) * n - n; }
  }

  datatype Picked = Picked(key: UpstreamKey, count: nat, roundRobin: nat)

  /** Keep the serving key until its target is reached, then take the next of the global rotation. */
  function Pick(cands: seq<UpstreamKey>, sticky: Option<Serving>, roundRobin: nat): (p: Picked)
    requires cands != []
    ensures p.key in cands
  {
    var pos := if sticky.Some? then PositionOf(cands, sticky.value.id) else None;
    if pos.Some? && sticky.value.count < RotationTarget(cands[pos.value]) then
      Picked(cands[pos.value], sticky.value.count + 1, roundRobin)
    else
      var sorted := SortById(cands);
      var idx := IndexInto(roundRobin, |cands|);
      assert sorted[idx] in multiset(sorted);
      Picked(sorted[idx], 1, NextIndex(roundRobin))
  }

  /** The 64-bit counter wraps around. */
  function NextIndex(i: nat): nat { if i + 1 == U64 then 0 else i + 1 }

  lemma IndexWraps(i: nat)
    requires i < 0x1_0000_0000_0000_0000
    ensures NextIndex(i) == (i + 1) % 0x1_0000_0000_0000_0000
  {
  }

  function StickyOf(serving: map<string, Serving>, model: string): Option<Serving> {
    if model in serving then Some(serving[model]) else None
  }

  function Select(v: View, keys: seq<UpstreamKey>, model: string, tried: set<string>, now: int): (View, Choice) {
    if keys == [] then (v, Err(NoActiveKeys))
    else
      var scoped := HasScoped(keys, model);
      var cands := Candidates(v.buckets, keys, scoped, model, tried, now);
      if cands != [] then
        var p := Pick(cands, StickyOf(v.serving, model), v.roundRobin);
        (View(Touch(v.buckets, p.key.id, now), v.serving[model := Serving(p.key.id, p.count)], p.roundRobin), Ok(p.key))
      else
        var fallbacks := Fallbacks(v.buckets, keys, scoped, model, tried, now);
        if fallbacks == [] then (v, Err(AllExhausted))
        else
          var k := Healthiest(v.buckets, fallbacks, now);
          (View(Touch(v.buckets, k.id, now), v.serving[model := Serving(k.id, 1)], v.roundRobin), Ok(k))
  }

  // ---------------------------------------------------------------- responses and health

  function Clamp(x: real, lo: real, hi: real): real { if x < lo then lo else if x > hi then hi else x }

  function Rate(part: nat, total: nat): real { if total == 0 then 0.0 else part as real / total as real }

  function RtScore(rtSum: nat, rtCount: nat): real {
    var avg := if rtCount == 0 then 500.0 else rtSum as real / rtCount as real;
    Clamp(100.0 - (avg - 500.0) / 9500.0 * 100.0, 0.0, 100.0)
  }

  function HealthScore(b: Bucket): real {
    var successRate := if b.totalRequests == 0 then 1.0 else Rate(b.totalSuccess, b.totalRequests);
    Clamp(successRate * 100.0 * 0.40
          + RtScore(b.rtSum, b.rtCount) * 0.20
          + (100.0 - Rate(b.total429, b.totalRequests) * 100.0) * 0.20
          + (100.0 - Rate(b.total5xx, b.totalRequests) * 100.0) * 0.20, 0.0, 100.0)
  }

  function Doubled(base: nat, times: nat): nat { if times == 0 then base else 2 * Doubled(base, times - 1) }

  /** Seconds of cooldown after a failure, from the counters as the failure leaves them. */
  function CooldownSecs(status: nat, window429: nat, overloads: nat): nat {
    if status == 429 then (if window429 >= 10 then 600 else if window429 >= 3 then 120 else 30)
    else if status == 403 then MinNat(Doubled(60, MinNat(overloads + 1, 5) - 1), 600)
    else if 500 <= status <= 599 then 10
    else if status == 0 then 30
    else 60
  }

  function NextWarmup(w: real, success: bool): real {
    if w >= WARMUP_FULL then w
    else if success then
      (if w >= WARMUP_STEP2 then WARMUP_FULL else if w >= WARMUP_STEP1 then WARMUP_STEP2 else WARMUP_STEP1)
    else (if w <= WARMUP_STEP1 then WARMUP_TARGET else if w <= WARMUP_STEP2 then WARMUP_STEP1 else WARMUP_STEP2)
  }

  /** The counters after one response, before cooldown, health and warm-up. */
  function Counted(b: Bucket, now: int, success: bool, status: nat, latencyMs: nat): Bucket {
    var expired := now - b.windowStart > SLIDE_WINDOW;
    var is429, is5xx := !success && status == 429, !success && 500 <= status <= 599;
    b.(totalRequests := b.totalRequests + 1,
       totalSuccess := b.totalSuccess + (if success then 1 else 0),
       total429 := b.total429 + (if is429 then 1 else 0),
       total5xx := b.total5xx + (if is5xx then 1 else 0),
       totalConnErr := b.totalConnErr + (if !success && status == 0 then 1 else 0),
       window429 := (if expired then 0 else b.window429) + (if is429 then 1 else 0),
       window5xx := (if expired then 0 else b.window5xx) + (if is5xx then 1 else 0),
       windowReq := if expired then 0 else b.windowReq + 1,
       windowStart := if expired then now else b.windowStart,
       rtSum := (if expired then 0 else b.rtSum) + latencyMs,
       rtCount := (if expired then 0 else b.rtCount) + 1)
  }

  function Respond(b: Bucket, now: int, success: bool, status: nat, latencyMs: nat): Bucket {
    var c := Counted(b, now, success, status, latencyMs);
    c.(cooldownUntil := if success then b.cooldownUntil
                        else now + CooldownSecs(status, c.window429, c.total429 + c.total5xx) * SECOND,
       healthScore := HealthScore(c),
       warmup := NextWarmup(b.warmup, success))
  }

  function Recorded(v: View, id: string, success: bool, status: nat, latencyMs: nat, now: int): View {
    v.(buckets := v.buckets[id := Respond(BucketOf(v.buckets, id, now), now, success, status, latencyMs)],
       serving := if success then v.serving else Released(v.serving, id))
  }

  /** Forget every model's stickiness to the key. */
  function Released(serving: map<string, Serving>, id: string): map<string, Serving> {
    map m | m in serving && serving[m].id != id :: serving[m]
  }

  // ---------------------------------------------------------------- in-flight counters and sweep

  function Begun(buckets: map<string, Bucket>, id: string, now: int): map<string, Bucket> {
    var b := BucketOf(buckets, id, now);
    buckets[id := b.(inflight := b.inflight + 1)]
  }

  function Ended(buckets: map<string, Bucket>, id: string): map<string, Bucket> {
    if id in buckets && buckets[id].inflight > 0 then buckets[id := buckets[id].(inflight := buckets[id].inflight - 1)]
    else buckets
  }

  predicate Stale(b: Bucket, now: int) { now - b.lastUsedAt > STALE_AFTER }

  function Swept(buckets: map<string, Bucket>, now: int): map<string, Bucket> {
    map id | id in buckets && !Stale(buckets[id], now) :: buckets[id]
  }

  // ---------------------------------------------------------------- the object

  class SurgeScheduler {
    var buckets: map<string, Bucket>
    var serving: map<string, Serving>
    var roundRobinIndex: nat

    ghost function Value(): View reads this { View(buckets, serving, roundRobinIndex) }

    constructor ()
      ensures Value() == View(map[], map[], 0)
    {
      buckets, serving, roundRobinIndex := map[], map[], 0;
    }

    /** `keys` are the active keys as loaded for this call. */
    method SelectKey(keys: seq<UpstreamKey>, model: string, tried: set<string>, now: int) returns (r: Choice)
      modifies this
      ensures (Value(), r) == Select(old(Value()), keys, model, tried, now)
    {
      if keys == [] {
        return Err(NoActiveKeys);
      }
      var scoped := HasScoped(keys, model);
      var cands := Collect(keys, scoped, model, tried, now);
      if cands == [] {
        r := SelectFallback(keys, scoped, model, tried, now);
        return;
      }
      r := Rotate(cands, model, now);
    }

    method Collect(keys: seq<UpstreamKey>, scoped: bool, model: string, tried: set<string>, now: int)
      returns (cands: seq<UpstreamKey>)
      ensures cands == Candidates(buckets, keys, scoped, model, tried, now)
    {
      cands := [];
      for i := 0 to |keys|
        invariant cands == Candidates(buckets, keys[..i], scoped, model, tried, now)
      {
        assert keys[..i + 1][..i] == keys[..i];
        var ok := Passes(keys[i], scoped, model, tried, now);
        if ok {
          cands := cands + [keys[i]];
        }
      }
      assert keys[..|keys|] == keys;
    }

    /** One filter after the other: tried, scope, cooldown, health, concurrency, rate. */
    method Passes(k: UpstreamKey, scoped: bool, model: string, tried: set<string>, now: int) returns (ok: bool)
      ensures ok == Admissible(buckets, k, scoped, model, tried, now)
    {
      if k.id in tried { return false; }
      if scoped {
        if k.modelScope == "" || (k.modelScope != model && !Contains(k.modelScope, model)) { return false; }
      } else if k.modelScope != "" && k.modelScope != model && !Contains(k.modelScope, model) {
        return false;
      }
      var b := BucketOf(buckets, k.id, now);
      if b.cooldownUntil > now { return false; }
      if b.healthScore < HEALTH_SCORE_MIN { return false; }
      if b.inflight >= PER_KEY_CONCURRENCY_CAP { return false; }
      if k.rpmLimit > 0 && b.windowReq >= k.rpmLimit { return false; }
      return true;
    }

    method Rotate(cands: seq<UpstreamKey>, model: string, now: int) returns (r: Choice)
      requires cands != []
      modifies this
      ensures var p := Pick(cands, StickyOf(old(serving), model), old(roundRobinIndex));
              && r == Ok(p.key)
              && Value() == View(Touch(old(buckets), p.key.id, now),
                                 old(serving)[model := Serving(p.key.id, p.count)], p.roundRobin)
    {
      if model in serving {
        var s := serving[model];
        var pos := PositionOf(cands, s.id);
        if pos.Some? {
          var key := cands[pos.value];
          if s.count < RotationTarget(key) {
            serving := serving[model := Serving(s.id, s.count + 1)];
            buckets := Touch(buckets, s.id, now);
            return Ok(key);
          }
        }
      }
      var sorted := SortById(cands);
      IndexIsRemainder(roundRobinIndex, |cands|);
      var idx := roundRobinIndex % |cands|;
      roundRobinIndex := NextIndex(roundRobinIndex);
      var chosen := sorted[idx];
      serving := serving[model := Serving(chosen.id, 1)];
      buckets := Touch(buckets, chosen.id, now);
      r := Ok(chosen);
    }

    /** No key is ready: availability first, the healthiest untried key in scope serves anyway. */
    method SelectFallback(keys: seq<UpstreamKey>, scoped: bool, model: string, tried: set<string>, now: int)
      returns (r: Choice)
      modifies this
      ensures var fallbacks := Fallbacks(old(buckets), keys, scoped, model, tried, now);
              if fallbacks == [] then r == Err(AllExhausted) && Value() == old(Value())
              else var k := Healthiest(old(buckets), fallbacks, now);
                   && r == Ok(k)
                   && Value() == View(Touch(old(buckets), k.id, now),
                                      old(serving)[model := Serving(k.id, 1)], old(roundRobinIndex))
    {
      var fallbacks := Fallbacks(buckets, keys, scoped, model, tried, now);
      if fallbacks == [] {
        return Err(AllExhausted);
      }
      var chosen := Best(fallbacks, now);
      serving := serving[model := Serving(chosen.id, 1)];
      buckets := Touch(buckets, chosen.id, now);
      r := Ok(chosen);
    }

    /** The front of a stable sort by descending health. */
    method Best(ks: seq<UpstreamKey>, now: int) returns (chosen: UpstreamKey)
      requires ks != []
      ensures chosen == Healthiest(buckets, ks, now)
    {
      chosen := ks[0];
      for i := 1 to |ks|
        invariant chosen == Healthiest(buckets, ks[..i], now)
      {
        HealthiestExtends(buckets, ks, i, now);
        if BucketOf(buckets, ks[i].id, now).healthScore > BucketOf(buckets, chosen.id, now).healthScore {
          chosen := ks[i];
        }
      }
      assert ks[..|ks|] == ks;
    }

    method RecordResponse(id: string, success: bool, status: nat, latencyMs: nat, now: int)
      modifies this
      ensures Value() == Recorded(old(Value()), id, success, status, latencyMs, now)
    {
      var b := BucketOf(buckets, id, now);
      b := Count(b, success, status, latencyMs, now);
      if !success {
        serving := map m | m in serving && serving[m].id != id :: serving[m];
        b := b.(cooldownUntil := now + CooldownSecs(status, b.window429, b.total429 + b.total5xx) * SECOND);
      }
      b := b.(healthScore := HealthScore(b));
      b := b.(warmup := NextWarmup(b.warmup, success));
      buckets := buckets[id := b];
    }

    /** The counters; an expired window is emptied before the response is added to it. */
    static method Count(bucket: Bucket, success: bool, status: nat, latencyMs: nat, now: int) returns (b: Bucket)
      ensures b == Counted(bucket, now, success, status, latencyMs)
    {
      b := bucket.(totalRequests := bucket.totalRequests + 1, windowReq := bucket.windowReq + 1);
      if now - b.windowStart > SLIDE_WINDOW {
        b := b.(window429 := 0, window5xx := 0, windowReq := 0, rtSum := 0, rtCount := 0, windowStart := now);
      }
      b := b.(rtSum := b.rtSum + latencyMs, rtCount := b.rtCount + 1);
      if success {
        b := b.(totalSuccess := b.totalSuccess + 1);
      } else if status == 429 {
        b := b.(total429 := b.total429 + 1, window429 := b.window429 + 1);
      } else if 500 <= status <= 599 {
        b := b.(total5xx := b.total5xx + 1, window5xx := b.window5xx + 1);
      } else if status == 0 {
        b := b.(totalConnErr := b.totalConnErr + 1);
      }
    }

    method BeginRequest(id: string, now: int)
      modifies this`buckets
      ensures buckets == Begun(old(buckets), id, now)
    {
      var b := BucketOf(buckets, id, now);
      buckets := buckets[id := b.(inflight := b.inflight + 1)];
    }

    method EndRequest(id: string)
      modifies this`buckets
      ensures buckets == Ended(old(buckets), id)
    {
      if id in buckets {
        var b := buckets[id];
        if b.inflight > 0 {
          buckets := buckets[id := b.(inflight := b.inflight - 1)];
        }
      }
    }

    /** The periodic sweep: first the stale names are collected, then their buckets are removed. */
    method RunBackgroundTasks(now: int)
      modifies this`buckets
      ensures buckets == Swept(old(buckets), now)
    {
      var stale := set id | id in buckets && Stale(buckets[id], now);
      while stale != {}
        invariant forall id :: id in buckets <==> id in old(buckets) && (id in stale || !Stale(old(buckets)[id], now))
        invariant forall id | id in buckets :: buckets[id] == old(buckets)[id]
        invariant forall id | id in stale :: id in old(buckets) && Stale(old(buckets)[id], now)
        decreases stale
      {
        var id :| id in stale;
        buckets := buckets - {id};
        stale := stale - {id};
      }
    }
  }
}
