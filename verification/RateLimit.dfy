/** Token buckets with continuous refill, and the table of per-client buckets with idle eviction.

Times are real seconds and token counts real numbers; rounding is not part of this model.
*/
module RateLimit {
  import opened Basics

  const EVICT_AFTER: real := 600.0

  function MinReal(x: real, y: real): real { if x <= y then x else y }
  function MaxReal(x: real, y: real): real { if x >= y then x else y }

  /** Elapsed time saturates at zero. */
  function Since(now: real, then_: real): real { MaxReal(now - then_, 0.0) }

  type Positive = x: real | x > 0.0 witness 1.0

  datatype Bucket = Bucket(capacity: real, refill: Positive, tokens: real, lastRefill: real, lastUsed: real)

  /** What a client may do: a burst capacity and tokens per second. */
  datatype Plan = Plan(capacity: real, refill: real)

  /** `Ok`, or the seconds to wait. */
  type Answer = Result<(), real>

  /** Capacity is at least one token and the refill positive, whatever the configuration says. */
  function Effective(p: Plan): Plan { Plan(MaxReal(p.capacity, 1.0), MaxReal(p.refill, 0.000001)) }

  function NewBucket(p: Plan, now: real): Bucket {
    var e := Effective(p);
    Bucket(e.capacity, e.refill, e.capacity, now, now)
  }

  function Level(b: Bucket, now: real): real { MinReal(b.tokens + Since(now, b.lastRefill) * b.refill, b.capacity) }

  function Take(b: Bucket, now: real): (Bucket, Answer) {
    var level := Level(b, now);
    var used := b.(lastRefill := now, lastUsed := now);
    if level >= 1.0 then (used.(tokens := level - 1.0), Ok(()))
    else (used.(tokens := level), Err(MaxReal((1.0 - level) / b.refill, 0.0)))
  }

  ghost predicate Sound(b: Bucket) {
    1.0 <= b.capacity && 0.0 <= b.tokens <= b.capacity && b.lastUsed == b.lastRefill
  }

  class TokenBucket {
    const capacity: real
    const refillPerSec: Positive
    var tokens: real
    var lastRefill: real
    var lastUsed: real

    ghost function Value(): Bucket reads this { Bucket(capacity, refillPerSec, tokens, lastRefill, lastUsed) }

    constructor (capacity: real, refillPerSec: real, now: real)
      ensures Value() == NewBucket(Plan(capacity, refillPerSec), now)
    {
      this.capacity := MaxReal(capacity, 1.0);
      this.refillPerSec := MaxReal(refillPerSec, 0.000001);
      tokens := MaxReal(capacity, 1.0);
      lastRefill := now;
      lastUsed := now;
    }

    method TryTake(now: real) returns (r: Answer)
      modifies this
      ensures (Value(), r) == Take(old(Value()), now)
    {
      var elapsed := Since(now, lastRefill);
      tokens := MinReal(tokens + elapsed * refillPerSec, capacity);
      lastRefill := now;
      lastUsed := now;
      if tokens >= 1.0 {
        tokens := tokens - 1.0;
        r := Ok(());
      } else {
        var wait := (1.0 - tokens) / refillPerSec;
        r := Err(MaxReal(wait, 0.0));
      }
    }
  }

  // ---------------------------------------------------------------- one bucket over time

  /** Calls at the given times: `buckets[i]` before call `i`, starting from a full bucket. */
  ghost predicate IsHistory(buckets: seq<Bucket>, times: seq<real>) {
    && |buckets| == |times| + 1
    && Sound(buckets[0]) && buckets[0].tokens == buckets[0].capacity
    && (forall i | 0 <= i < |times| :: buckets[i + 1] == Take(buckets[i], times[i]).0)
    && (forall i, j | 0 <= i <= j < |times| :: times[i] <= times[j])
    && (times != [] ==> buckets[0].lastRefill <= times[0])
  }

  ghost predicate Granted(buckets: seq<Bucket>, times: seq<real>, i: nat)
    requires i < |times| && i < |buckets|
  {
    Level(buckets[i], times[i]) >= 1.0
  }

  /** How many of the calls from `lo` to before `hi` were granted. */
  ghost function Grants(buckets: seq<Bucket>, times: seq<real>, lo: nat, hi: nat): nat
    requires lo <= hi <= |times| && |times| < |buckets|
    decreases hi
  {
    if lo == hi then 0 else Grants(buckets, times, lo, hi - 1) + if Granted(buckets, times, hi - 1) then 1 else 0
  }

  lemma {:induction false} HistoryIsSound(buckets: seq<Bucket>, times: seq<real>, i: nat)
    requires IsHistory(buckets, times) && i < |buckets|
    ensures Sound(buckets[i])
    ensures buckets[i].capacity == buckets[0].capacity && buckets[i].refill == buckets[0].refill
    ensures i > 0 ==> buckets[i].lastRefill == times[i - 1]
    ensures i < |times| ==> buckets[i].lastRefill <= times[i]
  {
    if i > 0 {
      HistoryIsSound(buckets, times, i - 1);
      assert buckets[i - 1 + 1] == Take(buckets[i - 1], times[i - 1]).0;
      Product(Since(times[i - 1], buckets[i - 1].lastRefill), buckets[0].refill);
    }
  }

  lemma Product(x: real, y: real)
    requires x >= 0.0 && y >= 0.0
    ensures x * y >= 0.0
  {
  }

  lemma Distribute(r: real, a: real, b: real, c: real)
    ensures (c - b) * r + (b - a) * r == (c - a) * r
  {
  }

  /** What the plan allows between two calls. */
  ghost function Budget(buckets: seq<Bucket>, times: seq<real>, i: nat, k: nat): real
    requires i < |times| && k < |times| && |times| < |buckets|
  {
    buckets[0].capacity + (times[k] - times[i]) * buckets[0].refill
  }

  /** What the calls `i`, ..., `k - 1` leave of the allowance of the interval up to call `k`. */
  ghost function Allowance(buckets: seq<Bucket>, times: seq<real>, i: nat, k: nat): real
    requires i <= k < |times| && |times| < |buckets|
  {
    Budget(buckets, times, i, k) - Grants(buckets, times, i, k) as real
  }

  ghost function Spent(buckets: seq<Bucket>, times: seq<real>, k: nat): real
    requires k < |times| && k < |buckets|
  {
    if Granted(buckets, times, k) then 1.0 else 0.0
  }

  lemma TokensLeft(buckets: seq<Bucket>, times: seq<real>, k: nat)
    requires IsHistory(buckets, times) && k < |times|
    ensures buckets[k + 1].tokens == Level(buckets[k], times[k]) - Spent(buckets, times, k)
  {
    assert buckets[k + 1] == Take(buckets[k], times[k]).0;
  }

  /** From one call to the next, the level loses what was spent and gains what was refilled. */
  lemma LevelStep(buckets: seq<Bucket>, times: seq<real>, k: nat) returns (gain: real)
    requires IsHistory(buckets, times) && 0 < k < |times|
    ensures gain == (times[k] - times[k - 1]) * buckets[0].refill
    ensures Level(buckets[k], times[k])
            == MinReal(Level(buckets[k - 1], times[k - 1]) - Spent(buckets, times, k - 1) + gain, buckets[0].capacity)
  {
    HistoryIsSound(buckets, times, k);
    TokensLeft(buckets, times, k - 1);
    assert times[k - 1] <= times[k];
    gain := (times[k] - times[k - 1]) * buckets[0].refill;
    LevelAfter(buckets[k], times[k - 1], times[k], buckets[0].refill, gain);
  }

  lemma LevelAfter(b: Bucket, then_: real, now: real, refill: real, gain: real)
    requires b.lastRefill == then_ <= now && b.refill == refill && gain == (now - then_) * refill
    ensures Level(b, now) == MinReal(b.tokens + gain, b.capacity)
  {
  }

  /** And so does every allowance. */
  lemma AllowanceStep(buckets: seq<Bucket>, times: seq<real>, i: nat, k: nat, gain: real)
    requires i < k < |times| < |buckets| && gain == (times[k] - times[k - 1]) * buckets[0].refill
    ensures Allowance(buckets, times, i, k) == Allowance(buckets, times, i, k - 1) - Spent(buckets, times, k - 1) + gain
  {
    Distribute(buckets[0].refill, times[i], times[k - 1], times[k]);
  }

  lemma FullAllowance(buckets: seq<Bucket>, times: seq<real>, k: nat)
    requires k < |times| < |buckets|
    ensures Allowance(buckets, times, k, k) == buckets[0].capacity
  {
    assert (times[k] - times[k]) * buckets[0].refill == 0.0;
  }

  /** The level at a call is the smallest allowance over all intervals that end with it. */
  lemma {:induction false} LevelIsLeastAllowance(buckets: seq<Bucket>, times: seq<real>, k: nat) returns (tightest: nat)
    requires IsHistory(buckets, times) && k < |times|
    ensures forall i | 0 <= i <= k :: Level(buckets[k], times[k]) <= Allowance(buckets, times, i, k)
    ensures tightest <= k && Level(buckets[k], times[k]) == Allowance(buckets, times, tightest, k)
  {
    FullAllowance(buckets, times, k);
    if k == 0 {
      Product(Since(times[0], buckets[0].lastRefill), buckets[0].refill);
      return 0;
    }
    var t := LevelIsLeastAllowance(buckets, times, k - 1);
    var gain := LevelStep(buckets, times, k);
    forall i | 0 <= i < k
      ensures Allowance(buckets, times, i, k)
              == Allowance(buckets, times, i, k - 1) - Spent(buckets, times, k - 1) + gain
    {
      AllowanceStep(buckets, times, i, k, gain);
    }
    tightest := if Level(buckets[k], times[k]) == buckets[0].capacity then k else t;
  }

  /** The bucket is exact: a call is granted if and only if granting it keeps every interval that
      ends now within capacity + refill * length. */
  lemma GrantedIff(buckets: seq<Bucket>, times: seq<real>, k: nat)
    requires IsHistory(buckets, times) && k < |times|
    ensures Granted(buckets, times, k)
            <==> forall i | 0 <= i <= k :: (Grants(buckets, times, i, k) + 1) as real <= Budget(buckets, times, i, k)
  {
    var t := LevelIsLeastAllowance(buckets, times, k);
    forall i | 0 <= i <= k
      ensures Allowance(buckets, times, i, k) >= 1.0
              <==> (Grants(buckets, times, i, k) + 1) as real <= Budget(buckets, times, i, k)
    {
    }
    assert Allowance(buckets, times, t, k) >= 1.0
           <==> (Grants(buckets, times, t, k) + 1) as real <= Budget(buckets, times, t, k);
  }

  /** The rate bound: any stretch of calls is granted at most capacity + refill * its length. */
  lemma {:induction false} RateBound(buckets: seq<Bucket>, times: seq<real>, lo: nat, hi: nat)
    requires IsHistory(buckets, times) && lo < hi <= |times|
    ensures Grants(buckets, times, lo, hi) as real <= Budget(buckets, times, lo, hi - 1)
    decreases hi
  {
    if Granted(buckets, times, hi - 1) {
      GrantedIff(buckets, times, hi - 1);
      assert (Grants(buckets, times, lo, hi - 1) + 1) as real <= Budget(buckets, times, lo, hi - 1);
    } else if lo < hi - 1 {
      RateBound(buckets, times, lo, hi - 1);
      BudgetGrows(buckets, times, lo, hi - 2);
    } else {
      FullAllowance(buckets, times, lo);
    }
  }

  lemma BudgetGrows(buckets: seq<Bucket>, times: seq<real>, i: nat, k: nat)
    requires IsHistory(buckets, times) && i <= k && k + 1 < |times|
    ensures Budget(buckets, times, i, k) <= Budget(buckets, times, i, k + 1)
  {
    assert times[i] <= times[k] <= times[k + 1];
    Longer(buckets[0].refill, times[i], times[k], times[k + 1]);
  }

  lemma Longer(r: real, a: real, b: real, c: real)
    requires r >= 0.0 && a <= b <= c
    ensures 0.0 <= (b - a) * r <= (c - a) * r
  {
    Product(b - a, r);
    Product(c - b, r);
    Distribute(r, a, b, c);
  }

  /** The wait is honest: after a refusal, the next call succeeds if it comes the stated wait
      later, and fails if it comes any earlier. */
  lemma WaitIsExact(b: Bucket, now: real, later: real)
    requires Sound(b) && b.lastRefill <= now <= later && Take(b, now).1.Err?
    ensures var (b', r) := Take(b, now);
            r.error > 0.0 && (Take(b', later).1.Ok? <==> later >= now + r.error)
  {
    var (b', r) := Take(b, now);
    Product(Since(now, b.lastRefill), b.refill);
    Crossing(b'.tokens, b.refill, later - now);
  }

  lemma Crossing(tokens: real, refill: real, d: real)
    requires 0.0 <= tokens < 1.0 && refill > 0.0 && d >= 0.0
    ensures (1.0 - tokens) / refill > 0.0
    ensures tokens + d * refill >= 1.0 <==> d >= (1.0 - tokens) / refill
  {
    var w := (1.0 - tokens) / refill;
    Quotient(1.0 - tokens, refill, w);
    SameOrder(d, w, refill);
  }

  lemma Quotient(a: real, r: real, q: real)
    requires a > 0.0 && r > 0.0 && q == a / r
    ensures q * r == a && q > 0.0
  {
  }

  lemma SameOrder(x: real, y: real, r: real)
    requires r > 0.0
    ensures x >= y <==> x * r >= y * r
  {
    Difference(x, y, r);
    if x >= y { Product(x - y, r); } else { StrictProduct(y - x, r); Difference(y, x, r); }
  }

  lemma Difference(x: real, y: real, r: real)
    ensures (x - y) * r == x * r - y * r
  {
  }

  lemma StrictProduct(x: real, y: real)
    requires x > 0.0 && y > 0.0
    ensures x * y > 0.0
  {
  }
}
