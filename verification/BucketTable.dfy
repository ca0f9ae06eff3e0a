/** The limiter's table of buckets. Idle buckets are dropped; the question is who can tell. */
module BucketTable {
  import opened Basics
  import opened RateLimit

  /** An entry is created on first use; after that its own capacity and refill count. */
  function Checked(t: map<string, Bucket>, key: string, plan: Plan, now: real): (map<string, Bucket>, Answer) {
    var (b, r) := Take(if key in t then t[key] else NewBucket(plan, now), now);
    (t[key := b], r)
  }

  predicate Idle(b: Bucket, now: real) { Since(now, b.lastUsed) >= EVICT_AFTER }

  function Kept(t: map<string, Bucket>, now: real): map<string, Bucket> {
    map key | key in t && !Idle(t[key], now) :: t[key]
  }

  class AcuRateLimiter {
    var userBuckets: map<string, TokenBucket>
    const global: TokenBucket
    const user: Plan
    const super: Plan

    /** Every entry has a bucket of its own. */
    ghost predicate Valid() reads this {
      && (forall k, k' | k in userBuckets && k' in userBuckets && k != k' :: userBuckets[k] != userBuckets[k'])
      && (forall k | k in userBuckets :: userBuckets[k] != global)
    }

    ghost function Table(): map<string, Bucket>
      reads this, userBuckets.Values
    {
      map k | k in userBuckets :: userBuckets[k].Value()
    }

    /** Rates are per minute, as configured. */
    constructor (userRate: real, userBurst: real, globalRate: real, superRate: real, now: real)
      ensures Valid() && fresh(global) && Table() == map[]
      ensures global.Value() == NewBucket(Plan(MaxReal(globalRate, 1.0), globalRate / 60.0), now)
      ensures user == Plan(MaxReal(userBurst, 1.0), userRate / 60.0)
      ensures super == Plan(MaxReal(superRate, 1.0), superRate / 60.0)
    {
      global := new TokenBucket(MaxReal(globalRate, 1.0), globalRate / 60.0, now);
      user := Plan(MaxReal(userBurst, 1.0), userRate / 60.0);
      super := Plan(MaxReal(superRate, 1.0), superRate / 60.0);
      userBuckets := map[];
    }

    method CheckGlobal(now: real) returns (r: Answer)
      requires Valid()
      modifies global
      ensures Valid() && Table() == old(Table())
      ensures (global.Value(), r) == Take(old(global.Value()), now)
    {
      r := global.TryTake(now);
    }

    method Check(key: string, plan: Plan, now: real) returns (r: Answer)
      requires Valid()
      modifies this`userBuckets, userBuckets.Values
      ensures Valid() && fresh(userBuckets.Values - old(userBuckets.Values))
      ensures (Table(), r) == Checked(old(Table()), key, plan, now)
    {
      if key !in userBuckets {
        var b := new TokenBucket(plan.capacity, plan.refill, now);
        userBuckets := userBuckets[key := b];
      }
      assert userBuckets[key] in userBuckets.Values;
      ghost var before := userBuckets[key].Value();
      r := userBuckets[key].TryTake(now);
      assert forall k | k in userBuckets && k != key :: userBuckets[k].Value() == old(userBuckets[k].Value());
      assert Table() == old(Table())[key := Take(before, now).0];
    }

    method CheckUser(key: string, now: real) returns (r: Answer)
      requires Valid()
      modifies this`userBuckets, userBuckets.Values
      ensures Valid() && fresh(userBuckets.Values - old(userBuckets.Values))
      ensures (Table(), r) == Checked(old(Table()), key, user, now)
    {
      r := Check(key, user, now);
    }

    method CheckSuperUser(key: string, now: real) returns (r: Answer)
      requires Valid()
      modifies this`userBuckets, userBuckets.Values
      ensures Valid() && fresh(userBuckets.Values - old(userBuckets.Values))
      ensures (Table(), r) == Checked(old(Table()), key, super, now)
    {
      r := Check(key, super, now);
    }

    method CheckScript(key: string, now: real) returns (r: Answer)
      requires Valid()
      modifies this`userBuckets, userBuckets.Values
      ensures Valid() && fresh(userBuckets.Values - old(userBuckets.Values))
      ensures (Table(), r) == Checked(old(Table()), key, Plan(1.0, 1.0 / 60.0), now)
    {
      r := Check(key, Plan(1.0, 1.0 / 60.0), now);
    }

    method EvictIdle(now: real)
      requires Valid()
      modifies this`userBuckets
      ensures Valid() && userBuckets.Values <= old(userBuckets.Values)
      ensures Table() == Kept(old(Table()), now)
    {
      userBuckets := map k | k in userBuckets && !(Since(now, userBuckets[k].lastUsed) >= EVICT_AFTER) ::
        userBuckets[k];
    }
  }
}
