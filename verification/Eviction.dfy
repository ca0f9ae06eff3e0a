/** Dropping idle buckets cannot be noticed exactly when an idle bucket has had time to fill up. */
module Eviction {
  import opened Basics
  import opened RateLimit
  import opened BucketTable

  datatype Event = Check(key: string, plan: Plan, at: real) | EvictIdle(at: real)

  /** The table after the events; `evicting` is false for a table that never drops anything. */
  function After(evicting: bool, events: seq<Event>): map<string, Bucket> {
    if events == [] then map[]
    else
      var t, e := After(evicting, events[..|events| - 1]), events[|events| - 1];
      match e
      case Check(key, plan, at) => Checked(t, key, plan, at).0
      case EvictIdle(at) => if evicting then Kept(t, at) else t
  }

  /** What the client of the last event is told. */
  function LastAnswer(evicting: bool, events: seq<Event>): Option<Answer> {
    if events == [] || events[|events| - 1].EvictIdle? then None
    else
      var e := events[|events| - 1];
      Some(Checked(After(evicting, events[..|events| - 1]), e.key, e.plan, e.at).1)
  }

  ghost predicate InOrder(events: seq<Event>) {
    forall i, j | 0 <= i <= j < |events| :: events[i].at <= events[j].at
  }

  ghost predicate OnePlanPerKey(events: seq<Event>) {
    forall i, j | 0 <= i < |events| && 0 <= j < |events| && events[i].Check? && events[j].Check?
      && events[i].key == events[j].key ::
      events[i].plan == events[j].plan
  }

  /** A bucket of the plan that has been idle for the limit is full. */
  predicate Ample(p: Plan) { 600.0 * Effective(p).refill >= Effective(p).capacity }

  ghost predicate AllAmple(events: seq<Event>) {
    forall i | 0 <= i < |events| && events[i].Check? :: Ample(events[i].plan)
  }

  // ---------------------------------------------------------------- ample plans: invisible

  /** The bucket belongs to the plan its key is checked under. */
  ghost predicate Planned(b: Bucket, key: string, events: seq<Event>) {
    exists i | 0 <= i < |events| :: events[i].Check? && events[i].key == key
      && b.capacity == Effective(events[i].plan).capacity && b.refill == Effective(events[i].plan).refill
  }

  /** The evicting table is the other one without some buckets that have been idle long enough. */
  ghost predicate Agree(small: map<string, Bucket>, full: map<string, Bucket>, events: seq<Event>, now: real) {
    && (forall k | k in small :: k in full && small[k] == full[k])
    && (forall k | k in full && k !in small :: Idle(full[k], now))
    && (forall k | k in full :: Sound(full[k]) && full[k].lastUsed <= now && Planned(full[k], k, events))
  }

  /** A long idle bucket of an ample plan answers like a new one, and is the same afterwards. */
  lemma IdleIsNew(b: Bucket, p: Plan, now: real)
    requires Sound(b) && Idle(b, now) && Ample(p)
    requires b.capacity == Effective(p).capacity && b.refill == Effective(p).refill
    ensures Take(b, now) == Take(NewBucket(p, now), now)
  {
    FillsUp(Since(now, b.lastRefill), b.refill, b.capacity);
    LevelNow(NewBucket(p, now), now);
  }

  lemma FillsUp(d: real, refill: real, capacity: real)
    requires d >= EVICT_AFTER && refill > 0.0 && EVICT_AFTER * refill >= capacity
    ensures d * refill >= capacity
  {
    Product(d - EVICT_AFTER, refill);
    Distribute(refill, 0.0, EVICT_AFTER, d);
  }

  lemma LevelNow(b: Bucket, now: real)
    requires b.lastRefill == now && b.tokens <= b.capacity
    ensures Level(b, now) == b.tokens
  {
    assert Since(now, now) * b.refill == 0.0;
  }

  lemma TakeSound(b: Bucket, now: real)
    requires Sound(b)
    ensures Sound(Take(b, now).0)
  {
    Product(Since(now, b.lastRefill), b.refill);
  }

  /** An existing entry was made for the plan of this check. */
  lemma SamePlan(full: map<string, Bucket>, events: seq<Event>, e: Event, now: real)
    requires e.Check? && e.key in full && Planned(full[e.key], e.key, events) && OnePlanPerKey(events + [e])
    ensures full[e.key].capacity == Effective(e.plan).capacity && full[e.key].refill == Effective(e.plan).refill
  {
    var b, all := full[e.key], events + [e];
    var i :| 0 <= i < |events| && events[i].Check? && events[i].key == e.key
      && b.capacity == Effective(events[i].plan).capacity && b.refill == Effective(events[i].plan).refill;
    assert all[i] == events[i] && all[|events|] == e;
  }

  lemma CheckAgrees(small: map<string, Bucket>, full: map<string, Bucket>, events: seq<Event>, e: Event, now: real)
    requires e.Check? && Agree(small, full, events, now) && now <= e.at
    requires OnePlanPerKey(events + [e]) && Ample(e.plan)
    ensures Checked(small, e.key, e.plan, e.at).1 == Checked(full, e.key, e.plan, e.at).1
    ensures Agree(Checked(small, e.key, e.plan, e.at).0, Checked(full, e.key, e.plan, e.at).0, events + [e], e.at)
  {
    var b := if e.key in full then full[e.key] else NewBucket(e.plan, e.at);
    var taken := Take(b, e.at);
    if e.key in full {
      SamePlan(full, events, e, now);
      if e.key !in small { IdleIsNew(b, e.plan, e.at); }
    }
    TakeSound(b, e.at);
    assert Checked(small, e.key, e.plan, e.at) == (small[e.key := taken.0], taken.1);
    assert Checked(full, e.key, e.plan, e.at) == (full[e.key := taken.0], taken.1);
    StillAgree(small, full, events, e, now, taken.0);
  }

  lemma StillAgree(small: map<string, Bucket>, full: map<string, Bucket>, events: seq<Event>, e: Event, now: real,
                   b: Bucket)
    requires e.Check? && Agree(small, full, events, now) && now <= e.at
    requires Sound(b) && b.lastUsed == e.at && b.capacity == Effective(e.plan).capacity
             && b.refill == Effective(e.plan).refill
    ensures Agree(small[e.key := b], full[e.key := b], events + [e], e.at)
  {
    var full' := full[e.key := b];
    forall k | k in full' ensures Planned(full'[k], k, events + [e]) {
      if k == e.key {
        assert (events + [e])[|events|] == e;
      } else {
        PlannedKept(full[k], k, events, e);
      }
    }
  }

  lemma PlannedKept(b: Bucket, key: string, events: seq<Event>, e: Event)
    requires Planned(b, key, events)
    ensures Planned(b, key, events + [e])
  {
    var i :| 0 <= i < |events| && events[i].Check? && events[i].key == key
      && b.capacity == Effective(events[i].plan).capacity && b.refill == Effective(events[i].plan).refill;
    assert (events + [e])[i] == events[i];
  }

  lemma EvictAgrees(small: map<string, Bucket>, full: map<string, Bucket>, events: seq<Event>, e: Event, now: real)
    requires e.EvictIdle? && Agree(small, full, events, now) && now <= e.at
    ensures Agree(Kept(small, e.at), full, events + [e], e.at)
  {
    forall k | k in full ensures Planned(full[k], k, events + [e]) { PlannedKept(full[k], k, events, e); }
  }

  lemma FrontFits(front: seq<Event>, e: Event, events: seq<Event>, now: real)
    requires events == front + [e] && InOrder(events) && OnePlanPerKey(events) && AllAmple(events)
    requires now == if front == [] then e.at else front[|front| - 1].at
    ensures InOrder(front) && OnePlanPerKey(front) && AllAmple(front) && now <= e.at
    ensures e.Check? ==> Ample(e.plan)
  {
    assert forall i | 0 <= i < |front| :: front[i] == events[i];
    assert events[|front|] == e;
  }

  lemma {:induction false} TablesAgree(events: seq<Event>)
    requires InOrder(events) && OnePlanPerKey(events) && AllAmple(events)
    ensures events != [] ==> Agree(After(true, events), After(false, events), events, events[|events| - 1].at)
    ensures LastAnswer(true, events) == LastAnswer(false, events)
  {
    if events != [] {
      var front, e := events[..|events| - 1], events[|events| - 1];
      assert events == front + [e];
      var now := if front == [] then e.at else front[|front| - 1].at;
      FrontFits(front, e, events, now);
      TablesAgree(front);
      assert Agree(After(true, front), After(false, front), front, now);
      if e.Check? {
        CheckAgrees(After(true, front), After(false, front), front, e, now);
      } else {
        EvictAgrees(After(true, front), After(false, front), front, e, now);
      }
    }
  }

  // ---------------------------------------------------------------- scarce plans: visible

  ghost predicate OnlyClient(events: seq<Event>, key: string, p: Plan) {
    forall i | 0 <= i < |events| && events[i].Check? :: events[i].key == key && events[i].plan == p
  }

  function Burst(key: string, p: Plan, at: real, n: nat): seq<Event> {
    if n == 0 then [] else Burst(key, p, at, n - 1) + [Check(key, p, at)]
  }

  /** At `at` the client's bucket, or the new one it would get, holds `x` tokens. */
  ghost predicate Holds(evicting: bool, events: seq<Event>, key: string, p: Plan, at: real, x: real) {
    var t := After(evicting, events);
    Level(if key in t then t[key] else NewBucket(p, at), at) == x && OfPlan(t, key, p)
  }

  /** The client's bucket was last used at `at` and was left with `x` tokens. */
  ghost predicate Left(evicting: bool, events: seq<Event>, key: string, p: Plan, at: real, x: real) {
    var t := After(evicting, events);
    key in t && t[key].tokens == x && t[key].lastRefill == at && t[key].lastUsed == at && OfPlan(t, key, p)
  }

  ghost predicate OfPlan(t: map<string, Bucket>, key: string, p: Plan) {
    key in t ==> t[key].capacity == Effective(p).capacity && t[key].refill == Effective(p).refill
  }

  lemma NewHolds(evicting: bool, events: seq<Event>, key: string, p: Plan, at: real)
    requires key !in After(evicting, events)
    ensures Holds(evicting, events, key, p, at, Effective(p).capacity)
  {
    LevelNow(NewBucket(p, at), at);
  }

  lemma LeftHolds(evicting: bool, events: seq<Event>, key: string, p: Plan, at: real, x: real, d: real, gain: real)
    requires Left(evicting, events, key, p, at, x) && d >= 0.0 && gain == d * Effective(p).refill
             && x + gain <= Effective(p).capacity
    ensures Holds(evicting, events, key, p, at + d, x + gain)
  {
    assert Since(at + d, at) == d;
  }

  /** A check at level `x` takes one token, or is refused and told how long to wait. */
  lemma CheckHeld(evicting: bool, events: seq<Event>, key: string, p: Plan, at: real, x: real)
    requires Holds(evicting, events, key, p, at, x)
    ensures var all := events + [Check(key, p, at)];
            && Left(evicting, all, key, p, at, if x >= 1.0 then x - 1.0 else x)
            && LastAnswer(evicting, all)
               == Some(if x >= 1.0 then Ok(()) else Err(MaxReal((1.0 - x) / Effective(p).refill, 0.0)))
  {
    assert (events + [Check(key, p, at)])[..|events|] == events;
  }

  lemma {:induction false} BurstDrains(evicting: bool, events: seq<Event>, key: string, p: Plan, at: real, x: real,
                                       n: nat)
    requires Holds(evicting, events, key, p, at, x) && n as real <= x <= Effective(p).capacity
    ensures Holds(evicting, events + Burst(key, p, at, n), key, p, at, x - n as real)
    ensures n > 0 ==> Left(evicting, events + Burst(key, p, at, n), key, p, at, x - n as real)
  {
    if n == 0 {
      assert events + [] == events;
    } else {
      var before := events + Burst(key, p, at, n - 1);
      BurstDrains(evicting, events, key, p, at, x, n - 1);
      assert events + Burst(key, p, at, n) == before + [Check(key, p, at)];
      TakeOne(evicting, before, key, p, at, x - (n - 1) as real);
    }
  }

  lemma TakeOne(evicting: bool, events: seq<Event>, key: string, p: Plan, at: real, x: real)
    requires Holds(evicting, events, key, p, at, x) && 1.0 <= x <= Effective(p).capacity
    ensures Left(evicting, events + [Check(key, p, at)], key, p, at, x - 1.0)
    ensures Holds(evicting, events + [Check(key, p, at)], key, p, at, x - 1.0)
  {
    CheckHeld(evicting, events, key, p, at, x);
    LeftHolds(evicting, events + [Check(key, p, at)], key, p, at, x - 1.0, 0.0, 0.0);
  }

  /** Empties the bucket: `n` calls at once, then one when the next token is due. */
  function Emptying(key: string, p: Plan, n: nat, due: real): seq<Event> {
    Burst(key, p, 0.0, n) + [Check(key, p, 0.0 + due)]
  }

  lemma FirstBurst(evicting: bool, key: string, p: Plan, n: nat)
    requires 1 <= n && n as real <= Effective(p).capacity
    ensures Left(evicting, Burst(key, p, 0.0, n), key, p, 0.0, Effective(p).capacity - n as real)
  {
    assert After(evicting, []) == map[];
    NewHolds(evicting, [], key, p, 0.0);
    BurstDrains(evicting, [], key, p, 0.0, Effective(p).capacity, n);
    assert [] + Burst(key, p, 0.0, n) == Burst(key, p, 0.0, n);
  }

  lemma EmptyingEmpties(evicting: bool, key: string, p: Plan, n: nat, due: real, gain: real)
    requires 1 <= n && n as real <= Effective(p).capacity && due >= 0.0
    requires gain == due * Effective(p).refill && Effective(p).capacity - n as real + gain == 1.0
    ensures Left(evicting, Emptying(key, p, n, due), key, p, 0.0 + due, 0.0)
  {
    var burst := Burst(key, p, 0.0, n);
    FirstBurst(evicting, key, p, n);
    LeftHolds(evicting, burst, key, p, 0.0, Effective(p).capacity - n as real, due, gain);
    CheckHeld(evicting, burst, key, p, 0.0 + due, 1.0);
  }

  /** Empty the bucket, stay away for the idle limit, come back with `q` calls and one more. */
  function Revealing(key: string, p: Plan, n: nat, due: real, q: nat): seq<Event> {
    var at := 0.0 + due + EVICT_AFTER;
    Emptying(key, p, n, due) + [EvictIdle(at)] + Burst(key, p, at, q) + [Check(key, p, at)]
  }

  lemma AfterTheBreak(evicting: bool, events: seq<Event>, key: string, p: Plan, at: real)
    requires Left(evicting, events, key, p, at, 0.0) && !Ample(p)
    ensures Holds(evicting, events + [EvictIdle(at + EVICT_AFTER)], key, p, at + EVICT_AFTER,
                  if evicting then Effective(p).capacity else EVICT_AFTER * Effective(p).refill)
  {
    var all := events + [EvictIdle(at + EVICT_AFTER)];
    assert all[..|all| - 1] == events;
    if evicting {
      NewHolds(evicting, all, key, p, at + EVICT_AFTER);
    } else {
      LeftHolds(evicting, all, key, p, at, 0.0, EVICT_AFTER, EVICT_AFTER * Effective(p).refill);
    }
  }

  /** As many calls as have been refilled succeed on either table; the next answer differs. */
  lemma NextAnswerDiffers(events: seq<Event>, key: string, p: Plan, at: real, x: real, y: real, q: nat)
    requires Holds(true, events, key, p, at, x) && Holds(false, events, key, p, at, y)
    requires q as real <= y < q as real + 1.0 && y < x <= Effective(p).capacity
    ensures var all := events + Burst(key, p, at, q) + [Check(key, p, at)];
            LastAnswer(true, all) != LastAnswer(false, all)
  {
    var burst := events + Burst(key, p, at, q);
    BurstDrains(true, events, key, p, at, x, q);
    BurstDrains(false, events, key, p, at, y, q);
    CheckHeld(true, burst, key, p, at, x - q as real);
    CheckHeld(false, burst, key, p, at, y - q as real);
    var u, v := 1.0 - (x - q as real), 1.0 - (y - q as real);
    DifferentWaits(u, v, Effective(p).refill);
  }

  lemma ScarcePlanIsVisible(key: string, p: Plan) returns (events: seq<Event>)
    requires !Ample(p)
    ensures LastAnswer(true, events) != LastAnswer(false, events)
    ensures InOrder(events) && OnlyClient(events, key, p)
  {
    var n, due := EmptyingTimes(Effective(p).capacity, Effective(p).refill);
    var back := Emptying(key, p, n, due) + [EvictIdle(0.0 + due + EVICT_AFTER)];
    var refilled := EVICT_AFTER * Effective(p).refill;
    EmptyingEmpties(true, key, p, n, due, due * Effective(p).refill);
    EmptyingEmpties(false, key, p, n, due, due * Effective(p).refill);
    AfterTheBreak(true, Emptying(key, p, n, due), key, p, 0.0 + due);
    AfterTheBreak(false, Emptying(key, p, n, due), key, p, 0.0 + due);
    NextAnswerDiffers(back, key, p, 0.0 + due + EVICT_AFTER, Effective(p).capacity, refilled, refilled.Floor);
    events := Revealing(key, p, n, due, refilled.Floor);
    RevealingInOrder(key, p, n, due, refilled.Floor);
  }

  lemma EmptyingTimes(capacity: real, refill: real) returns (n: nat, due: real)
    requires capacity >= 1.0 && refill > 0.0
    ensures 1 <= n && n as real <= capacity && due >= 0.0 && capacity - n as real + due * refill == 1.0
  {
    n := capacity.Floor;
    due := (1.0 - (capacity - n as real)) / refill;
    Crossing(capacity - n as real, refill, 0.0);
  }

  lemma DifferentWaits(a: real, b: real, refill: real)
    requires a != b && refill > 0.0
    ensures b > 0.0 ==> MaxReal(a / refill, 0.0) != MaxReal(b / refill, 0.0)
  {
    assert a / refill * refill == a && b / refill * refill == b;
    assert b > 0.0 ==> b / refill > 0.0;
  }

  /** A history of one client in clock order that ends no later than `at`. */
  ghost predicate Orderly(events: seq<Event>, key: string, p: Plan, at: real) {
    InOrder(events) && OnlyClient(events, key, p) && (events != [] ==> events[|events| - 1].at <= at)
  }

  lemma Append(events: seq<Event>, e: Event, key: string, p: Plan, at: real)
    requires Orderly(events, key, p, at) && e.at == at && (e.Check? ==> e.key == key && e.plan == p)
    ensures Orderly(events + [e], key, p, at)
  {
  }

  lemma {:induction false} AppendBurst(events: seq<Event>, key: string, p: Plan, at: real, n: nat)
    requires Orderly(events, key, p, at)
    ensures Orderly(events + Burst(key, p, at, n), key, p, at)
  {
    if n == 0 {
      assert events + [] == events;
    } else {
      AppendBurst(events, key, p, at, n - 1);
      Append(events + Burst(key, p, at, n - 1), Check(key, p, at), key, p, at);
      assert events + Burst(key, p, at, n) == events + Burst(key, p, at, n - 1) + [Check(key, p, at)];
    }
  }

  lemma RevealingInOrder(key: string, p: Plan, n: nat, due: real, q: nat)
    requires due >= 0.0
    ensures Orderly(Revealing(key, p, n, due, q), key, p, 0.0 + due + EVICT_AFTER)
  {
    var at := 0.0 + due + EVICT_AFTER;
    AppendBurst([], key, p, 0.0, n);
    assert [] + Burst(key, p, 0.0, n) == Burst(key, p, 0.0, n);
    Append(Burst(key, p, 0.0, n), Check(key, p, 0.0 + due), key, p, 0.0 + due);
    Append(Emptying(key, p, n, due), EvictIdle(at), key, p, at);
    AppendBurst(Emptying(key, p, n, due) + [EvictIdle(at)], key, p, at, q);
    Append(Emptying(key, p, n, due) + [EvictIdle(at)] + Burst(key, p, at, q), Check(key, p, at), key, p, at);
  }

  /** For a client under one plan, no history in clock order can tell the evicting table from one
      that never drops anything, if and only if the idle limit refills a whole bucket. */
  lemma EvictionInvisibleIff(key: string, p: Plan)
    ensures Ample(p)
            <==> forall events | InOrder(events) && OnlyClient(events, key, p) ::
                 LastAnswer(true, events) == LastAnswer(false, events)
  {
    if Ample(p) {
      forall events | InOrder(events) && OnlyClient(events, key, p)
        ensures LastAnswer(true, events) == LastAnswer(false, events)
      {
        TablesAgree(events);
      }
    } else {
      var events := ScarcePlanIsVisible(key, p);
    }
  }

  /** The default plans (10 a minute with a burst of 15, 60 a minute for the owner, one a minute
      for scripts) are ample. */
  lemma DefaultPlansAreAmple()
    ensures Ample(Plan(15.0, 10.0 / 60.0)) && Ample(Plan(60.0, 60.0 / 60.0)) && Ample(Plan(1.0, 1.0 / 60.0))
  {
  }
}
