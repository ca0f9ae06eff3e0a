/** In-flight accounting: requests of many tasks and the periodic sweep, interleaved step by step.

A task selects a key, begins on it, and ends. The scheduler counts per key; the sweep may drop
a bucket, and with it the count, while requests are still running.
*/
module InFlight {
  import opened Basics
  import opened Scheduler

  /** One running request: the key it selected, when, and whether it has begun. */
  datatype Request = Request(key: string, since: int, begun: bool)

  datatype State = State(buckets: map<string, Bucket>, requests: seq<Request>)

  datatype Event =
    | Chosen(key: string, at: int)       // a selection returned the key
    | Begin(i: nat, at: int)             // request i counts itself in
    | End(i: nat)                        // request i counts itself out and is done
    | Response(key: string, success: bool, status: nat, latencyMs: nat, at: int)
    | Sweep(at: int)

  predicate Possible(s: State, e: Event) {
    match e
    case Begin(i, _) => i < |s.requests| && !s.requests[i].begun
    case End(i) => i < |s.requests| && s.requests[i].begun
    case _ => true
  }

  function Next(s: State, e: Event): State
    requires Possible(s, e)
  {
    match e
    case Chosen(key, at) => State(Touch(s.buckets, key, at), s.requests + [Request(key, at, false)])
    case Begin(i, at) => State(Begun(s.buckets, s.requests[i].key, at), s.requests[i := s.requests[i].(begun := true)])
    case End(i) => State(Ended(s.buckets, s.requests[i].key), s.requests[..i] + s.requests[i + 1..])
    case Response(key, success, status, latencyMs, at) =>
      s.(buckets := s.buckets[key := Respond(BucketOf(s.buckets, key, at), at, success, status, latencyMs)])
    case Sweep(at) => s.(buckets := Swept(s.buckets, at))
  }

  /** A run: every event is possible where it happens. */
  ghost predicate IsRun(states: seq<State>, events: seq<Event>) {
    && |states| == |events| + 1 && states[0] == State(map[], [])
    && forall i | 0 <= i < |events| :: Possible(states[i], events[i]) && states[i + 1] == Next(states[i], events[i])
  }

  // ---------------------------------------------------------------- counting

  /** The requests on `key` that are between selection and begin, or between begin and end. */
  function Count(requests: seq<Request>, key: string, begun: bool): nat {
    if requests == [] then 0
    else
      var r := requests[|requests| - 1];
      Count(requests[..|requests| - 1], key, begun) + if r.key == key && r.begun == begun then 1 else 0
  }

  function Inflight(buckets: map<string, Bucket>, key: string): nat {
    if key in buckets then buckets[key].inflight else 0
  }

  lemma {:induction false} CountSplit(a: seq<Request>, b: seq<Request>, key: string, begun: bool)
    ensures Count(a + b, key, begun) == Count(a, key, begun) + Count(b, key, begun)
  {
    if b == [] {
      assert a + b == a;
    } else {
      assert (a + b)[..|a + b| - 1] == a + b[..|b| - 1];
      CountSplit(a, b[..|b| - 1], key, begun);
    }
  }

  function One(r: Request, key: string, begun: bool): nat { if r.key == key && r.begun == begun then 1 else 0 }

  /** Count around position `i`. */
  lemma CountAt(requests: seq<Request>, i: nat, r: Request, key: string, begun: bool)
    requires i < |requests|
    ensures Count(requests, key, begun)
            == Count(requests[..i], key, begun) + One(requests[i], key, begun) + Count(requests[i + 1..], key, begun)
    ensures Count(requests[i := r], key, begun)
            == Count(requests[..i], key, begun) + One(r, key, begun) + Count(requests[i + 1..], key, begun)
    ensures Count(requests[..i] + requests[i + 1..], key, begun)
            == Count(requests[..i], key, begun) + Count(requests[i + 1..], key, begun)
  {
    assert requests == requests[..i] + [requests[i]] + requests[i + 1..];
    assert requests[i := r] == requests[..i] + [r] + requests[i + 1..];
    CountSplit(requests[..i] + [requests[i]], requests[i + 1..], key, begun);
    CountSplit(requests[..i] + [r], requests[i + 1..], key, begun);
    CountSplit(requests[..i], [requests[i]], key, begun);
    CountSplit(requests[..i], [r], key, begun);
    CountSplit(requests[..i], requests[i + 1..], key, begun);
    assert Count([], key, begun) == 0;
  }

  /** How one event moves the two counts and the scheduler's own count. */
  lemma Moves(s: State, e: Event, key: string)
    requires Possible(s, e)
    ensures var s' := Next(s, e);
            var selected, active := Count(s.requests, key, false), Count(s.requests, key, true);
            var selected', active' := Count(s'.requests, key, false), Count(s'.requests, key, true);
            match e
            case Chosen(k, _) =>
              Inflight(s'.buckets, key) == Inflight(s.buckets, key) && active' == active
                && selected' == selected + (if k == key then 1 else 0)
            case Begin(i, _) =>
              var d := if s.requests[i].key == key then 1 else 0;
              Inflight(s'.buckets, key) == Inflight(s.buckets, key) + d && active' == active + d
                && selected' == selected - d
            case End(i) =>
              var d := if s.requests[i].key == key then 1 else 0;
              && Inflight(s'.buckets, key)
                 == (if d <= Inflight(s.buckets, key) then Inflight(s.buckets, key) - d else 0)
              && active' == active - d && selected' == selected
            case Response(_, _, _, _, _) =>
              Inflight(s'.buckets, key) == Inflight(s.buckets, key) && active' == active && selected' == selected
            case Sweep(at) =>
              && Inflight(s'.buckets, key)
                 == (if key in s.buckets && Stale(s.buckets[key], at) then 0 else Inflight(s.buckets, key))
              && active' == active && selected' == selected
  {
    match e
    case Chosen(k, at) =>
      CountSplit(s.requests, [Request(k, at, false)], key, false);
      CountSplit(s.requests, [Request(k, at, false)], key, true);
      assert Count([], key, true) == 0 && Count([], key, false) == 0;
    case Begin(i, _) =>
      CountAt(s.requests, i, s.requests[i].(begun := true), key, false);
      CountAt(s.requests, i, s.requests[i].(begun := true), key, true);
    case End(i) =>
      CountAt(s.requests, i, s.requests[i], key, false);
      CountAt(s.requests, i, s.requests[i], key, true);
    case Response(_, _, _, _, _) =>
    case Sweep(_) =>
  }

  // ---------------------------------------------------------------- theorems over runs

  /** A sweep never leaves a count above the truth: in every run the scheduler counts at most the
      requests that are really between begin and end. */
  lemma {:induction false} NeverOvercounts(states: seq<State>, events: seq<Event>, i: nat, key: string)
    requires IsRun(states, events) && i < |states|
    ensures Inflight(states[i].buckets, key) <= Count(states[i].requests, key, true)
  {
    if i > 0 {
      NeverOvercounts(states, events, i - 1, key);
      assert Possible(states[i - 1], events[i - 1]);
      Moves(states[i - 1], events[i - 1], key);
    }
  }

  /** The sweep drops the key's bucket only while no request on it has begun. */
  ghost predicate SweepsIdleOnly(states: seq<State>, events: seq<Event>, key: string)
    requires |states| == |events| + 1
  {
    forall i | 0 <= i < |events| && events[i].Sweep? && key in states[i].buckets
      && Stale(states[i].buckets[key], events[i].at) ::
      Count(states[i].requests, key, true) == 0
  }

  /** Without such a sweep the count is exact. */
  lemma {:induction false} CountsExactly(states: seq<State>, events: seq<Event>, i: nat, key: string)
    requires IsRun(states, events) && i < |states| && SweepsIdleOnly(states, events, key)
    ensures Inflight(states[i].buckets, key) == Count(states[i].requests, key, true)
  {
    if i > 0 {
      CountsExactly(states, events, i - 1, key);
      assert Possible(states[i - 1], events[i - 1]);
      Moves(states[i - 1], events[i - 1], key);
    }
  }

  /** And it is exact only without one: the first such sweep makes the count too low. */
  lemma FirstBadSweepUndercounts(states: seq<State>, events: seq<Event>, i: nat, key: string)
    requires IsRun(states, events) && i < |events| && SweepsIdleOnly(states[..i + 1], events[..i], key)
    requires events[i].Sweep? && key in states[i].buckets && Stale(states[i].buckets[key], events[i].at)
    requires Count(states[i].requests, key, true) > 0
    ensures Inflight(states[i].buckets, key) == Count(states[i].requests, key, true)
    ensures Inflight(states[i + 1].buckets, key) == 0 < Count(states[i + 1].requests, key, true)
  {
    assert IsRun(states[..i + 1], events[..i]) by {
      forall j | 0 <= j < i ensures Possible(states[j], events[j]) && states[j + 1] == Next(states[j], events[j]) {}
    }
    CountsExactly(states[..i + 1], events[..i], i, key);
    assert Possible(states[i], events[i]);
    Moves(states[i], events[i], key);
  }

  /** The count is exact throughout a run, exactly if no sweep of the run drops the bucket in use. */
  lemma ExactIffSweepsIdle(states: seq<State>, events: seq<Event>, key: string)
    requires IsRun(states, events)
    ensures (forall i | 0 <= i < |states| :: Inflight(states[i].buckets, key) == Count(states[i].requests, key, true))
       <==> SweepsIdleOnly(states, events, key)
  {
    if SweepsIdleOnly(states, events, key) {
      forall i | 0 <= i < |states| ensures Inflight(states[i].buckets, key) == Count(states[i].requests, key, true) {
        CountsExactly(states, events, i, key);
      }
    } else {
      var i :| 0 <= i < |events| && events[i].Sweep? && key in states[i].buckets
        && Stale(states[i].buckets[key], events[i].at) && Count(states[i].requests, key, true) != 0;
      assert Possible(states[i], events[i]);
      Moves(states[i], events[i], key);
      assert Inflight(states[i + 1].buckets, key) == 0;
    }
  }

  /** Such sweeps happen: a request that runs for more than ten minutes is not counted any more. */
  lemma LongRequestIsForgotten(key: string) returns (states: seq<State>, events: seq<Event>)
    ensures IsRun(states, events) && |states| == 4
    ensures events == [Chosen(key, 0), Begin(0, 0), Sweep(600 * SECOND + 1)]
    ensures Inflight(states[2].buckets, key) == Count(states[2].requests, key, true) == 1
    ensures Inflight(states[3].buckets, key) == 0 && Count(states[3].requests, key, true) == 1
  {
    events := [Chosen(key, 0), Begin(0, 0), Sweep(STALE_AFTER + 1)];
    var s0 := State(map[], []);
    var s1 := State(Touch(s0.buckets, key, 0), [Request(key, 0, false)]);
    var s2 := State(Begun(s1.buckets, key, 0), [Request(key, 0, true)]);
    assert [] + [Request(key, 0, false)] == [Request(key, 0, false)];
    assert s1.requests[0 := Request(key, 0, true)] == s2.requests;
    states := [s0, s1, s2, Next(s2, events[2])];
    assert [Request(key, 0, true)][..0] == [];
    assert Count([], key, true) == 0;
  }

  // ---------------------------------------------------------------- short requests

  /** Selections of the key happen in clock order. */
  ghost predicate ChosenInOrder(events: seq<Event>, key: string) {
    forall i, j | 0 <= i <= j < |events| && events[i].Chosen? && events[i].key == key && events[j].Chosen?
      && events[j].key == key :: events[i].at <= events[j].at
  }

  /** No sweep finds a request on the key that selected it longer ago than the idle limit. */
  ghost predicate ShortRequests(states: seq<State>, events: seq<Event>, key: string)
    requires |states| == |events| + 1
  {
    forall i | 0 <= i < |events| && events[i].Sweep? ::
      forall r | r in states[i].requests && r.key == key :: events[i].at - r.since <= 600 * SECOND
  }

  /** The key's bucket exists and was stamped no earlier than any request on it selected it. */
  ghost predicate Stamped(s: State, key: string) {
    forall r | r in s.requests && r.key == key :: key in s.buckets && r.since <= s.buckets[key].lastUsedAt
  }

  ghost predicate NotYetOvertaken(s: State, events: seq<Event>, from: nat, key: string) {
    forall r, j | r in s.requests && r.key == key && from <= j < |events| && events[j].Chosen?
      && events[j].key == key :: r.since <= events[j].at
  }

  lemma StampedStep(s: State, e: Event, key: string)
    requires Possible(s, e) && Stamped(s, key)
    requires e.Chosen? && e.key == key ==> forall r | r in s.requests && r.key == key :: r.since <= e.at
    requires e.Sweep? ==> forall r | r in s.requests && r.key == key :: e.at - r.since <= 600 * SECOND
    ensures Stamped(Next(s, e), key)
  {
    var s' := Next(s, e);
    forall r | r in s'.requests && r.key == key
      ensures key in s'.buckets && r.since <= s'.buckets[key].lastUsedAt
    {
      if e.Begin? && r == s.requests[e.i].(begun := true) && r !in s.requests {
        assert s.requests[e.i] in s.requests;
      } else if !e.Chosen? {
        assert r in s.requests;
      }
    }
  }

  lemma {:induction false} StaysStamped(states: seq<State>, events: seq<Event>, i: nat, key: string)
    requires IsRun(states, events) && i < |states| && ChosenInOrder(events, key) && ShortRequests(states, events, key)
    ensures Stamped(states[i], key) && NotYetOvertaken(states[i], events, i, key)
  {
    if i > 0 {
      StaysStamped(states, events, i - 1, key);
      var s, e := states[i - 1], events[i - 1];
      assert Possible(s, e) && states[i] == Next(s, e);
      StampedStep(s, e, key);
      forall r, j | r in states[i].requests && r.key == key && i <= j < |events| && events[j].Chosen?
        && events[j].key == key
        ensures r.since <= events[j].at
      {
        if r !in s.requests && e.Begin? { assert s.requests[e.i] in s.requests; }
      }
    }
  }

  lemma {:induction false} CountedMember(requests: seq<Request>, key: string, begun: bool)
    ensures Count(requests, key, begun) > 0 ==> exists r :: r in requests && r.key == key && r.begun == begun
  {
    if requests != [] {
      var front, last := requests[..|requests| - 1], requests[|requests| - 1];
      CountedMember(front, key, begun);
      if Count(front, key, begun) > 0 {
        var r :| r in front && r.key == key && r.begun == begun;
        assert r in requests;
      } else {
        assert last in requests;
      }
    }
  }

  /** If no request outlives the sweep's idle limit, the count is exact at all times. */
  lemma ShortRequestsCountExactly(states: seq<State>, events: seq<Event>, i: nat, key: string)
    requires IsRun(states, events) && i < |states| && ChosenInOrder(events, key) && ShortRequests(states, events, key)
    ensures Inflight(states[i].buckets, key) == Count(states[i].requests, key, true)
  {
    forall j | 0 <= j < |events| && events[j].Sweep? && key in states[j].buckets
      && Stale(states[j].buckets[key], events[j].at)
      ensures Count(states[j].requests, key, true) == 0
    {
      StaysStamped(states, events, j, key);
      CountedMember(states[j].requests, key, true);
    }
    CountsExactly(states, events, i, key);
  }

  // ---------------------------------------------------------------- the concurrency cap

  /** A selection that is not a fallback saw the key below its cap. */
  lemma OrdinarySelectionBelowCap(v: View, keys: seq<UpstreamKey>, model: string, tried: set<string>, now: int)
    requires exists c | c in keys :: Admissible(v.buckets, c, HasScoped(keys, model), model, tried, now)
    ensures var r := Select(v, keys, model, tried, now).1;
            r.Ok? && Inflight(v.buckets, r.value.id) < 8
  {
    var scoped := HasScoped(keys, model);
    var c :| c in keys && Admissible(v.buckets, c, scoped, model, tried, now);
    assert c in Candidates(v.buckets, keys, scoped, model, tried, now);
  }

  /** Every selection of the key saw it below its cap, and at most `n` requests at a time have
      selected it without having begun. */
  ghost predicate Disciplined(states: seq<State>, events: seq<Event>, key: string, n: nat)
    requires |states| == |events| + 1
  {
    forall i | 0 <= i < |events| && events[i].Chosen? && events[i].key == key ::
      Inflight(states[i].buckets, key) < PER_KEY_CONCURRENCY_CAP && Count(states[i + 1].requests, key, false) <= n
  }

  /** The scheduler's count, together with the selected requests that it does not know of yet, stays
      within the cap and what can slip in between, less one. */
  lemma {:induction false} CapHolds(states: seq<State>, events: seq<Event>, i: nat, key: string, n: nat)
    requires IsRun(states, events) && i < |states| && Disciplined(states, events, key, n)
    ensures Inflight(states[i].buckets, key) + Count(states[i].requests, key, false) <= 7 + n
  {
    if i > 0 {
      CapHolds(states, events, i - 1, key, n);
      assert Possible(states[i - 1], events[i - 1]);
      Moves(states[i - 1], events[i - 1], key);
    }
  }

  /** So do the requests themselves, as long as no sweep drops the bucket in use. */
  lemma CapHoldsForRequests(states: seq<State>, events: seq<Event>, i: nat, key: string, n: nat)
    requires IsRun(states, events) && i < |states| && Disciplined(states, events, key, n)
    requires SweepsIdleOnly(states, events, key)
    ensures Count(states[i].requests, key, true) + Count(states[i].requests, key, false) <= 7 + n
  {
    CapHolds(states, events, i, key, n);
    CountsExactly(states, events, i, key);
  }

  // ---------------------------------------------------------------- what sweeps do to the cap

  const ROUND: int := STALE_AFTER + 1

  /** In each round a request selects the key and begins, and a sweep more than ten minutes later finds
      the bucket idle. */
  function Rounds(key: string, n: nat): (events: seq<Event>)
    ensures |events| == 3 * n
  {
    if n == 0 then []
    else Rounds(key, n - 1) + [Chosen(key, (n - 1) * ROUND), Begin(n - 1, (n - 1) * ROUND), Sweep(n * ROUND)]
  }

  /** Requests that began in one round after the other. */
  predicate AllRunning(requests: seq<Request>, key: string, n: nat) {
    |requests| == n && forall i | 0 <= i < n :: requests[i].key == key && requests[i].begun
  }

  lemma {:induction false} AllCounted(requests: seq<Request>, key: string, n: nat)
    requires AllRunning(requests, key, n)
    ensures Count(requests, key, true) == n && Count(requests, key, false) == 0
  {
    if n > 0 { AllCounted(requests[..n - 1], key, n - 1); }
  }

  /** One round more: none of its selections finds the key in flight. */
  lemma RoundRuns(s: State, key: string, n: nat) returns (s1: State, s2: State, s3: State)
    requires s.buckets == map[] && AllRunning(s.requests, key, n)
    ensures s1 == Next(s, Chosen(key, n * ROUND)) && Count(s1.requests, key, false) == 1
    ensures Possible(s1, Begin(n, n * ROUND)) && s2 == Next(s1, Begin(n, n * ROUND))
    ensures s3 == Next(s2, Sweep((n + 1) * ROUND)) && s3.buckets == map[] && AllRunning(s3.requests, key, n + 1)
  {
    var at := n * ROUND;
    s1 := Next(s, Chosen(key, at));
    AllCounted(s.requests, key, n);
    Moves(s, Chosen(key, at), key);
    s2 := Next(s1, Begin(n, at));
    s3 := Next(s2, Sweep((n + 1) * ROUND));
    assert (n + 1) * ROUND == at + ROUND;
    assert s1.buckets == map[key := FreshBucket(at).(lastUsedAt := at)];
    assert s2.buckets.Keys == {key} && Stale(s2.buckets[key], (n + 1) * ROUND);
  }

  /** With such sweeps there is no bound at all: any number of requests can run on a key although every
      selection saw it below its cap and began before the next one came. */
  lemma {:induction false} SweepsLiftTheCap(key: string, n: nat) returns (states: seq<State>)
    ensures IsRun(states, Rounds(key, n)) && Disciplined(states, Rounds(key, n), key, 1)
    ensures Count(states[3 * n].requests, key, true) == n
    ensures states[3 * n].buckets == map[] && AllRunning(states[3 * n].requests, key, n)
  {
    if n == 0 {
      return [State(map[], [])];
    }
    var before := SweepsLiftTheCap(key, n - 1);
    var last := before[3 * (n - 1)];
    var s1, s2, s3 := RoundRuns(last, key, n - 1);
    states := before + [s1, s2, s3];
    AllCounted(s3.requests, key, n);
    RoundJoins(before, Rounds(key, n - 1), states, Rounds(key, n), key);
  }

  /** A run and three steps after it. */
  lemma RoundJoins(before: seq<State>, done: seq<Event>, states: seq<State>, events: seq<Event>, key: string)
    requires IsRun(before, done) && Disciplined(before, done, key, 1)
    requires |events| == |done| + 3 && |states| == |before| + 3 && done <= events && before <= states
    requires forall i | |done| <= i < |events| ::
             Possible(states[i], events[i]) && states[i + 1] == Next(states[i], events[i])
    requires events[|done|].Chosen? && !events[|done| + 1].Chosen? && !events[|done| + 2].Chosen?
    requires Inflight(states[|done|].buckets, key) == 0 && Count(states[|done| + 1].requests, key, false) <= 1
    ensures IsRun(states, events) && Disciplined(states, events, key, 1)
  {
    forall i | 0 <= i < |events|
      ensures Possible(states[i], events[i]) && states[i + 1] == Next(states[i], events[i])
    {
      if i < |done| { assert Possible(before[i], done[i]) && before[i + 1] == Next(before[i], done[i]); }
    }
    forall i | 0 <= i < |events| && events[i].Chosen? && events[i].key == key
      ensures Inflight(states[i].buckets, key) < PER_KEY_CONCURRENCY_CAP
              && Count(states[i + 1].requests, key, false) <= 1
    {
      if i < |done| { assert states[i] == before[i] && states[i + 1] == before[i + 1]; }
    }
  }
}
