/** The per-model circuit breaker: closed, open, half open, with tumbling failure windows. */
module Circuit {
  import opened Basics

  const CB_FAILURE_THRESHOLD_5XX: nat := 10
  const CB_WINDOW: int := 60 * SECOND
  const CB_OPEN_DURATION: int := 60 * SECOND
  const CB_HALF_OPEN_MAX_ATTEMPTS: nat := 3

  datatype Phase = Closed | Open | HalfOpen

  datatype Breaker = Breaker(phase: Phase, fail429: nat, fail5xx: nat, windowStart: int, openUntil: int,
                             halfOpenAttempts: nat)

  function NewBreaker(now: int): Breaker { Breaker(Closed, 0, 0, now, now, 0) }

  /** What can happen to a model's breaker. */
  datatype Event = CanRequest(at: int) | Success(at: int) | Failure(status: nat, at: int)

  predicate Is5xx(e: Event) { e.Failure? && 500 <= e.status <= 599 }

  /** A model without an entry; admission and failure create one, success does not. */
  function Entry(b: Option<Breaker>, now: int): Breaker { if b.Some? then b.value else NewBreaker(now) }

  function Admits(b: Option<Breaker>, now: int): bool {
    var e := Entry(b, now);
    match e.phase
    case Closed => true
    case Open => now >= e.openUntil
    case HalfOpen => e.halfOpenAttempts < CB_HALF_OPEN_MAX_ATTEMPTS
  }

  function Admitted(b: Option<Breaker>, now: int): Breaker {
    var e := Entry(b, now);
    if !Admits(b, now) || e.phase == Closed then e
    else if e.phase == Open then e.(phase := HalfOpen, halfOpenAttempts := 1)
    else e.(halfOpenAttempts := e.halfOpenAttempts + 1)
  }

  function Succeeded(b: Option<Breaker>): Option<Breaker> {
    if b.Some? && b.value.phase == HalfOpen then
      Some(b.value.(phase := Closed, fail429 := 0, fail5xx := 0, halfOpenAttempts := 0))
    else b
  }

  function Failed(b: Option<Breaker>, status: nat, now: int): Breaker {
    var e := Entry(b, now);
    match e.phase
    case Open => e
    case HalfOpen => e.(phase := Open, openUntil := now + CB_OPEN_DURATION)
    case Closed =>
      var w := if now - e.windowStart > CB_WINDOW then e.(fail429 := 0, fail5xx := 0, windowStart := now) else e;
      var c := if 500 <= status <= 599 then w.(fail5xx := w.fail5xx + 1) else w;
      if c.fail5xx >= CB_FAILURE_THRESHOLD_5XX then c.(phase := Open, openUntil := now + CB_OPEN_DURATION) else c
  }

  function Next(b: Option<Breaker>, e: Event): Option<Breaker> {
    match e
    case CanRequest(at) => Some(Admitted(b, at))
    case Success(_) => Succeeded(b)
    case Failure(status, at) => Some(Failed(b, status, at))
  }

  function Lookup(breakers: map<string, Breaker>, model: string): Option<Breaker> {
    if model in breakers then Some(breakers[model]) else None
  }

  class CircuitBreaker {
    var breakers: map<string, Breaker>

    constructor ()
      ensures breakers == map[]
    {
      breakers := map[];
    }

    method CanRequest(model: string, now: int) returns (ok: bool)
      modifies this
      ensures ok == Admits(Lookup(old(breakers), model), now)
      ensures breakers == old(breakers)[model := Admitted(Lookup(old(breakers), model), now)]
    {
      if model !in breakers {
        breakers := breakers[model := NewBreaker(now)];
      }
      var b := breakers[model];
      match b.phase {
        case Closed =>
          ok := true;
        case Open =>
          if now >= b.openUntil {
            b := b.(phase := HalfOpen);
            b := b.(halfOpenAttempts := 1);
            ok := true;
          } else {
            ok := false;
          }
        case HalfOpen =>
          if b.halfOpenAttempts < CB_HALF_OPEN_MAX_ATTEMPTS {
            b := b.(halfOpenAttempts := b.halfOpenAttempts + 1);
            ok := true;
          } else {
            ok := false;
          }
      }
      breakers := breakers[model := b];
    }

    method RecordSuccess(model: string)
      modifies this
      ensures var after := Succeeded(Lookup(old(breakers), model));
              breakers == if after.Some? then old(breakers)[model := after.value] else old(breakers)
    {
      if model in breakers {
        var b := breakers[model];
        if b.phase == HalfOpen {
          b := b.(phase := Closed, fail429 := 0, fail5xx := 0);
          b := b.(halfOpenAttempts := 0);
        }
        breakers := breakers[model := b];
      }
    }

    method RecordFailure(model: string, status: nat, now: int)
      modifies this
      ensures breakers == old(breakers)[model := Failed(Lookup(old(breakers), model), status, now)]
    {
      if model !in breakers {
        breakers := breakers[model := NewBreaker(now)];
      }
      var b := breakers[model];
      match b.phase {
        case HalfOpen =>
          b := b.(phase := Open, openUntil := now + CB_OPEN_DURATION);
        case Closed =>
          if now - b.windowStart > CB_WINDOW {
            b := b.(fail429 := 0, fail5xx := 0, windowStart := now);
          }
          if 500 <= status <= 599 {
            b := b.(fail5xx := b.fail5xx + 1);
          }
          if b.fail5xx >= CB_FAILURE_THRESHOLD_5XX {
            b := b.(phase := Open, openUntil := now + CB_OPEN_DURATION);
          }
        case Open =>
      }
      breakers := breakers[model := b];
    }
  }

  // ---------------------------------------------------------------- runs of one model

  /** `states[i]` is the breaker before event `i`; the clock does not run backwards. */
  ghost predicate IsRun(states: seq<Option<Breaker>>, events: seq<Event>) {
    && |states| == |events| + 1 && states[0] == None
    && (forall i | 0 <= i < |events| :: states[i + 1] == Next(states[i], events[i]))
    && (forall i, j | 0 <= i <= j < |events| :: events[i].at <= events[j].at)
  }

  ghost predicate IsClosed(b: Option<Breaker>) { b.Some? ==> b.value.phase == Closed }

  /** The 5xx failures among the events from `lo` to before `hi` that happened at or after `since`. */
  function Failures(events: seq<Event>, lo: nat, hi: nat, since: int): nat
    requires lo <= hi <= |events|
    decreases hi
  {
    if hi == lo then 0
    else Failures(events, lo, hi - 1, since) + if Is5xx(events[hi - 1]) && events[hi - 1].at >= since then 1 else 0
  }

  /** The admissions among the events from `lo` to before `hi`. */
  function Admissions(states: seq<Option<Breaker>>, events: seq<Event>, lo: nat, hi: nat): nat
    requires lo <= hi <= |events| < |states|
    decreases hi
  {
    if hi == lo then 0
    else
      Admissions(states, events, lo, hi - 1)
        + if events[hi - 1].CanRequest? && Admits(states[hi - 1], events[hi - 1].at) then 1 else 0
  }

  ghost predicate Sound(b: Option<Breaker>) {
    b.Some? ==> (
      && b.value.fail429 == 0
      && (b.value.phase == Closed ==> b.value.fail5xx < CB_FAILURE_THRESHOLD_5XX)
      && (b.value.phase == HalfOpen ==> 1 <= b.value.halfOpenAttempts <= CB_HALF_OPEN_MAX_ATTEMPTS))
  }

  lemma {:induction false} RunIsSound(states: seq<Option<Breaker>>, events: seq<Event>, i: nat)
    requires IsRun(states, events) && i < |states|
    ensures Sound(states[i])
  {
    if i > 0 {
      RunIsSound(states, events, i - 1);
      assert states[i - 1 + 1] == Next(states[i - 1], events[i - 1]);
    }
  }

  // ---------------------------------------------------------------- a trip is earned

  lemma {:induction false} FailuresMonotone(events: seq<Event>, hi: nat, early: int, late: int)
    requires hi <= |events| && early <= late
    ensures Failures(events, 0, hi, late) <= Failures(events, 0, hi, early)
  {
    if hi > 0 { FailuresMonotone(events, hi - 1, early, late); }
  }

  /** The counter never exceeds the failures since its window began, and the window began in the past. */
  lemma {:induction false} CounterIsBacked(states: seq<Option<Breaker>>, events: seq<Event>, i: nat)
    requires IsRun(states, events) && i < |states| && states[i].Some?
    ensures states[i].value.fail5xx <= Failures(events, 0, i, states[i].value.windowStart)
    ensures i > 0 && states[i].value.windowStart <= events[i - 1].at
  {
    var e, before, after := events[i - 1], states[i - 1], states[i - 1 + 1];
    assert after == Next(before, e);
    if before.Some? {
      CounterIsBacked(states, events, i - 1);
      assert events[i - 2].at <= events[i - 1].at;
    }
  }

  /** The step that takes a closed breaker to open. */
  ghost predicate Trips(states: seq<Option<Breaker>>, i: nat)
    requires i + 1 < |states|
  {
    IsClosed(states[i]) && states[i + 1].Some? && states[i + 1].value.phase == Open
  }

  /** A trip means ten 5xx failures in the last 60 seconds, the tripping one included, and it bars
      the model for 60 seconds. */
  lemma TripNeedsTenFailures(states: seq<Option<Breaker>>, events: seq<Event>, i: nat)
    requires IsRun(states, events) && i < |events| && Trips(states, i)
    ensures Is5xx(events[i])
    ensures Failures(events, 0, i + 1, events[i].at - 60 * SECOND) >= 10
    ensures states[i + 1].value.openUntil == events[i].at + 60 * SECOND
  {
    assert states[i + 1] == Next(states[i], events[i]);
    RunIsSound(states, events, i);
    CounterIsBacked(states, events, i + 1);
    FailuresMonotone(events, i + 1, events[i].at - CB_WINDOW, states[i + 1].value.windowStart);
  }

  // ---------------------------------------------------------------- what exactly trips it

  /** The 5xx failures among the events from `lo` to before `hi`. */
  function Recorded5xx(events: seq<Event>, lo: nat, hi: nat): nat
    requires lo <= hi <= |events|
    decreases hi
  {
    if hi == lo then 0 else Recorded5xx(events, lo, hi - 1) + if Is5xx(events[hi - 1]) then 1 else 0
  }

  /** The event opens a window: it creates the model's entry, or it is a failure that finds the
      window of a closed breaker over. */
  predicate OpensWindow(b: Option<Breaker>, e: Event) {
    if b.None? then !e.Success? else e.Failure? && b.value.phase == Closed && e.at - b.value.windowStart > CB_WINDOW
  }

  /** The event that counting starts with: the one that opened the present window, or the first
      after the last return to closed, whichever is later. */
  ghost function CountingFrom(states: seq<Option<Breaker>>, events: seq<Event>, i: nat): (from: nat)
    requires i <= |events| < |states|
    ensures from <= i
  {
    if i == 0 then 0
    else if OpensWindow(states[i - 1], events[i - 1]) then i - 1
    else if !IsClosed(states[i - 1]) && events[i - 1].Success? && IsClosed(states[i]) then i
    else CountingFrom(states, events, i - 1)
  }

  /** While the breaker is closed, its counter is exactly the number of 5xx failures since then. */
  lemma {:induction false} CounterIsExact(states: seq<Option<Breaker>>, events: seq<Event>, i: nat)
    requires IsRun(states, events) && i < |states| && IsClosed(states[i]) && states[i].Some?
    ensures states[i].value.fail5xx == Recorded5xx(events, CountingFrom(states, events, i), i)
  {
    var e, before := events[i - 1], states[i - 1];
    assert states[i - 1 + 1] == Next(before, e);
    RunIsSound(states, events, i - 1);
    if before.Some? && before.value.phase == Closed { CounterIsExact(states, events, i - 1); }
  }

  /** A closed breaker trips exactly at a 5xx failure with nine counted ones before it in the window
      that it falls into. */
  lemma TripsIff(states: seq<Option<Breaker>>, events: seq<Event>, i: nat)
    requires IsRun(states, events) && i < |events| && IsClosed(states[i])
    ensures var from := CountingFrom(states, events, i + 1);
            Trips(states, i)
            <==> Is5xx(events[i]) && from <= i && Recorded5xx(events, from, i) == 9
  {
    assert states[i + 1] == Next(states[i], events[i]);
    RunIsSound(states, events, i);
    if states[i].Some? { CounterIsExact(states, events, i); }
  }

  lemma {:induction false} RecordedAdds(events: seq<Event>, lo: nat, mid: nat, hi: nat)
    requires lo <= mid <= hi <= |events|
    ensures Recorded5xx(events, lo, hi) == Recorded5xx(events, lo, mid) + Recorded5xx(events, mid, hi)
    decreases hi
  {
    if mid < hi { RecordedAdds(events, lo, mid, hi - 1); }
  }

  /** After a failure of a closed breaker, as long as it stays closed: it is still in the window of
      that failure and counts it, or that window was over by the last event and it does not. */
  lemma {:induction false} SameWindowOrLater(states: seq<Option<Breaker>>, events: seq<Event>, first: nat, j: nat)
    requires IsRun(states, events) && first < j <= |events| && events[first].Failure? && StaysClosed(states, first, j)
    ensures states[first + 1].Some? && states[j].Some?
    ensures var start, from := states[first + 1].value.windowStart, CountingFrom(states, events, j);
            || (from <= first && states[j].value.windowStart == start)
            || (from > first && events[j - 1].at - start > CB_WINDOW)
    decreases j
  {
    assert states[first + 1] == Next(states[first], events[first]);
    if j > first + 1 {
      SameWindowOrLater(states, events, first, j - 1);
      assert states[j - 1 + 1] == Next(states[j - 1], events[j - 1]);
      assert events[j - 2].at <= events[j - 1].at;
    }
  }

  /** When ten 5xx failures trip a breaker that was closed all the time: exactly if the tenth comes
      no later than 60 seconds after the start of the window that the first fell into. That they
      lie within 60 seconds of each other is not enough. */
  lemma TenthFailureTripsIff(states: seq<Option<Breaker>>, events: seq<Event>, first: nat, last: nat)
    requires IsRun(states, events) && first < last < |events| && StaysClosed(states, first, last)
    requires Is5xx(events[first]) && Is5xx(events[last]) && Recorded5xx(events, first, last) == 9
    ensures states[first + 1].Some?
    ensures Trips(states, last) <==> events[last].at - states[first + 1].value.windowStart <= 60 * SECOND
  {
    SameWindowOrLater(states, events, first, last);
    TripsIff(states, events, last);
    CounterIsExact(states, events, last);
    RunIsSound(states, events, last);
    assert events[last - 1].at <= events[last].at;
    RecordedAdds(events, first, first + 1, last);
    assert Recorded5xx(events, first, first + 1) == 1 by { assert Recorded5xx(events, first, first) == 0; }
    var from := CountingFrom(states, events, last + 1);
    if from <= first {
      RecordedAdds(events, from, first, last);
    } else if from <= last {
      RecordedAdds(events, first + 1, from, last);
    }
  }

  // ---------------------------------------------------------------- staying closed means few failures

  ghost predicate StaysClosed(states: seq<Option<Breaker>>, lo: nat, hi: nat)
    requires lo <= hi < |states|
  {
    forall i | lo <= i <= hi :: IsClosed(states[i])
  }

  /** How the failures of a closed stretch spread over its windows: `windows` of them began in the
      stretch, more than 60 seconds apart, and each completed one holds at most nine. */
  ghost predicate Spread(states: seq<Option<Breaker>>, events: seq<Event>, lo: nat, hi: nat, windows: nat)
    requires lo < hi <= |events| < |states|
  {
    && states[hi].Some?
    && Failures(events, lo, hi, events[lo].at) <= 9 * windows + states[hi].value.fail5xx
    && (windows > 0 ==> states[hi].value.windowStart >= events[lo].at + (windows - 1) * CB_WINDOW)
    && (windows > 1 ==> states[hi].value.windowStart > events[lo].at + (windows - 1) * CB_WINDOW)
  }

  lemma {:induction false} ClosedStretchSpreads(states: seq<Option<Breaker>>, events: seq<Event>, lo: nat, hi: nat)
    returns (windows: nat)
    requires IsRun(states, events) && lo < hi <= |events| && StaysClosed(states, lo, hi) && states[hi].Some?
    ensures Spread(states, events, lo, hi, windows)
    decreases hi
  {
    var e, before := events[hi - 1], states[hi - 1];
    assert states[hi - 1 + 1] == Next(before, e);
    RunIsSound(states, events, hi - 1);
    RunIsSound(states, events, hi);
    assert events[lo].at <= e.at;
    if hi - 1 == lo || before.None? {
      if before.None? { NoFailuresBefore(states, events, lo, hi - 1); }
      assert Failures(events, lo, hi - 1, events[lo].at) == 0;
      windows := if e.Failure? && before.Some? && e.at - before.value.windowStart > CB_WINDOW then 1 else 0;
    } else {
      windows := ClosedStretchSpreads(states, events, lo, hi - 1);
      if e.Failure? && e.at - before.value.windowStart > CB_WINDOW { windows := windows + 1; }
    }
  }

  /** A model has no entry as long as it has seen nothing but successes. */
  lemma {:induction false} NoFailuresBefore(states: seq<Option<Breaker>>, events: seq<Event>, lo: nat, hi: nat)
    requires IsRun(states, events) && lo <= hi <= |events| && states[hi].None?
    ensures forall since :: Failures(events, lo, hi, since) == 0
    decreases hi
  {
    if lo < hi {
      assert states[hi - 1 + 1] == Next(states[hi - 1], events[hi - 1]);
      NoFailuresBefore(states, events, lo, hi - 1);
    }
  }

  /** A model that stays closed over a stretch of at most n minutes has at most 9(n + 1) 5xx
      failures in it: 18 in one minute. */
  lemma ClosedStretchHasFewFailures(states: seq<Option<Breaker>>, events: seq<Event>, lo: nat, hi: nat, minutes: nat)
    requires IsRun(states, events) && lo < hi <= |events| && StaysClosed(states, lo, hi)
    requires minutes >= 1 && events[hi - 1].at - events[lo].at <= minutes * (60 * SECOND)
    ensures Failures(events, lo, hi, events[lo].at) <= 9 * (minutes + 1)
  {
    if states[hi].None? {
      NoFailuresBefore(states, events, lo, hi);
    } else {
      var windows := ClosedStretchSpreads(states, events, lo, hi);
      RunIsSound(states, events, hi);
      CounterIsBacked(states, events, hi);
      assert windows <= minutes;
    }
  }

  function FailedTimes(b: Option<Breaker>, n: nat, at: int): Option<Breaker> {
    if n == 0 then b else Next(FailedTimes(b, n - 1, at), Failure(500, at))
  }

  lemma {:induction false} FailuresAddUp(b: Breaker, n: nat, at: int)
    requires b.phase == Closed && n < CB_FAILURE_THRESHOLD_5XX
    requires if at - b.windowStart > 60 * SECOND then true else b.fail5xx + n < CB_FAILURE_THRESHOLD_5XX
    ensures FailedTimes(Some(b), n, at)
         == if n == 0 then Some(b)
            else if at - b.windowStart > CB_WINDOW then Some(b.(fail429 := 0, fail5xx := n, windowStart := at))
            else Some(b.(fail5xx := b.fail5xx + n))
  {
    if n > 0 { FailuresAddUp(b, n - 1, at); }
  }

  /** The bound is tight, and so the threshold is not "ten in any minute": nine failures at the end
      of one window and nine at the start of the next, a nanosecond apart, leave the model closed. */
  lemma EighteenFailuresMayPass()
    ensures IsClosed(FailedTimes(FailedTimes(Next(None, CanRequest(0)), 9, 60 * SECOND), 9, 60 * SECOND + 1))
  {
    FailuresAddUp(NewBreaker(0), 9, CB_WINDOW);
    FailuresAddUp(NewBreaker(0).(fail5xx := 9), 9, CB_WINDOW + 1);
  }

  // ---------------------------------------------------------------- an outage lets few requests through

  /** No event of the stretch finds or leaves the breaker closed. */
  ghost predicate StaysTripped(states: seq<Option<Breaker>>, lo: nat, hi: nat)
    requires lo <= hi < |states|
  {
    forall i | lo <= i <= hi :: !IsClosed(states[i])
  }

  /** With the trip at `start`: how many probing episodes there were, and that each waited a minute. */
  ghost predicate Probed(b: Breaker, admissions: nat, start: int, now: int, episodes: nat) {
    match b.phase
    case Closed => false
    case Open =>
      admissions <= 3 * episodes && b.openUntil >= start + (episodes + 1) * CB_OPEN_DURATION
        && now >= start + episodes * CB_OPEN_DURATION
    case HalfOpen =>
      episodes >= 1 && admissions + 3 <= 3 * episodes + b.halfOpenAttempts && b.halfOpenAttempts <= 3
        && now >= start + episodes * CB_OPEN_DURATION
  }

  lemma {:induction false} OutageEpisodes(states: seq<Option<Breaker>>, events: seq<Event>, trip: nat, hi: nat)
    returns (episodes: nat)
    requires IsRun(states, events) && trip < hi <= |events| && Trips(states, trip) && StaysTripped(states, trip + 1, hi)
    ensures Probed(states[hi].value, Admissions(states, events, trip + 1, hi), events[trip].at, events[hi - 1].at,
                   episodes)
    decreases hi
  {
    assert states[hi - 1 + 1] == Next(states[hi - 1], events[hi - 1]);
    if hi == trip + 1 {
      TripNeedsTenFailures(states, events, trip);
      episodes := 0;
    } else {
      episodes := OutageEpisodes(states, events, trip, hi - 1);
      var e, before := events[hi - 1], states[hi - 1].value;
      assert events[hi - 2].at <= e.at;
      if e.CanRequest? && before.phase == Open && e.at >= before.openUntil { episodes := episodes + 1; }
    }
  }

  /** While a model that tripped has not closed again, at most three requests for each full minute
      since the trip are let through. */
  lemma OutageAdmitsFew(states: seq<Option<Breaker>>, events: seq<Event>, trip: nat, hi: nat)
    requires IsRun(states, events) && trip < hi <= |events| && Trips(states, trip) && StaysTripped(states, trip + 1, hi)
    ensures Admissions(states, events, trip + 1, hi) <= 3 * ((events[hi - 1].at - events[trip].at) / (60 * SECOND))
  {
    var episodes := OutageEpisodes(states, events, trip, hi);
    assert events[trip].at <= events[hi - 1].at;
    assert episodes <= (events[hi - 1].at - events[trip].at) / CB_OPEN_DURATION;
  }

  /** After a trip, and after a probe that failed: while the events come before the time that was set,
      the breaker stays as it is, and it admits exactly the first request at that time or later. */
  lemma {:induction false} OpenUntilItsTime(states: seq<Option<Breaker>>, events: seq<Event>, i: nat, j: nat)
    requires IsRun(states, events) && i < j < |events| && states[i + 1].Some? && states[i + 1].value.phase == Open
    requires !(states[i].Some? && states[i].value.phase == Open)
    requires forall k | i < k < j :: events[k].at < states[i + 1].value.openUntil
    ensures states[i + 1].value.openUntil == events[i].at + 60 * SECOND
    ensures states[j] == states[i + 1]
    ensures Admits(states[j], events[j].at) <==> events[j].at >= events[i].at + 60 * SECOND
    decreases j
  {
    assert states[i + 1] == Next(states[i], events[i]);
    if j > i + 1 {
      OpenUntilItsTime(states, events, i, j - 1);
      assert states[j - 1 + 1] == Next(states[j - 1], events[j - 1]);
    }
  }

  /** So a model that trips gets nothing through for a minute, whatever happens meanwhile. */
  lemma OpenAdmitsNothingEarly(states: seq<Option<Breaker>>, events: seq<Event>, trip: nat, j: nat)
    requires IsRun(states, events) && trip < j < |events| && Trips(states, trip)
    requires events[j].at < events[trip].at + 60 * SECOND
    ensures !Admits(states[j], events[j].at) && states[j + 1] == states[trip + 1]
  {
    TripNeedsTenFailures(states, events, trip);
    forall k | trip < k < j ensures events[k].at < states[trip + 1].value.openUntil {
      assert events[k].at <= events[j].at;
    }
    OpenUntilItsTime(states, events, trip, j);
    assert states[j + 1] == Next(states[j], events[j]);
  }

  // ---------------------------------------------------------------- how an outage ends

  /** A breaker that is not closed is closed by exactly one thing: a success while it is half open.
      Its counters are then zero. */
  lemma ClosesIff(states: seq<Option<Breaker>>, events: seq<Event>, i: nat)
    requires IsRun(states, events) && i < |events| && !IsClosed(states[i])
    ensures states[i + 1].Some?
    ensures states[i + 1].value.phase == Closed <==> states[i].value.phase == HalfOpen && events[i].Success?
    ensures states[i + 1].value.phase == Closed
            ==> states[i + 1].value.fail5xx == states[i + 1].value.fail429 == states[i + 1].value.halfOpenAttempts == 0
  {
    assert states[i + 1] == Next(states[i], events[i]);
  }

  /** From then on every request is admitted, whenever it comes, up to the next trip. */
  lemma ClosedAdmitsAll(states: seq<Option<Breaker>>, events: seq<Event>, i: nat, j: nat)
    requires IsRun(states, events) && i < j < |events| && !IsClosed(states[i]) && states[i].value.phase == HalfOpen
    requires events[i].Success? && events[j].CanRequest?
    requires forall k | i < k < j :: !Trips(states, k)
    ensures Admits(states[j], events[j].at) && states[j + 1] == states[j]
  {
    ClosesIff(states, events, i);
    StaysUntilTrip(states, events, i + 1, j);
    assert states[j + 1] == Next(states[j], events[j]);
  }

  lemma {:induction false} StaysUntilTrip(states: seq<Option<Breaker>>, events: seq<Event>, i: nat, j: nat)
    requires IsRun(states, events) && i <= j < |states| && IsClosed(states[i]) && states[i].Some?
    requires forall k | i <= k < j :: !Trips(states, k)
    ensures IsClosed(states[j]) && states[j].Some?
    decreases j
  {
    if i < j {
      StaysUntilTrip(states, events, i, j - 1);
      assert !Trips(states, j - 1);
      assert states[j - 1 + 1] == Next(states[j - 1], events[j - 1]);
    }
  }

  /** A probe that fails, with whatever status, reopens the breaker for a minute from then: no event
      before that is admitted or changes it, and the first request at that time or later is admitted. */
  lemma FailedProbeReopens(states: seq<Option<Breaker>>, events: seq<Event>, i: nat, j: nat)
    requires IsRun(states, events) && i < j < |events| && !IsClosed(states[i]) && states[i].value.phase == HalfOpen
    requires events[i].Failure? && forall k | i < k < j :: events[k].at < events[i].at + 60 * SECOND
    ensures states[j] == states[i + 1] && !IsClosed(states[j]) && states[j].value.phase == Open
    ensures Admits(states[j], events[j].at) <==> events[j].at >= events[i].at + 60 * SECOND
  {
    assert states[i + 1] == Next(states[i], events[i]);
    OpenUntilItsTime(states, events, i, j);
  }

  /** Event `p` is the request that finds the time of an open breaker over, and from then on the
      breaker has been half open. */
  ghost predicate ProbingSince(states: seq<Option<Breaker>>, events: seq<Event>, p: nat, j: nat)
    requires p < j <= |events| < |states|
  {
    && states[p].Some? && states[p].value.phase == Open && events[p].CanRequest?
    && forall k | p < k <= j :: states[k].Some? && states[k].value.phase == HalfOpen
  }

  lemma {:induction false} ProbesAreCounted(states: seq<Option<Breaker>>, events: seq<Event>, p: nat, j: nat)
    requires IsRun(states, events) && p < j <= |events| && ProbingSince(states, events, p, j)
    ensures Admissions(states, events, p, j) == states[j].value.halfOpenAttempts
    decreases j
  {
    assert states[j - 1 + 1] == Next(states[j - 1], events[j - 1]);
    if p + 1 < j {
      ProbesAreCounted(states, events, p, j - 1);
    } else {
      assert Admissions(states, events, p, p) == 0;
    }
  }

  /** While it is half open, a request is admitted exactly if fewer than three have been since it
      became so, the first of them the one that made it so. */
  lemma ProbesAdmittedIff(states: seq<Option<Breaker>>, events: seq<Event>, p: nat, j: nat, at: int)
    requires IsRun(states, events) && p < j <= |events| && ProbingSince(states, events, p, j)
    ensures Admits(states[j], at) <==> Admissions(states, events, p, j) < 3
  {
    ProbesAreCounted(states, events, p, j);
  }

  /** Only a report ends it: when three probes have been let through and none of them is heard of, no
      request is admitted ever again, at no time. */
  lemma {:induction false} SilentProbesBlock(states: seq<Option<Breaker>>, events: seq<Event>, p: nat, n: nat, j: nat)
    requires IsRun(states, events) && p < n <= j <= |events| && ProbingSince(states, events, p, n)
    requires Admissions(states, events, p, n) == 3 && forall k | n <= k < j :: events[k].CanRequest?
    ensures states[j] == states[n] && forall at :: !Admits(states[j], at)
    decreases j
  {
    ProbesAreCounted(states, events, p, n);
    if n < j {
      SilentProbesBlock(states, events, p, n, j - 1);
      assert states[j - 1 + 1] == Next(states[j - 1], events[j - 1]);
    }
  }
}
