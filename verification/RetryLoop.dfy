/** The retry loop of an ordinary chat request.

Everything the loop meets comes from outside: the scheduler as other tasks have left it, the
breaker's answers, clock readings, random numbers and upstream replies. They are the `Env` of
each attempt, so what is proved of the loop holds against every behaviour of the rest of the system.
*/
module RetryLoop {
  import opened Basics
  import opened Scheduler

  const RETRY_BASE_MS: nat := 500
  const RETRY_MAX_DELAY_MS: nat := 3000
  const MAX_TOTAL_WAIT_SECS: nat := 8
  const MILLISECOND: nat := 1_000_000

  datatype Reply =
    | Answered(status: nat, retryAfterSecs: Option<nat>)
    | ConnectionFailed

  datatype Env = Env(
    elapsed: nat,                 // nanoseconds since the loop began, read before the back-off
    random: nat,                  // the 64-bit draw of the jitter
    circuitAdmits: bool,
    scheduler: View, keys: seq<UpstreamKey>, now: int,
    keyDecrypts: bool, requestBuilds: bool,
    reply: Reply,
    streamCompletes: bool,        // a stream reached its end marker
    leaves: Option<Await>)        // where the client goes away during this attempt, if the attempt waits there

  /** Where a request waits. A client that goes away meanwhile takes the request with it. */
  datatype Await = Sleeping | Selecting | Executing | ReadingError | ReadingBody

  /** The key has begun by then. */
  predicate InsideAttempt(at: Await) { at.Executing? || at.ReadingError? || at.ReadingBody? }

  datatype LastError =
    | NoKey | WaitExceeded | CircuitOpen | SelectFailed(error: SelectError) | DecryptFailed | BuildFailed
    | Upstream(status: nat) | Connection

  datatype Verdict =
    | Served(id: string) | PassedThrough(status: nat) | Unavailable(error: LastError) | Dropped(at: Await)

  /** What the loop does to the scheduler and the breaker, in order. */
  datatype Effect =
    | Begin(id: string) | End(id: string)
    | Recorded(id: string, success: bool, status: nat)
    | BreakerSuccess | BreakerFailure(status: nat)

  datatype Sleep = Sleep(start: nat, millis: nat)

  predicate ShouldRetry(status: nat) { status in {429, 500, 502, 503, 504} }

  function ShiftLeft(x: nat, places: nat): nat { if places == 0 then x else 2 * ShiftLeft(x, places - 1) }

  // ---------------------------------------------------------------- one attempt

  datatype Next = Stop(verdict: Verdict) | Again(error: LastError, fastRetry: bool, retryAfterMs: Option<nat>)

  /** A success: the breaker hears of it at once, or for a stream once it completes; the key is
      released when the body has been read or the stream, which goes on by itself, has ended. */
  function SuccessEffects(id: string, status: nat, stream: bool, completes: bool): seq<Effect> {
    (if stream then [] else [BreakerSuccess]) + [Recorded(id, true, status)]
      + (if stream && completes then [BreakerSuccess] else []) + [End(id)]
  }

  /** What has happened when the client goes away while a body is read. */
  function UnreadEffects(id: string, status: nat): seq<Effect> { [BreakerSuccess] + [Recorded(id, true, status)] }

  /** A failure: breaker and scheduler both hear of it, the key is released. */
  function FailureEffects(id: string, status: nat): seq<Effect> {
    [BreakerFailure(status)] + [Recorded(id, false, status)] + [End(id)]
  }

  function ConnectionEffects(id: string): seq<Effect> {
    [Recorded(id, false, 0)] + [End(id)] + [BreakerFailure(0)]
  }

  /** What an attempt on a selected key does, and how the loop goes on. */
  function Exchange(env: Env, id: string, stream: bool): (seq<Effect>, Next) {
    if !env.keyDecrypts || !env.requestBuilds then
      ([End(id)], Again(if !env.keyDecrypts then DecryptFailed else BuildFailed, false, None))
    else if env.leaves == Some(Executing) then ([], Stop(Dropped(Executing)))
    else
      match env.reply
      case ConnectionFailed => (ConnectionEffects(id), Again(Connection, true, None))
      case Answered(status, retryAfter) =>
        if 200 <= status <= 299 then
          if !stream && env.leaves == Some(ReadingBody) then (UnreadEffects(id, status), Stop(Dropped(ReadingBody)))
          else (SuccessEffects(id, status, stream, env.streamCompletes), Stop(Served(id)))
        else if env.leaves == Some(ReadingError) then ([], Stop(Dropped(ReadingError)))
        else
          (FailureEffects(id, status),
           if !ShouldRetry(status) then Stop(PassedThrough(status))
           else Again(Upstream(status), false,
             if status == 429 && retryAfter.Some? then
               Some(MinNat(retryAfter.value * 1000 % U64, RETRY_MAX_DELAY_MS * 4))
             else None))
  }

  /** Milliseconds to sleep: the upstream's wish or a full jitter, within what is left of the budget. */
  function BackOff(attempt: nat, elapsedSecs: nat, retryAfterMs: Option<nat>, random: nat): (wait: nat)
    requires elapsedSecs < MAX_TOTAL_WAIT_SECS
    ensures wait <= (MAX_TOTAL_WAIT_SECS - elapsedSecs) * 1000
    ensures retryAfterMs.None? ==> wait <= RETRY_MAX_DELAY_MS
  {
    var cap := MinNat(RETRY_MAX_DELAY_MS, ShiftLeft(RETRY_BASE_MS, MinNat(attempt, 4)));
    var wait := if retryAfterMs.Some? then retryAfterMs.value else random % (cap + 1);
    var budgetMs := (MAX_TOTAL_WAIT_SECS - elapsedSecs) * 1000;
    MinNat(wait, MaxNat(budgetMs, 100))
  }

  /** The loop's variables between two attempts. */
  datatype Loop = Loop(used: seq<string>, effects: seq<Effect>, sleeps: seq<Sleep>, error: LastError, fastRetry: bool,
                       retryAfterMs: Option<nat>)

  const Unstarted: Loop := Loop([], [], [], NoKey, false, None)

  /** The wait before an attempt: none before the first and before a fast retry; it ends the loop
      when the budget is used up or the client leaves. */
  function Paused(env: Env, attempt: nat, l: Loop): Result<Loop, Verdict> {
    var ready := l.(fastRetry := false, retryAfterMs := None);
    if attempt == 0 then Ok(l)
    else if l.fastRetry then Ok(ready)
    else if env.elapsed / SECOND >= MAX_TOTAL_WAIT_SECS then Err(Unavailable(WaitExceeded))
    else if env.leaves == Some(Sleeping) then Err(Dropped(Sleeping))
    else
      Ok(ready.(sleeps := l.sleeps + [Sleep(env.elapsed,
                                            BackOff(attempt, env.elapsed / SECOND, l.retryAfterMs, env.random))]))
  }

  /** A selection, and the exchange with the selected key. */
  function Tried(env: Env, model: string, stream: bool, l: Loop): (Loop, Option<Verdict>) {
    var r := Select(env.scheduler, env.keys, model, SetOf(l.used), env.now).1;
    if r.Err? then (l.(error := SelectFailed(r.error)), None)
    else
      var (more, next) := Exchange(env, r.value.id, stream);
      var after := l.(used := l.used + [r.value.id], effects := l.effects + [Begin(r.value.id)] + more);
      match next
      case Stop(v) => (after, Some(v))
      case Again(error, fast, wish) => (after.(error := error, fastRetry := fast, retryAfterMs := wish), None)
  }

  function Attempted(env: Env, attempt: nat, model: string, stream: bool, l: Loop): (Loop, Option<Verdict>) {
    var ready := Paused(env, attempt, l);
    if ready.Err? then (l, Some(ready.error))
    else if !env.circuitAdmits then (ready.value, Some(Unavailable(CircuitOpen)))
    else if env.leaves == Some(Selecting) then (ready.value, Some(Dropped(Selecting)))
    else Tried(env, model, stream, ready.value)
  }

  /** Nothing follows an attempt that ended the loop. */
  function Continued(env: Env, attempt: nat, model: string, stream: bool, r: (Loop, Option<Verdict>))
    : (Loop, Option<Verdict>)
  {
    if r.1.Some? then r else Attempted(env, attempt, model, stream, r.0)
  }

  function Step(model: string, stream: bool): (Env, nat, (Loop, Option<Verdict>)) -> (Loop, Option<Verdict>) {
    (env: Env, attempt: nat, r: (Loop, Option<Verdict>)) => Continued(env, attempt, model, stream, r)
  }

  /** The first `n` attempts, up to one that ends the loop. */
  function Attempts(envs: seq<Env>, model: string, stream: bool, n: nat): (Loop, Option<Verdict>)
    requires n <= |envs|
  {
    Iterated(Step(model, stream), (Unstarted, None), envs, n)
  }

  function Outcome(envs: seq<Env>, model: string, stream: bool): (Loop, Verdict) {
    var (l, v) := Attempts(envs, model, stream, |envs|);
    (l, if v.Some? then v.value else Unavailable(l.error))
  }

  // ---------------------------------------------------------------- the loop

  lemma StoppedForGood(envs: seq<Env>, model: string, stream: bool, k: nat, n: nat)
    requires k <= n <= |envs| && Attempts(envs, model, stream, k).1.Some?
    ensures Attempts(envs, model, stream, n) == Attempts(envs, model, stream, k)
  {
    var r := Attempts(envs, model, stream, k);
    forall i, e ensures Step(model, stream)(e, i, r) == r {}
    IteratedStays(Step(model, stream), (Unstarted, None), envs, k, n);
  }

  lemma OneMoreAttempt(envs: seq<Env>, model: string, stream: bool, n: nat)
    requires n < |envs|
    ensures Attempts(envs, model, stream, n + 1)
            == Continued(envs[n], n, model, stream, Attempts(envs, model, stream, n))
  {
  }

  /** `envs` holds one entry for each attempt the loop may make. */
  method ChatCompletions(envs: seq<Env>, model: string, stream: bool) returns (l: Loop, verdict: Verdict)
    ensures (l, verdict) == Outcome(envs, model, stream)
  {
    var tried: set<string> := {};
    l := Unstarted;
    for attempt := 0 to |envs|
      invariant tried == SetOf(l.used) && Attempts(envs, model, stream, attempt) == (l, None)
    {
      var stop;
      l, tried, stop := Attempt(envs[attempt], attempt, model, stream, l, tried);
      OneMoreAttempt(envs, model, stream, attempt);
      if stop.Some? {
        StoppedForGood(envs, model, stream, attempt + 1, |envs|);
        return l, stop.value;
      }
    }
    verdict := Unavailable(l.error);
  }

  /** One turn of the loop: the wait, the breaker's answer, a selection, the exchange. */
  method Attempt(env: Env, attempt: nat, model: string, stream: bool, before: Loop, tried: set<string>)
      returns (l: Loop, triedNow: set<string>, stop: Option<Verdict>)
    requires tried == SetOf(before.used)
    ensures (l, stop) == Attempted(env, attempt, model, stream, before) && triedNow == SetOf(l.used)
  {
    l, triedNow, stop := before, tried, None;
    if attempt > 0 {
      if !l.fastRetry {
        var elapsedSecs := env.elapsed / SECOND;
        if elapsedSecs >= MAX_TOTAL_WAIT_SECS {
          stop := Some(Unavailable(WaitExceeded));
          return;
        }
        if env.leaves == Some(Sleeping) {
          stop := Some(Dropped(Sleeping));
          return;
        }
        l := l.(sleeps := l.sleeps + [Sleep(env.elapsed, BackOff(attempt, elapsedSecs, l.retryAfterMs, env.random))]);
      }
      l := l.(fastRetry := false, retryAfterMs := None);
    }
    if !env.circuitAdmits {
      stop := Some(Unavailable(CircuitOpen));
      return;
    }
    if env.leaves == Some(Selecting) {
      stop := Some(Dropped(Selecting));
      return;
    }
    l, triedNow, stop := TryKey(env, model, stream, l, triedNow);
  }

  /** Selects a key not tried before and tries it. */
  method TryKey(env: Env, model: string, stream: bool, l: Loop, tried: set<string>)
    returns (after: Loop, triedNow: set<string>, stop: Option<Verdict>)
    requires tried == SetOf(l.used)
    ensures (after, stop) == Tried(env, model, stream, l) && triedNow == SetOf(after.used)
    ensures after.sleeps == l.sleeps
  {
    var (_, selected) := Select(env.scheduler, env.keys, model, tried, env.now);
    if selected.Err? {
      return l.(error := SelectFailed(selected.error)), tried, None;
    }
    var id := selected.value.id;
    triedNow := tried + {id};
    after := l.(used := l.used + [id], effects := l.effects + [Begin(id)]);
    var more, next := Converse(env, id, stream);
    after := after.(effects := after.effects + more);
    match next
    case Stop(v) =>
      stop := Some(v);
    case Again(error, fast, wish) =>
      after, stop := after.(error := error, fastRetry := fast, retryAfterMs := wish), None;
  }

  /** The exchange with the upstream, step by step. */
  method Converse(env: Env, id: string, stream: bool) returns (effects: seq<Effect>, next: Next)
    ensures (effects, next) == Exchange(env, id, stream)
  {
    if !env.keyDecrypts {
      return [End(id)], Again(DecryptFailed, false, None);
    }
    if !env.requestBuilds {
      return [End(id)], Again(BuildFailed, false, None);
    }
    if env.leaves == Some(Executing) {
      return [], Stop(Dropped(Executing));
    }
    match env.reply
    case Answered(status, retryAfter) =>
      if 200 <= status <= 299 {
        if !stream && env.leaves == Some(ReadingBody) {
          effects := [BreakerSuccess];
          effects := effects + [Recorded(id, true, status)];
          return effects, Stop(Dropped(ReadingBody));
        }
        effects := Succeed(id, status, stream, env.streamCompletes);
        return effects, Stop(Served(id));
      }
      var wish: Option<nat> := None;
      if status == 429 && retryAfter.Some? {
        wish := Some(MinNat(retryAfter.value * 1000 % U64, RETRY_MAX_DELAY_MS * 4));
      }
      if env.leaves == Some(ReadingError) {
        return [], Stop(Dropped(ReadingError));
      }
      effects := [BreakerFailure(status)];
      effects := effects + [Recorded(id, false, status)];
      effects := effects + [End(id)];
      next := if ShouldRetry(status) then Again(Upstream(status), false, wish) else Stop(PassedThrough(status));
    case ConnectionFailed =>
      effects := [Recorded(id, false, 0)];
      effects := effects + [End(id)];
      effects := effects + [BreakerFailure(0)];
      next := Again(Connection, true, None);
  }

  /** At once for the scheduler, at once or at the end of the stream for the breaker. */
  method Succeed(id: string, status: nat, stream: bool, completes: bool) returns (effects: seq<Effect>)
    ensures effects == SuccessEffects(id, status, stream, completes)
  {
    effects := [];
    if !stream {
      effects := effects + [BreakerSuccess];
    }
    effects := effects + [Recorded(id, true, status)];
    if stream && completes {
      effects := effects + [BreakerSuccess];
    }
    effects := effects + [End(id)];
  }
}
