/** What ends the retry loop and what it waits for, attempt by attempt, in terms of the upstream's replies. */
module RetryVerdicts {
  import opened Basics
  import opened Scheduler
  import opened SchedulerRuns
  import opened RetryLoop
  import opened RetryRuns

  /** Attempt `i` is reached, and a key begins in it. */
  ghost predicate BeginsKey(envs: seq<Env>, model: string, stream: bool, i: nat)
    requires i < |envs|
  {
    |Attempts(envs, model, stream, i + 1).0.used| > |Attempts(envs, model, stream, i).0.used|
  }

  /** The request goes out and its reply comes in. */
  predicate Exchanged(env: Env) { env.keyDecrypts && env.requestBuilds && env.leaves != Some(Executing) }

  predicate LosesConnection(env: Env) { Exchanged(env) && env.reply.ConnectionFailed? }

  /** The reply is an answer with this status that is no success, and its body is read. */
  predicate ReadsError(env: Env, status: nat) {
    Exchanged(env) && env.reply.Answered? && env.reply.status == status && !(200 <= status <= 299)
    && env.leaves != Some(ReadingError)
  }

  /** The reply is a success whose body, if it is not streamed, is read. */
  predicate ReadsSuccess(env: Env, stream: bool) {
    Exchanged(env) && env.reply.Answered? && 200 <= env.reply.status <= 299
    && (stream || env.leaves != Some(ReadingBody))
  }

  /** The seconds that a 429 wishes for. */
  function WishOf(env: Env): Option<nat> { if ReadsError(env, 429) then env.reply.retryAfterSecs else None }

  /** At most twelve seconds, in milliseconds of 64 bits. */
  function Granted(wish: Option<nat>): Option<nat> {
    if wish.None? then None else Some(MinNat(wish.value * 1000 % 0x1_0000_0000_0000_0000, 12_000))
  }

  // ---------------------------------------------------------------- one exchange

  lemma ErrorEnds(env: Env, id: string, stream: bool, status: nat)
    requires ReadsError(env, status)
    ensures var next := Exchange(env, id, stream).1;
            if status in {429, 500, 502, 503, 504} then next == Again(Upstream(status), false, Granted(WishOf(env)))
            else next == Stop(PassedThrough(status))
  {
  }

  lemma SuccessEnds(env: Env, id: string, stream: bool)
    requires ReadsSuccess(env, stream)
    ensures Exchange(env, id, stream).1 == Stop(Served(id))
  {
  }

  lemma ConnectionEnds(env: Env, id: string, stream: bool)
    requires LosesConnection(env)
    ensures Exchange(env, id, stream).1 == Again(Connection, true, None)
  {
  }

  /** There is no other way for an exchange to end well or with an error passed on, or to ask for
      another attempt without a sleep or after a wish. */
  lemma OtherEnds(env: Env, id: string, stream: bool)
    ensures match Exchange(env, id, stream).1
            case Stop(PassedThrough(status)) => ReadsError(env, status)
            case Stop(Served(_)) => ReadsSuccess(env, stream)
            case Stop(_) => true
            case Again(_, fast, wish) =>
              && (fast ==> LosesConnection(env)) && wish == Granted(WishOf(env))
              && (env.keyDecrypts && env.requestBuilds && env.reply.Answered?
                  ==> env.reply.status in {429, 500, 502, 503, 504})
  {
  }

  lemma ExchangeEndsItself(env: Env, id: string, stream: bool)
    ensures Exchange(env, id, stream).1.Stop? ==> !Exchange(env, id, stream).1.verdict.Unavailable?
  {
  }

  // ---------------------------------------------------------------- one attempt

  /** Trying a key sleeps no more; without a key it changes the error only. */
  lemma TriedKeepsSleeps(env: Env, model: string, stream: bool, l: Loop)
    ensures var (after, stop) := Tried(env, model, stream, l);
            && after.sleeps == l.sleeps && (stop.Some? ==> !stop.value.Unavailable?)
            && (|after.used| <= |l.used| ==> stop.None? && after == l.(error := after.error))
  {
    var r := Select(env.scheduler, env.keys, model, SetOf(l.used), env.now).1;
    if r.Ok? {
      ExchangeEndsItself(env, r.value.id, stream);
      assert |l.used + [r.value.id]| == |l.used| + 1;
    }
  }

  /** An attempt in which a key begins goes as the exchange with it. */
  lemma KeyDecides(env: Env, attempt: nat, model: string, stream: bool, l: Loop) returns (id: string)
    requires |Attempted(env, attempt, model, stream, l).0.used| > |l.used|
    ensures var (after, stop) := Attempted(env, attempt, model, stream, l);
            && after.used == l.used + [id]
            && match Exchange(env, id, stream).1
               case Stop(v) => stop == Some(v)
               case Again(_, fast, wish) => stop == None && after.fastRetry == fast && after.retryAfterMs == wish
  {
    var ready := Paused(env, attempt, l);
    id := Select(env.scheduler, env.keys, model, SetOf(ready.value.used), env.now).1.value.id;
  }

  /** And one in which none does ends without an upstream's verdict, if at all. */
  lemma NoKeyNoVerdict(env: Env, attempt: nat, model: string, stream: bool, l: Loop)
    requires |Attempted(env, attempt, model, stream, l).0.used| <= |l.used|
    requires attempt == 0 ==> !l.fastRetry && l.retryAfterMs.None?
    ensures var (after, stop) := Attempted(env, attempt, model, stream, l);
            && (stop.Some? ==> stop.value.Unavailable? || stop.value.Dropped?)
            && (stop.None? ==> !after.fastRetry && after.retryAfterMs.None?)
  {
    var ready := Paused(env, attempt, l);
    if ready.Ok? {
      assert ready.value.used == l.used;
      TriedKeepsSleeps(env, model, stream, ready.value);
    }
  }

  // ---------------------------------------------------------------- what ends the loop

  lemma Ends(envs: seq<Env>, model: string, stream: bool, i: nat)
    requires i < |envs| && Attempts(envs, model, stream, i + 1).1.Some?
    ensures Outcome(envs, model, stream)
            == (Attempts(envs, model, stream, i + 1).0, Attempts(envs, model, stream, i + 1).1.value)
  {
    StoppedForGood(envs, model, stream, i + 1, |envs|);
  }

  /** The attempt follows others that did not end the loop. */
  lemma KeyBeginsWhileRunning(envs: seq<Env>, model: string, stream: bool, i: nat)
    requires i < |envs| && BeginsKey(envs, model, stream, i)
    ensures Attempts(envs, model, stream, i).1.None?
    ensures Attempts(envs, model, stream, i + 1)
            == Attempted(envs[i], i, model, stream, Attempts(envs, model, stream, i).0)
  {
    OneMoreAttempt(envs, model, stream, i);
  }

  lemma {:induction false} StoppedIn(envs: seq<Env>, model: string, stream: bool, n: nat) returns (i: nat)
    requires n <= |envs| && Attempts(envs, model, stream, n).1.Some?
    ensures i < n && Attempts(envs, model, stream, i).1.None?
    ensures Attempts(envs, model, stream, n) == Attempts(envs, model, stream, i + 1)
            == Attempted(envs[i], i, model, stream, Attempts(envs, model, stream, i).0)
  {
    assert Attempts(envs, model, stream, 0).1.None?;
    OneMoreAttempt(envs, model, stream, n - 1);
    if Attempts(envs, model, stream, n - 1).1.None? { i := n - 1; } else { i := StoppedIn(envs, model, stream, n - 1); }
  }

  /** The attempt that a verdict of an upstream comes from. */
  lemma VerdictComesFrom(envs: seq<Env>, model: string, stream: bool) returns (i: nat)
    requires var v := Outcome(envs, model, stream).1; v.PassedThrough? || v.Served?
    ensures var v := Outcome(envs, model, stream).1;
            && i < |envs| && BeginsKey(envs, model, stream, i) && Attempts(envs, model, stream, i + 1).1 == Some(v)
            && (v.PassedThrough? ==> ReadsError(envs[i], v.status))
            && (v.Served? ==> ReadsSuccess(envs[i], stream))
  {
    i := StoppedIn(envs, model, stream, |envs|);
    assert Attempts(envs, model, stream, 0) == (Unstarted, None);
    var l := Attempts(envs, model, stream, i).0;
    if !BeginsKey(envs, model, stream, i) {
      NoKeyNoVerdict(envs[i], i, model, stream, l);
    } else {
      var id := KeyDecides(envs[i], i, model, stream, l);
      OtherEnds(envs[i], id, stream);
    }
  }

  lemma ErrorIsVerdict(envs: seq<Env>, model: string, stream: bool, i: nat, status: nat)
    requires i < |envs| && BeginsKey(envs, model, stream, i) && ReadsError(envs[i], status)
    ensures if status in {429, 500, 502, 503, 504} then Attempts(envs, model, stream, i + 1).1.None?
            else Outcome(envs, model, stream).1 == PassedThrough(status)
  {
    KeyBeginsWhileRunning(envs, model, stream, i);
    var id := KeyDecides(envs[i], i, model, stream, Attempts(envs, model, stream, i).0);
    ErrorEnds(envs[i], id, stream, status);
    if status !in {429, 500, 502, 503, 504} { Ends(envs, model, stream, i); }
  }

  lemma SuccessIsVerdict(envs: seq<Env>, model: string, stream: bool, i: nat)
    requires i < |envs| && BeginsKey(envs, model, stream, i) && ReadsSuccess(envs[i], stream)
    ensures Outcome(envs, model, stream).1.Served?
  {
    KeyBeginsWhileRunning(envs, model, stream, i);
    var id := KeyDecides(envs[i], i, model, stream, Attempts(envs, model, stream, i).0);
    SuccessEnds(envs[i], id, stream);
    Ends(envs, model, stream, i);
  }

  /** An upstream error is passed on to the client exactly if some key that is tried gets an answer
      other than a success and other than 429, 500, 502, 503 and 504. */
  lemma PassedThroughIff(envs: seq<Env>, model: string, stream: bool, status: nat)
    ensures Outcome(envs, model, stream).1 == PassedThrough(status)
       <==> status !in {429, 500, 502, 503, 504}
            && exists i | 0 <= i < |envs| :: BeginsKey(envs, model, stream, i) && ReadsError(envs[i], status)
  {
    if Outcome(envs, model, stream).1 == PassedThrough(status) {
      var i := VerdictComesFrom(envs, model, stream);
      ErrorIsVerdict(envs, model, stream, i, status);
    }
    if i: nat :| i < |envs| && BeginsKey(envs, model, stream, i) && ReadsError(envs[i], status) {
      ErrorIsVerdict(envs, model, stream, i, status);
    }
  }

  /** And the request is served exactly if some key that is tried gets a success that can be read. */
  lemma ServedIff(envs: seq<Env>, model: string, stream: bool)
    ensures Outcome(envs, model, stream).1.Served?
       <==> exists i | 0 <= i < |envs| :: BeginsKey(envs, model, stream, i) && ReadsSuccess(envs[i], stream)
  {
    if Outcome(envs, model, stream).1.Served? {
      var i := VerdictComesFrom(envs, model, stream);
    }
    if i: nat :| i < |envs| && BeginsKey(envs, model, stream, i) && ReadsSuccess(envs[i], stream) {
      SuccessIsVerdict(envs, model, stream, i);
    }
  }

  /** The attempt meets nothing but failures that another key might not have. */
  predicate Transient(env: Env) {
    env.circuitAdmits && env.leaves.None? && env.elapsed < 8 * SECOND
    && (env.reply.Answered? ==> env.reply.status in {429, 500, 502, 503, 504})
  }

  lemma TransientNoKey(env: Env, attempt: nat, model: string, stream: bool, l: Loop)
    requires Transient(env) && |Attempted(env, attempt, model, stream, l).0.used| <= |l.used|
    ensures Attempted(env, attempt, model, stream, l).1.None?
  {
    var ready := Paused(env, attempt, l);
    assert ready.Ok? && ready.value.used == l.used;
    var r := Select(env.scheduler, env.keys, model, SetOf(ready.value.used), env.now).1;
    assert r.Ok? ==> |ready.value.used + [r.value.id]| > |l.used|;
  }

  lemma TransientStep(env: Env, attempt: nat, model: string, stream: bool, l: Loop)
    requires Transient(env)
    ensures Attempted(env, attempt, model, stream, l).1.None?
  {
    if |Attempted(env, attempt, model, stream, l).0.used| > |l.used| {
      var id := KeyDecides(env, attempt, model, stream, l);
      if LosesConnection(env) {
        ConnectionEnds(env, id, stream);
      } else if Exchanged(env) {
        ErrorEnds(env, id, stream, env.reply.status);
      }
    } else {
      TransientNoKey(env, attempt, model, stream, l);
    }
  }

  lemma {:induction false} TransientGoesOn(envs: seq<Env>, model: string, stream: bool, n: nat)
    requires n <= |envs| && forall i | 0 <= i < |envs| :: Transient(envs[i])
    ensures Attempts(envs, model, stream, n).1.None?
  {
    if n > 0 {
      TransientGoesOn(envs, model, stream, n - 1);
      OneMoreAttempt(envs, model, stream, n - 1);
      TransientStep(envs[n - 1], n - 1, model, stream, Attempts(envs, model, stream, n - 1).0);
    }
  }

  /** On a stable pool, when every exchange ends with one of those five statuses, without a connection
      or before it is sent, the loop tries as many keys as there are attempts or keys in scope. */
  lemma TransientFailuresTryAllKeys(envs: seq<Env>, model: string, stream: bool, keys: seq<UpstreamKey>)
    requires StablePool(envs, keys) && forall i | 0 <= i < |envs| :: Transient(envs[i])
    ensures var (l, verdict) := Outcome(envs, model, stream);
            verdict.Unavailable? && |l.used| == MinNat(|envs|, |ScopeIds(keys, model)|)
  {
    TransientGoesOn(envs, model, stream, |envs|);
    AttemptsProgress(envs, model, stream, keys, |envs|);
  }

  // ---------------------------------------------------------------- what the loop waits for

  /** The longest drawn wait before attempt `n`, in milliseconds: one second, two, and then three. */
  function LongestWait(n: nat): nat { if n == 1 then 1000 else if n == 2 then 2000 else 3000 }

  /** Without a wish of the upstream, the waits before an attempt are exactly those up to the longest
      one and up to what is left of eight seconds: none is longer, and each is drawn. */
  lemma WaitsAre(n: nat, elapsedSecs: nat, random: nat, wait: nat)
    requires n >= 1 && elapsedSecs < 8
    ensures BackOff(n, elapsedSecs, None, random) <= MinNat(LongestWait(n), (8 - elapsedSecs) * 1000)
    ensures wait <= MinNat(LongestWait(n), (8 - elapsedSecs) * 1000) ==> BackOff(n, elapsedSecs, None, wait) == wait
  {
    assert ShiftLeft(500, 0) == 500 && ShiftLeft(500, 1) == 1000 && ShiftLeft(500, 2) == 2000
           && ShiftLeft(500, 3) == 4000 && ShiftLeft(500, 4) == 8000;
  }

  /** The previous attempt ended without a connection. */
  ghost predicate LostBefore(envs: seq<Env>, model: string, stream: bool, n: nat)
    requires 0 < n <= |envs|
  {
    BeginsKey(envs, model, stream, n - 1) && LosesConnection(envs[n - 1])
  }

  /** The wish of the previous attempt's upstream. */
  ghost function WishBefore(envs: seq<Env>, model: string, stream: bool, n: nat): Option<nat>
    requires 0 < n <= |envs|
  {
    if BeginsKey(envs, model, stream, n - 1) then WishOf(envs[n - 1]) else None
  }

  lemma KeyLeavesFlags(env: Env, attempt: nat, model: string, stream: bool, l: Loop)
    requires var (after, stop) := Attempted(env, attempt, model, stream, l); stop.None? && |after.used| > |l.used|
    ensures var after := Attempted(env, attempt, model, stream, l).0;
            after.fastRetry == LosesConnection(env) && after.retryAfterMs == Granted(WishOf(env))
  {
    var id := KeyDecides(env, attempt, model, stream, l);
    OtherEnds(env, id, stream);
    if LosesConnection(env) { ConnectionEnds(env, id, stream); }
  }

  lemma AttemptLeavesFlags(env: Env, attempt: nat, model: string, stream: bool, l: Loop, after: Loop)
    requires Attempted(env, attempt, model, stream, l) == (after, None)
    requires attempt == 0 ==> !l.fastRetry && l.retryAfterMs.None?
    ensures after.fastRetry == (|after.used| > |l.used| && LosesConnection(env))
    ensures after.retryAfterMs == if |after.used| > |l.used| then Granted(WishOf(env)) else None
  {
    if |after.used| > |l.used| {
      KeyLeavesFlags(env, attempt, model, stream, l);
    } else {
      NoKeyNoVerdict(env, attempt, model, stream, l);
    }
  }

  lemma RunningBefore(envs: seq<Env>, model: string, stream: bool, n: nat)
    requires 0 < n <= |envs| && Attempts(envs, model, stream, n).1.None?
    ensures Attempted(envs[n - 1], n - 1, model, stream, Attempts(envs, model, stream, n - 1).0)
         == (Attempts(envs, model, stream, n).0, None)
    ensures n == 1 ==> Attempts(envs, model, stream, n - 1).0 == Unstarted
  {
    OneMoreAttempt(envs, model, stream, n - 1);
  }

  lemma FlagsTell(envs: seq<Env>, model: string, stream: bool, n: nat)
    requires 0 < n <= |envs| && Attempts(envs, model, stream, n).1.None?
    ensures var l := Attempts(envs, model, stream, n).0;
            && l.fastRetry == LostBefore(envs, model, stream, n)
            && l.retryAfterMs == Granted(WishBefore(envs, model, stream, n))
  {
    RunningBefore(envs, model, stream, n);
    AttemptLeavesFlags(envs[n - 1], n - 1, model, stream, Attempts(envs, model, stream, n - 1).0,
                       Attempts(envs, model, stream, n).0);
  }

  /** A sleep of the granted length, or of a drawn one, within what is left of eight seconds. */
  ghost predicate SleepFits(s: Sleep, n: nat, env: Env, wish: Option<nat>) {
    && s.start == env.elapsed < 8 * SECOND
    && (wish.Some? ==> s.millis == MinNat(wish.value, (8 - env.elapsed / SECOND) * 1000))
    && (wish.None? ==> s.millis == BackOff(n, env.elapsed / SECOND, None, env.random))
  }

  lemma PauseOf(env: Env, n: nat, l: Loop)
    requires n > 0
    ensures var r := Paused(env, n, l);
            if l.fastRetry then r.Ok? && r.value.sleeps == l.sleeps
            else if env.elapsed >= 8 * SECOND then r == Err(Unavailable(WaitExceeded))
            else if env.leaves == Some(Sleeping) then r == Err(Dropped(Sleeping))
            else r.Ok? && exists s :: r.value.sleeps == l.sleeps + [s] && SleepFits(s, n, env, l.retryAfterMs)
  {
    var r := Paused(env, n, l);
    if !l.fastRetry && r.Ok? {
      var s := r.value.sleeps[|l.sleeps|];
      assert r.value.sleeps == l.sleeps + [s] && SleepFits(s, n, env, l.retryAfterMs);
    }
  }

  lemma SleepsOfAttempt(env: Env, n: nat, model: string, stream: bool, l: Loop)
    ensures var (after, stop) := Attempted(env, n, model, stream, l);
            var ready := Paused(env, n, l);
            && (ready.Ok? ==> after.sleeps == ready.value.sleeps && stop != Some(Unavailable(WaitExceeded)))
            && (ready.Err? ==> after == l && stop == Some(ready.error))
  {
    var ready := Paused(env, n, l);
    if ready.Ok? { TriedKeepsSleeps(env, model, stream, ready.value); }
  }

  /** What comes before attempt `n`, after others that did not end the loop: nothing after a lost
      connection; otherwise the end if eight seconds are over, and else one sleep, of the seconds that
      a 429 wished for, at most twelve, or of a drawn length, and within the eight seconds. */
  lemma PauseIs(envs: seq<Env>, model: string, stream: bool, n: nat)
    requires 0 < n < |envs| && Attempts(envs, model, stream, n).1.None?
    ensures var l, (after, stop) := Attempts(envs, model, stream, n).0, Attempts(envs, model, stream, n + 1);
            if LostBefore(envs, model, stream, n) then
              after.sleeps == l.sleeps && stop != Some(Unavailable(WaitExceeded))
            else if envs[n].elapsed >= 8 * SECOND then after == l && stop == Some(Unavailable(WaitExceeded))
            else if envs[n].leaves == Some(Sleeping) then after == l && stop == Some(Dropped(Sleeping))
            else
              && stop != Some(Unavailable(WaitExceeded))
              && exists s :: after.sleeps == l.sleeps + [s]
                             && SleepFits(s, n, envs[n], Granted(WishBefore(envs, model, stream, n)))
  {
    FlagsTell(envs, model, stream, n);
    OneMoreAttempt(envs, model, stream, n);
    PauseOf(envs[n], n, Attempts(envs, model, stream, n).0);
    SleepsOfAttempt(envs[n], n, model, stream, Attempts(envs, model, stream, n).0);
  }

  // ---------------------------------------------------------------- what stops an attempt before its key

  /** The wait before attempt `n` is over, or there is none. */
  ghost predicate Waited(envs: seq<Env>, model: string, stream: bool, n: nat)
    requires n < |envs|
  {
    n == 0 || LostBefore(envs, model, stream, n)
    || (envs[n].elapsed < 8 * SECOND && envs[n].leaves != Some(Sleeping))
  }

  lemma AttemptGoesOn(env: Env, n: nat, model: string, stream: bool, l: Loop, ready: Loop)
    requires Paused(env, n, l) == Ok(ready)
    ensures ready.used == l.used && ready.effects == l.effects
    ensures var (after, stop) := Attempted(env, n, model, stream, l);
            && (!env.circuitAdmits ==> after == ready && stop == Some(Unavailable(CircuitOpen)))
            && (env.circuitAdmits && env.leaves == Some(Selecting)
                ==> after == ready && stop == Some(Dropped(Selecting)))
            && (env.circuitAdmits && env.leaves != Some(Selecting)
                ==> (after, stop) == Tried(env, model, stream, ready))
  {
  }

  lemma TrySelects(env: Env, model: string, stream: bool, l: Loop)
    ensures var r := Select(env.scheduler, env.keys, model, SetOf(l.used), env.now).1;
            var (after, stop) := Tried(env, model, stream, l);
            if r.Ok? then after.used == l.used + [r.value.id]
            else after == l.(error := SelectFailed(r.error)) && stop == None
  {
  }

  lemma WaitedIsReady(envs: seq<Env>, model: string, stream: bool, n: nat) returns (ready: Loop)
    requires n < |envs| && Attempts(envs, model, stream, n).1.None? && Waited(envs, model, stream, n)
    ensures Paused(envs[n], n, Attempts(envs, model, stream, n).0) == Ok(ready)
  {
    var l := Attempts(envs, model, stream, n).0;
    if n > 0 {
      FlagsTell(envs, model, stream, n);
      PauseOf(envs[n], n, l);
    }
    ready := Paused(envs[n], n, l).value;
  }

  /** After the wait, an attempt ends the loop if the breaker refuses or the client goes away during the
      selection, without touching any key; otherwise the selection decides whether a key begins, and if
      it fails the loop goes on. */
  lemma GateIs(envs: seq<Env>, model: string, stream: bool, n: nat)
    requires n < |envs| && Attempts(envs, model, stream, n).1.None? && Waited(envs, model, stream, n)
    ensures var env, l, (after, stop) :=
              envs[n], Attempts(envs, model, stream, n).0, Attempts(envs, model, stream, n + 1);
            var r := Select(env.scheduler, env.keys, model, SetOf(l.used), env.now).1;
            if !env.circuitAdmits then
              stop == Some(Unavailable(CircuitOpen)) && after.used == l.used && after.effects == l.effects
            else if env.leaves == Some(Selecting) then
              stop == Some(Dropped(Selecting)) && after.used == l.used && after.effects == l.effects
            else if r.Ok? then after.used == l.used + [r.value.id]
            else
              stop == None && after.used == l.used && after.effects == l.effects && after.error == SelectFailed(r.error)
  {
    OneMoreAttempt(envs, model, stream, n);
    var ready := WaitedIsReady(envs, model, stream, n);
    AttemptGoesOn(envs[n], n, model, stream, Attempts(envs, model, stream, n).0, ready);
    TrySelects(envs[n], model, stream, ready);
  }

  // ---------------------------------------------------------------- the last error

  /** What an exchange says that does not end the loop. */
  function ErrorOf(env: Env): LastError {
    if !env.keyDecrypts then DecryptFailed
    else if !env.requestBuilds then BuildFailed
    else
      match env.reply
      case ConnectionFailed => Connection
      case Answered(status, _) => Upstream(status)
  }

  lemma ErrorIsLast(env: Env, attempt: nat, model: string, stream: bool, l: Loop, after: Loop)
    requires Attempted(env, attempt, model, stream, l) == (after, None) && |after.used| > |l.used|
    ensures after.error == ErrorOf(env)
  {
    var ready := Paused(env, attempt, l).value;
    AttemptGoesOn(env, attempt, model, stream, l, ready);
    TrySelects(env, model, stream, ready);
    var r := Select(env.scheduler, env.keys, model, SetOf(ready.used), env.now).1;
    ExchangeSaysError(env, r.value.id, stream);
  }

  lemma ExchangeSaysError(env: Env, id: string, stream: bool)
    ensures var next := Exchange(env, id, stream).1; next.Again? ==> next.error == ErrorOf(env)
  {
  }

  /** A loop that ends because there are no attempts left answers with the error of the last one. */
  lemma LastErrorIs(envs: seq<Env>, model: string, stream: bool, n: nat)
    requires 0 < n == |envs| && Attempts(envs, model, stream, n).1.None?
    requires BeginsKey(envs, model, stream, n - 1)
    ensures Outcome(envs, model, stream).1 == Unavailable(ErrorOf(envs[n - 1]))
  {
    RunningBefore(envs, model, stream, n);
    ErrorIsLast(envs[n - 1], n - 1, model, stream, Attempts(envs, model, stream, n - 1).0,
                Attempts(envs, model, stream, n).0);
  }
}
