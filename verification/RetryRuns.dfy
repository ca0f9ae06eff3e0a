/** What the retry loop keeps, whatever it meets. */
module RetryRuns {
  import opened Basics
  import opened Scheduler
  import opened SchedulerRuns
  import opened RetryLoop

  // ---------------------------------------------------------------- reading the effects

  /** The keys that began and have not ended, in order. */
  function Running(effects: seq<Effect>): seq<string> {
    if effects == [] then []
    else
      var before, e := Running(effects[..|effects| - 1]), effects[|effects| - 1];
      match e
      case Begin(id) => before + [id]
      case End(id) =>
        if before != [] && before[|before| - 1] == id then before[..|before| - 1] else before + ["unmatched end"]
      case _ => before
  }

  function BegunKeys(effects: seq<Effect>): seq<string> {
    if effects == [] then []
    else
      var e := effects[|effects| - 1];
      BegunKeys(effects[..|effects| - 1]) + if e.Begin? then [e.id] else []
  }

  /** The statuses of the failures told to the scheduler. */
  function SchedulerFailures(effects: seq<Effect>): seq<nat> {
    if effects == [] then []
    else
      var e := effects[|effects| - 1];
      SchedulerFailures(effects[..|effects| - 1]) + if e.Recorded? && !e.success then [e.status] else []
  }

  /** The statuses of the failures told to the breaker. */
  function BreakerFailures(effects: seq<Effect>): seq<nat> {
    if effects == [] then []
    else
      var e := effects[|effects| - 1];
      BreakerFailures(effects[..|effects| - 1]) + if e.BreakerFailure? then [e.status] else []
  }

  /** The keys that run, those that began, and whether scheduler and breaker heard the same failures. */
  datatype Books = Books(running: seq<string>, begun: seq<string>, agree: bool)

  ghost function BooksOf(effects: seq<Effect>): Books {
    Books(Running(effects), BegunKeys(effects), SchedulerFailures(effects) == BreakerFailures(effects))
  }

  /** Every key in `used` began once, in that order, and ended; scheduler and breaker heard the
      same failures. */
  ghost predicate Settled(effects: seq<Effect>, used: seq<string>) { BooksOf(effects) == Books([], used, true) }

  lemma Extend(effects: seq<Effect>, e: Effect)
    ensures BegunKeys(effects + [e]) == BegunKeys(effects) + (if e.Begin? then [e.id] else [])
    ensures SchedulerFailures(effects + [e])
            == SchedulerFailures(effects) + (if e.Recorded? && !e.success then [e.status] else [])
    ensures BreakerFailures(effects + [e]) == BreakerFailures(effects) + (if e.BreakerFailure? then [e.status] else [])
    ensures e.Begin? ==> Running(effects + [e]) == Running(effects) + [e.id]
    ensures e.End? && Running(effects) == [e.id] ==> Running(effects + [e]) == []
    ensures !e.Begin? && !e.End? ==> Running(effects + [e]) == Running(effects)
  {
    assert (effects + [e])[..|effects|] == effects;
  }

  /** What a verdict says about the effects before it. */
  ghost predicate Concludes(effects: seq<Effect>, used: seq<string>, stream: bool, verdict: Verdict) {
    && (BreakerSuccess in effects ==> verdict.Served? || verdict == Dropped(ReadingBody))
    && (verdict.Served? ==> used != [] && verdict.id == used[|used| - 1] && (!stream ==> BreakerSuccess in effects))
    && (verdict.PassedThrough? ==>
          verdict.status !in {429, 500, 502, 503, 504} && LastFailure(effects) == Some(verdict.status))
  }

  ghost function LastFailure(effects: seq<Effect>): Option<nat> {
    var f := BreakerFailures(effects);
    if f == [] then None else Some(f[|f| - 1])
  }

  // ---------------------------------------------------------------- one attempt settles its books

  /** Key `id` is the one that runs; scheduler and breaker have heard the same so far. */
  ghost predicate Open(effects: seq<Effect>, used: seq<string>, id: string) {
    BooksOf(effects) == Books([id], used + [id], true)
  }

  lemma SuccessSettles(effects: seq<Effect>, used: seq<string>, id: string, status: nat, stream: bool, completes: bool)
    requires Open(effects, used, id)
    ensures Settled(effects + SuccessEffects(id, status, stream, completes), used + [id])
    ensures !stream ==> BreakerSuccess in effects + SuccessEffects(id, status, stream, completes)
  {
    var a := if stream then effects else effects + [BreakerSuccess];
    var b := a + [Recorded(id, true, status)];
    var c := if stream && completes then b + [BreakerSuccess] else b;
    PraiseKeepsOpen(effects, used, id);
    ReportKeepsOpen(a, used, id, status);
    PraiseKeepsOpen(b, used, id);
    EndSettles(c, used, id);
    assert effects + SuccessEffects(id, status, stream, completes) == c + [End(id)];
    assert !stream ==> a[|effects|] == BreakerSuccess;
  }

  lemma EndSettles(effects: seq<Effect>, used: seq<string>, id: string)
    requires Open(effects, used, id)
    ensures Settled(effects + [End(id)], used + [id])
  {
    Extend(effects, End(id));
  }

  lemma ReportKeepsOpen(effects: seq<Effect>, used: seq<string>, id: string, status: nat)
    requires Open(effects, used, id)
    ensures Open(effects + [Recorded(id, true, status)], used, id)
  {
    Extend(effects, Recorded(id, true, status));
  }

  lemma PraiseKeepsOpen(effects: seq<Effect>, used: seq<string>, id: string)
    requires Open(effects, used, id)
    ensures Open(effects + [BreakerSuccess], used, id)
  {
    Extend(effects, BreakerSuccess);
  }

  lemma UnreadStaysOpen(effects: seq<Effect>, used: seq<string>, id: string, status: nat)
    requires Open(effects, used, id)
    ensures Open(effects + UnreadEffects(id, status), used, id)
  {
    PraiseKeepsOpen(effects, used, id);
    ReportKeepsOpen(effects + [BreakerSuccess], used, id, status);
    assert effects + UnreadEffects(id, status) == effects + [BreakerSuccess] + [Recorded(id, true, status)];
  }

  lemma FailureSettles(effects: seq<Effect>, used: seq<string>, id: string, status: nat)
    requires Open(effects, used, id)
    ensures Settled(effects + FailureEffects(id, status), used + [id])
    ensures LastFailure(effects + FailureEffects(id, status)) == Some(status)
    ensures BreakerSuccess !in effects ==> BreakerSuccess !in effects + FailureEffects(id, status)
  {
    var a := effects + [BreakerFailure(status)];
    var b := a + [Recorded(id, false, status)];
    Extend(effects, BreakerFailure(status));
    Extend(a, Recorded(id, false, status));
    Extend(b, End(id));
    assert effects + FailureEffects(id, status) == b + [End(id)];
  }

  lemma ConnectionSettles(effects: seq<Effect>, used: seq<string>, id: string)
    requires Open(effects, used, id)
    ensures Settled(effects + ConnectionEffects(id), used + [id])
    ensures BreakerSuccess !in effects ==> BreakerSuccess !in effects + ConnectionEffects(id)
  {
    var a := effects + [Recorded(id, false, 0)];
    var b := a + [End(id)];
    Extend(effects, Recorded(id, false, 0));
    Extend(a, End(id));
    Extend(b, BreakerFailure(0));
    assert effects + ConnectionEffects(id) == b + [BreakerFailure(0)];
  }

  /** The client left while a key was in use. */
  predicate LeftRunning(v: Verdict) { v.Dropped? && InsideAttempt(v.at) }

  /** The books of a loop that has ended: settled, or with its last key still running. */
  ghost predicate Closed(effects: seq<Effect>, used: seq<string>, v: Verdict) {
    && (LeftRunning(v) ==> used != [])
    && BooksOf(effects) == Books(if LeftRunning(v) then used[|used| - 1..] else [], used, true)
  }

  /** How an exchange may end, given all effects so far. */
  ghost predicate Fits(all: seq<Effect>, used: seq<string>, next: Next, stream: bool) {
    match next
    case Again(error, _, _) =>
      Settled(all, used) && BreakerSuccess !in all && error != WaitExceeded && error != CircuitOpen
    case Stop(v) => !v.Unavailable? && Closed(all, used, v) && Concludes(all, used, stream, v)
  }

  lemma SuccessFits(effects: seq<Effect>, used: seq<string>, id: string, status: nat, stream: bool, completes: bool)
    requires Open(effects, used, id)
    ensures Fits(effects + SuccessEffects(id, status, stream, completes), used + [id], Stop(Served(id)), stream)
  {
    SuccessSettles(effects, used, id, status, stream, completes);
  }

  lemma UnreadFits(effects: seq<Effect>, used: seq<string>, id: string, status: nat, stream: bool)
    requires Open(effects, used, id)
    ensures Fits(effects + UnreadEffects(id, status), used + [id], Stop(Dropped(ReadingBody)), stream)
  {
    UnreadStaysOpen(effects, used, id, status);
    assert (used + [id])[|used|..] == [id];
  }

  lemma LeavesFits(effects: seq<Effect>, used: seq<string>, id: string, at: Await, stream: bool)
    requires Open(effects, used, id) && BreakerSuccess !in effects && InsideAttempt(at)
    ensures Fits(effects + [], used + [id], Stop(Dropped(at)), stream)
  {
    assert effects + [] == effects && (used + [id])[|used|..] == [id];
  }

  lemma FailureFits(effects: seq<Effect>, used: seq<string>, id: string, status: nat, next: Next, stream: bool)
    requires Open(effects, used, id) && BreakerSuccess !in effects
    requires if status in {429, 500, 502, 503, 504} then next.Again? && next.error == Upstream(status)
             else next == Stop(PassedThrough(status))
    ensures Fits(effects + FailureEffects(id, status), used + [id], next, stream)
  {
    FailureSettles(effects, used, id, status);
  }

  /** Whatever the upstream does: the key begins once, and ends unless the client leaves in between;
      failures are reported to both sides alike, and a verdict fits what was reported. */
  lemma ExchangeSettles(effects: seq<Effect>, used: seq<string>, env: Env, id: string, stream: bool)
    requires Settled(effects, used) && BreakerSuccess !in effects
    ensures var (more, next) := Exchange(env, id, stream); Fits(effects + [Begin(id)] + more, used + [id], next, stream)
  {
    var begun := effects + [Begin(id)];
    BeginOpens(effects, used, id);
    if !env.keyDecrypts || !env.requestBuilds {
      EndSettles(begun, used, id);
    } else if env.leaves == Some(Executing) {
      LeavesFits(begun, used, id, Executing, stream);
    } else if env.reply.ConnectionFailed? {
      ConnectionSettles(begun, used, id);
    } else if 200 <= env.reply.status <= 299 {
      SuccessFits(begun, used, id, env.reply.status, stream, env.streamCompletes);
      UnreadFits(begun, used, id, env.reply.status, stream);
    } else {
      if env.leaves == Some(ReadingError) {
        LeavesFits(begun, used, id, ReadingError, stream);
      } else {
        FailureFits(begun, used, id, env.reply.status, Exchange(env, id, stream).1, stream);
      }
    }
  }

  lemma BeginOpens(effects: seq<Effect>, used: seq<string>, id: string)
    requires Settled(effects, used) && BreakerSuccess !in effects
    ensures Open(effects + [Begin(id)], used, id) && BreakerSuccess !in effects + [Begin(id)]
  {
    Extend(effects, Begin(id));
    assert [] + [id] == [id];
  }

  // ---------------------------------------------------------------- the pool

  /** The ids that serve the model. */
  ghost function ScopeIds(keys: seq<UpstreamKey>, model: string): set<string> {
    set k | k in keys && InScope(HasScoped(keys, model), k, model) :: k.id
  }

  /** All attempts see one pool, and scheduler states that runs can reach. */
  ghost predicate StablePool(envs: seq<Env>, keys: seq<UpstreamKey>) {
    forall i | 0 <= i < |envs| :: envs[i].keys == keys && AllSound(envs[i].scheduler)
  }

  /** After `attempts` attempts without a stop, as many keys are used as there were chances. */
  ghost predicate Progress(used: seq<string>, attempts: nat, keys: seq<UpstreamKey>, model: string) {
    SetOf(used) <= ScopeIds(keys, model) && |used| == MinNat(attempts, |ScopeIds(keys, model)|)
  }

  lemma ProgressStep(env: Env, used: seq<string>, attempts: nat, keys: seq<UpstreamKey>, model: string)
    requires env.keys == keys && AllSound(env.scheduler) && Distinct(used) && Progress(used, attempts, keys, model)
    ensures var r := Select(env.scheduler, keys, model, SetOf(used), env.now).1;
            Progress(if r.Ok? then used + [r.value.id] else used, attempts + 1, keys, model)
  {
    var scope, r := ScopeIds(keys, model), Select(env.scheduler, keys, model, SetOf(used), env.now).1;
    SelectFailsIff(env.scheduler, keys, model, SetOf(used), env.now);
    DistinctSize(used);
    SubsetSize(SetOf(used), scope);
    if r.Ok? {
      SelectChooses(env.scheduler, keys, model, SetOf(used), env.now);
      assert SetOf(used + [r.value.id]) == SetOf(used) + {r.value.id};
      SubsetSize(SetOf(used) + {r.value.id}, scope);
    } else {
      assert scope <= SetOf(used);
      SubsetSize(scope, SetOf(used));
    }
  }

  // ---------------------------------------------------------------- all attempts

  /** Every sleep ends less than nine seconds after the loop began. */
  ghost predicate Brief(sleeps: seq<Sleep>) {
    forall s | s in sleeps :: s.start + s.millis * MILLISECOND < 9 * SECOND
  }

  /** What holds after some attempts, and what more while the loop goes on. */
  ghost predicate Kept(l: Loop, stop: Option<Verdict>, stream: bool, attempts: nat) {
    && Distinct(l.used) && |l.used| <= attempts && Brief(l.sleeps)
    && l.error != WaitExceeded && l.error != CircuitOpen
    && (match stop
        case None => Settled(l.effects, l.used) && BreakerSuccess !in l.effects
        case Some(v) =>
          Closed(l.effects, l.used, v) && Concludes(l.effects, l.used, stream, v)
            && (v.Unavailable? ==> v.error == WaitExceeded || v.error == CircuitOpen))
  }

  lemma PausedKeeps(env: Env, attempt: nat, l: Loop, stream: bool)
    requires Kept(l, None, stream, attempt) && Paused(env, attempt, l).Ok?
    ensures Kept(Paused(env, attempt, l).value, None, stream, attempt)
  {
    var after := Paused(env, attempt, l).value;
    forall s | s in after.sleeps ensures s.start + s.millis * MILLISECOND < 9 * SECOND {
      if s !in l.sleeps {
        assert s.start == env.elapsed && s.millis <= (MAX_TOTAL_WAIT_SECS - env.elapsed / SECOND) * 1000;
      }
    }
  }

  lemma TriedKeeps(env: Env, model: string, stream: bool, l: Loop, attempt: nat)
    requires Kept(l, None, stream, attempt)
    ensures var (after, stop) := Tried(env, model, stream, l); Kept(after, stop, stream, attempt + 1)
  {
    var r := Select(env.scheduler, env.keys, model, SetOf(l.used), env.now).1;
    if r.Ok? {
      SelectChooses(env.scheduler, env.keys, model, SetOf(l.used), env.now);
      ExchangeSettles(l.effects, l.used, env, r.value.id, stream);
    }
  }

  lemma AttemptsKeep(envs: seq<Env>, model: string, stream: bool, n: nat)
    requires n <= |envs|
    ensures var (l, stop) := Attempts(envs, model, stream, n); Kept(l, stop, stream, n)
  {
    var inv := (r: (Loop, Option<Verdict>), i: nat) => Kept(r.0, r.1, stream, i);
    UnstartedIsKept(stream);
    forall i: nat, r | i < |envs| && inv(r, i) ensures inv(Step(model, stream)(envs[i], i, r), i + 1) {
      StepKeeps(envs[i], i, model, stream, r);
    }
    IteratedKeeps(Step(model, stream), (Unstarted, None), envs, n, inv);
  }

  lemma UnstartedIsKept(stream: bool)
    ensures Kept(Unstarted, None, stream, 0)
  {
  }

  lemma StepKeeps(env: Env, attempt: nat, model: string, stream: bool, r: (Loop, Option<Verdict>))
    requires Kept(r.0, r.1, stream, attempt)
    ensures var r' := Continued(env, attempt, model, stream, r); Kept(r'.0, r'.1, stream, attempt + 1)
  {
    if r.1.None? { AttemptedKeeps(env, attempt, model, stream, r.0); }
  }

  lemma AttemptedKeeps(env: Env, attempt: nat, model: string, stream: bool, l: Loop)
    requires Kept(l, None, stream, attempt)
    ensures var (after, stop) := Attempted(env, attempt, model, stream, l); Kept(after, stop, stream, attempt + 1)
  {
    var ready := Paused(env, attempt, l);
    if ready.Ok? {
      PausedKeeps(env, attempt, l, stream);
      TriedKeeps(env, model, stream, ready.value, attempt);
    }
  }

  lemma WhatCloses(effects: seq<Effect>, used: seq<string>, v: Verdict)
    requires Closed(effects, used, v)
    ensures BegunKeys(effects) == used && SchedulerFailures(effects) == BreakerFailures(effects)
    ensures LeftRunning(v) ==> used != []
    ensures Running(effects) == if LeftRunning(v) then [used[|used| - 1]] else []
  {
    assert BooksOf(effects).running == Running(effects) && BooksOf(effects).begun == BegunKeys(effects);
  }

  /** Against every behaviour of the rest of the system: no key is used twice, scheduler and breaker
      heard of the same failures, the verdict fits, and every sleep ends less than nine seconds after
      the start. Every key begun has ended, exactly unless the client left while one was in use: then
      the loop does not release the last one. */
  lemma RetriesKeepTheBooks(envs: seq<Env>, model: string, stream: bool)
    ensures var (l, verdict) := Outcome(envs, model, stream);
            && Distinct(l.used) && |l.used| <= |envs| && BegunKeys(l.effects) == l.used
            && SchedulerFailures(l.effects) == BreakerFailures(l.effects)
               && Concludes(l.effects, l.used, stream, verdict)
            && Brief(l.sleeps)
            && (Running(l.effects) == [] <==> !LeftRunning(verdict))
            && (LeftRunning(verdict) ==> l.used != [] && Running(l.effects) == [l.used[|l.used| - 1]])
  {
    AttemptsKeep(envs, model, stream, |envs|);
    var (l, verdict) := Outcome(envs, model, stream);
    WhatCloses(l.effects, l.used, verdict);
  }

  lemma ExchangeLeavesAsSaid(env: Env, id: string, stream: bool)
    ensures var next := Exchange(env, id, stream).1;
            next.Stop? && next.verdict.Dropped? ==> env.leaves == Some(next.verdict.at)
  {
  }

  lemma AttemptLeavesAsSaid(env: Env, attempt: nat, model: string, stream: bool, l: Loop)
    ensures var stop := Attempted(env, attempt, model, stream, l).1;
            stop.Some? && stop.value.Dropped? ==> env.leaves == Some(stop.value.at)
  {
    var ready := Paused(env, attempt, l);
    if ready.Ok? {
      var r := Select(env.scheduler, env.keys, model, SetOf(ready.value.used), env.now).1;
      if r.Ok? { ExchangeLeavesAsSaid(env, r.value.id, stream); }
    }
  }

  /** A loop ends with the client gone only where the client goes. */
  lemma {:induction false} LoopLeavesAsSaid(envs: seq<Env>, model: string, stream: bool, n: nat)
    requires n <= |envs|
    ensures var stop := Attempts(envs, model, stream, n).1;
            stop.Some? && stop.value.Dropped? ==> exists i | 0 <= i < n :: envs[i].leaves == Some(stop.value.at)
  {
    if n > 0 {
      LoopLeavesAsSaid(envs, model, stream, n - 1);
      OneMoreAttempt(envs, model, stream, n - 1);
      AttemptLeavesAsSaid(envs[n - 1], n - 1, model, stream, Attempts(envs, model, stream, n - 1).0);
    }
  }

  /** So nothing is left running if there is no attempt during which the client would go away while
      its key is in use. */
  lemma NothingLeftRunning(envs: seq<Env>, model: string, stream: bool)
    requires forall i | 0 <= i < |envs| :: envs[i].leaves.Some? ==> !InsideAttempt(envs[i].leaves.value)
    ensures Running(Outcome(envs, model, stream).0.effects) == []
  {
    LoopLeavesAsSaid(envs, model, stream, |envs|);
    RetriesKeepTheBooks(envs, model, stream);
  }

  /** An attempt that succeeds as far as it gets: the pool holds one key without a scope, and the
      client goes away while the answer is awaited. */
  function Abandoned(id: string): Env {
    Env(0, 0, true, View(map[], map[], 0), [UpstreamKey(id, 1, 0, "")], 0, true, true, Answered(200, None), false,
        Some(Executing))
  }

  /** That key is not released. */
  lemma AbandonedKeyKeepsRunning(id: string, model: string, stream: bool)
    ensures var (l, verdict) := Outcome([Abandoned(id)], model, stream);
            verdict == Dropped(Executing) && l.used == [id] && Running(l.effects) == [id]
  {
    var env := Abandoned(id);
    var r := Select(env.scheduler, env.keys, model, SetOf([]), 0).1;
    SelectFailsIff(env.scheduler, env.keys, model, SetOf([]), 0);
    ScopeMeaning(env.keys, model, env.keys[0]);
    assert env.keys[0].id !in SetOf([]);
    SelectChooses(env.scheduler, env.keys, model, SetOf([]), 0);
    assert r.value == env.keys[0];
    assert [env][..0] == [];
    OneMoreAttempt([env], model, stream, 0);
    assert Outcome([env], model, stream).1 == Dropped(Executing);
    RetriesKeepTheBooks([env], model, stream);
  }

  /** Only keys of the scope are used; while the loop goes on, one with each attempt. */
  ghost predicate Advances(l: Loop, stop: Option<Verdict>, keys: seq<UpstreamKey>, model: string, attempts: nat) {
    SetOf(l.used) <= ScopeIds(keys, model) && (stop.None? ==> Progress(l.used, attempts, keys, model))
  }

  lemma AttemptsProgress(envs: seq<Env>, model: string, stream: bool, keys: seq<UpstreamKey>, n: nat)
    requires n <= |envs| && StablePool(envs, keys)
    ensures var (l, stop) := Attempts(envs, model, stream, n); Advances(l, stop, keys, model, n)
  {
    var inv := (r: (Loop, Option<Verdict>), i: nat) => Kept(r.0, r.1, stream, i) && Advances(r.0, r.1, keys, model, i);
    UnstartedIsKept(stream);
    forall i: nat, r | i < |envs| && inv(r, i) ensures inv(Step(model, stream)(envs[i], i, r), i + 1) {
      StepKeeps(envs[i], i, model, stream, r);
      StepProgress(envs[i], i, model, stream, keys, r);
    }
    IteratedKeeps(Step(model, stream), (Unstarted, None), envs, n, inv);
  }

  lemma StepProgress(env: Env, attempt: nat, model: string, stream: bool, keys: seq<UpstreamKey>,
                     r: (Loop, Option<Verdict>))
    requires env.keys == keys && AllSound(env.scheduler) && Distinct(r.0.used)
             && Advances(r.0, r.1, keys, model, attempt)
    ensures var r' := Continued(env, attempt, model, stream, r); Advances(r'.0, r'.1, keys, model, attempt + 1)
  {
    if r.1.None? { AttemptedProgress(env, attempt, model, stream, keys, r.0); }
  }

  lemma AttemptedProgress(env: Env, attempt: nat, model: string, stream: bool, keys: seq<UpstreamKey>, l: Loop)
    requires env.keys == keys && AllSound(env.scheduler) && Distinct(l.used) && Progress(l.used, attempt, keys, model)
    ensures var (after, stop) := Attempted(env, attempt, model, stream, l);
            Advances(after, stop, keys, model, attempt + 1)
  {
    var ready := Paused(env, attempt, l);
    if ready.Ok? {
      assert ready.value.used == l.used;
      TriedProgress(env, attempt, model, stream, keys, ready.value);
    }
  }

  lemma TriedProgress(env: Env, attempts: nat, model: string, stream: bool, keys: seq<UpstreamKey>, l: Loop)
    requires env.keys == keys && AllSound(env.scheduler) && Distinct(l.used) && Progress(l.used, attempts, keys, model)
    ensures Progress(Tried(env, model, stream, l).0.used, attempts + 1, keys, model)
  {
    ProgressStep(env, l.used, attempts, keys, model);
  }

  /** On a stable pool the loop uses keys of the scope only, and unless it stops on a success, an
      answer it does not retry, the budget or the breaker, it tries as many as there are attempts
      or keys. */
  lemma RetriesTryEveryKey(envs: seq<Env>, model: string, stream: bool, keys: seq<UpstreamKey>)
    requires StablePool(envs, keys)
    ensures var (l, verdict) := Outcome(envs, model, stream);
            && SetOf(l.used) <= ScopeIds(keys, model)
            && (verdict.Unavailable? && verdict.error != WaitExceeded && verdict.error != CircuitOpen ==>
                  |l.used| == MinNat(|envs|, |ScopeIds(keys, model)|))
  {
    AttemptsKeep(envs, model, stream, |envs|);
    AttemptsProgress(envs, model, stream, keys, |envs|);
  }
}
