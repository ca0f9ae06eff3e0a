/** When heals are safe, and what happens when they are not. */
module AccountHeals {
  import opened Basics
  import opened AccountPool

  // ---------------------------------------------------------------- undisturbed heals

  predicate IsHeal(pc: Pc) { pc.HealCooled? || pc.HealReady? || pc.HealStored? || pc.HealZeroed? }

  ghost predicate InHeal(s: State, id: nat) { id in s.tasks && IsHeal(s.tasks[id]) }

  /** Nothing happens to the account between the first and the last step of a heal, and the run does
      not end inside one. */
  ghost predicate HealsAtomic(states: seq<State>, events: seq<Event>)
    requires |states| == |events| + 1
  {
    && (forall i, id | 0 <= i < |events| && InHeal(states[i], id) :: events[i].id == id)
    && (forall id :: !InHeal(states[|events|], id))
  }

  /** The heal comes at a wrong time: a guard is live on an account that is in error. */
  ghost predicate MeetsGuard(s: State) { s.acc.status == Error && Leases(s) != {} }

  ghost predicate HealsWellTimed(states: seq<State>, events: seq<Event>)
    requires |states| == |events| + 1
  {
    forall i | 0 <= i < |events| && events[i].action.HealBegins? :: !MeetsGuard(states[i])
  }

  /** What the steps of a heal do, and that other steps leave it where it is. */
  ghost predicate HealStep(s: State, s': State, id: nat, a: Action) {
    && (a.HealBegins? ==> id !in s.tasks && s' == s.(tasks := s.tasks[id := HealCooled]))
    && (InHeal(s, id) && s.tasks[id].HealCooled? ==>
          a.HealLoads? && s' == s.(tasks := if s.acc.status == Error then s.tasks[id := HealReady] else s.tasks - {id}))
    && (InHeal(s, id) && s.tasks[id].HealReady? ==> a.HealStores?)
    && (InHeal(s, id) && s.tasks[id].HealStored? ==> a.HealZeroes?)
    && (a.HealStores? ==> InHeal(s, id) && s.tasks[id].HealReady?)
    && (InHeal(s', id) && s'.tasks[id].HealCooled? ==> a.HealBegins?)
    && (InHeal(s', id) && s'.tasks[id].HealReady? ==> a.HealLoads? && InHeal(s, id) && s.tasks[id].HealCooled?)
  }

  lemma StepIsHealStep(s: State, id: nat, a: Action, now: int)
    requires Step(s, id, a, now).Some?
    ensures HealStep(s, Step(s, id, a, now).value, id, a)
  {
  }

  lemma EventSteps(states: seq<State>, events: seq<Event>, i: nat)
    requires IsRun(states, events) && i < |events|
    ensures HealStep(states[i], states[i + 1], events[i].id, events[i].action)
            && OthersKept(states[i], states[i + 1], events[i].id)
  {
    var e := events[i];
    assert Step(states[i], e.id, e.action, e.at) == Some(states[i + 1]);
    StepIsHealStep(states[i], e.id, e.action, e.at);
    StepIsLocal(states[i], e.id, e.action, e.at);
  }

  /** A heal that has gone a step has gone it last. */
  lemma HealWentLast(states: seq<State>, events: seq<Event>, i: nat, id: nat)
    requires IsRun(states, events) && HealsAtomic(states, events) && 0 < i <= |events|
    requires InHeal(states[i], id)
    ensures events[i - 1].id == id
  {
    EventSteps(states, events, i - 1);
    if events[i - 1].id != id { assert InHeal(states[i - 1], id); }
  }

  lemma ReadyCameFrom(states: seq<State>, events: seq<Event>, i: nat, id: nat)
    requires IsRun(states, events) && HealsAtomic(states, events) && 0 < i <= |events|
    requires InHeal(states[i], id) && states[i].tasks[id].HealReady?
    ensures InHeal(states[i - 1], id) && states[i - 1].tasks[id].HealCooled?
    ensures states[i].acc == states[i - 1].acc && Leases(states[i]) == Leases(states[i - 1])
            && states[i].acc.status == Error
  {
    HealWentLast(states, events, i, id);
    EventSteps(states, events, i - 1);
  }

  lemma CooledCameFrom(states: seq<State>, events: seq<Event>, i: nat, id: nat)
    requires IsRun(states, events) && HealsAtomic(states, events) && 0 < i <= |events|
    requires InHeal(states[i], id) && states[i].tasks[id].HealCooled?
    ensures events[i - 1].action.HealBegins? && states[i].acc == states[i - 1].acc
            && Leases(states[i]) == Leases(states[i - 1])
  {
    HealWentLast(states, events, i, id);
    EventSteps(states, events, i - 1);
  }

  /** A heal that is about to store Idle has just begun, in the state that it still finds. */
  lemma ReadyHasBegun(states: seq<State>, events: seq<Event>, i: nat, id: nat)
    requires IsRun(states, events) && HealsAtomic(states, events) && i < |events|
    requires InHeal(states[i], id) && states[i].tasks[id].HealReady?
    ensures i >= 2 && events[i - 2].action.HealBegins?
    ensures states[i].acc == states[i - 2].acc && Leases(states[i]) == Leases(states[i - 2])
            && states[i].acc.status == Error
  {
    assert i > 0;
    ReadyCameFrom(states, events, i, id);
    assert i > 1;
    CooledCameFrom(states, events, i - 1, id);
  }

  lemma BegunStores(states: seq<State>, events: seq<Event>, i: nat)
    requires IsRun(states, events) && HealsAtomic(states, events) && i < |events|
    requires events[i].action.HealBegins? && states[i].acc.status == Error
    ensures i + 2 < |events| && events[i + 2].action == HealStores && Leases(states[i + 2]) == Leases(states[i])
  {
    var id := events[i].id;
    EventSteps(states, events, i);
    assert InHeal(states[i + 1], id);
    EventSteps(states, events, i + 1);
    assert InHeal(states[i + 2], id);
    EventSteps(states, events, i + 2);
  }

  /** Undisturbed heals store Idle only on accounts without a live guard, exactly if none begins
      while a guard is live on an account in error. */
  lemma HealsUnguardedIff(states: seq<State>, events: seq<Event>)
    requires IsRun(states, events) && HealsAtomic(states, events)
    ensures HealsUnguarded(states, events) <==> HealsWellTimed(states, events)
  {
    if HealsWellTimed(states, events) {
      forall i | 0 <= i < |events| && events[i].action == HealStores ensures Leases(states[i]) == {} {
        EventSteps(states, events, i);
        ReadyHasBegun(states, events, i, events[i].id);
      }
    } else {
      var i :| 0 <= i < |events| && events[i].action.HealBegins? && MeetsGuard(states[i]);
      BegunStores(states, events, i);
    }
  }

  /** The cooldown is in force from the moment an account is in error until its guard is gone. */
  ghost predicate CooldownCovers(states: seq<State>, events: seq<Event>)
    requires |states| == |events| + 1
  {
    forall i | 0 <= i < |events| && MeetsGuard(states[i]) :: states[i].acc.cooldownUntil > events[i].at
  }

  /** What the heal relies on: where cooldowns are set before Error is stored and outlast the guard,
      undisturbed heals are safe. Leases are right, the error count stays at one, and no account
      becomes invalid. */
  lemma CoveredHealsAreSafe(states: seq<State>, events: seq<Event>, i: nat)
    requires IsRun(states, events) && HealsAtomic(states, events) && CooldownCovers(states, events) && i < |states|
    ensures LeasesFit(states[i]) && states[i].acc.errors <= 1 && states[i].acc.status != Invalid
  {
    forall j | 0 <= j < |events| && events[j].action.HealBegins? ensures !MeetsGuard(states[j]) {
      var e := events[j];
      assert Step(states[j], e.id, e.action, e.at) == Some(states[j + 1]);
    }
    HealsUnguardedIff(states, events);
    AtomicHealsAtOnce(states, events);
    forall j | 0 <= j < |states| ensures |Healing(states[j])| <= 1 { AtMostOneError(states, events, j); }
    LeasesFitUpTo(states, events, i);
    AtMostOneError(states, events, i);
    InvalidNeedsTwoHeals(states, events, i);
  }

  lemma AtomicHealsAtOnce(states: seq<State>, events: seq<Event>)
    requires IsRun(states, events) && HealsAtomic(states, events)
    ensures HealsAtOnce(states, events)
  {
    forall i | 0 <= i < |events| && Healing(states[i]) != {} ensures events[i].action == HealZeroes {
      var id :| id in Healing(states[i]);
      assert InHeal(states[i], id);
      EventSteps(states, events, i);
    }
  }

  // ---------------------------------------------------------------- what can go wrong

  function Go(s: State, e: Event): Option<State> { Step(s, e.id, e.action, e.at) }

  /** The state after a list of steps. */
  function After(s: State, events: seq<Event>): Option<State> { Steps(Go, s, events) }

  /** An account before its first use. */
  const Fresh: State := State(Fields(Idle, 0, 0, 0, false), map[])

  const MINUTE: int := 60 * SECOND

  /** What a task leaves that comes and goes. */
  lemma ComesAndGoes(tasks: map<nat, Pc>, id: nat, pc: Pc)
    requires id !in tasks
    ensures tasks[id := pc] - {id} == tasks
  {
  }

  lemma ComesAndSpawns(tasks: map<nat, Pc>, id: nat, pc: Pc, stream: nat)
    requires id !in tasks && id != stream
    ensures tasks[id := pc][stream := Streaming] - {id} == tasks[stream := Streaming]
  {
  }

  /** A lease that finds no token and whose login fails, up to the store of Error. */
  function MarkedLogin(id: nat, at: int): seq<Event> {
    [Event(id, Acquire, at)] + [Event(id, TokenMissing, at)] + [Event(id, LoginFails(false), at)]
      + [Event(id, LoginStores, at)]
  }

  /** The rest: the account cools for a minute, and the guard is dropped. */
  function SettledLogin(id: nat, at: int): seq<Event> {
    [Event(id, FailureSettles(60), at)] + [Event(id, DropLoads, at)]
  }

  function FailedLogin(id: nat, at: int): seq<Event> { MarkedLogin(id, at) + SettledLogin(id, at) }

  lemma MarkedLoginCounts(s: State, id: nat, at: int)
    requires s.acc.status == Idle && s.acc.errors < 255 && !s.acc.token && id !in s.tasks
    ensures var n := s.acc.errors + 1;
            After(s, MarkedLogin(id, at))
              == Some(State(s.acc.(status := Error, errors := n), s.tasks[id := Failed(n, false)]))
  {
    var n := s.acc.errors + 1;
    var e0, e1 := Event(id, Acquire, at), Event(id, TokenMissing, at);
    var e2, e3 := Event(id, LoginFails(false), at), Event(id, LoginStores, at);
    var s1 := State(s.acc.(status := Busy), s.tasks[id := Leased]);
    var s2 := State(s1.acc, s.tasks[id := LoggingIn]);
    var s3 := State(s1.acc.(errors := n), s.tasks[id := LoginCounted(n, false)]);
    var s4 := State(s.acc.(status := Error, errors := n), s.tasks[id := Failed(n, false)]);
    OneStep(Go, s, e0);
    assert s1.tasks[id := LoggingIn] == s2.tasks;
    Then(Go, s, [e0], e1, s1, s2);
    assert s2.tasks[id := LoginCounted(n, false)] == s3.tasks && s3.tasks[id := Failed(n, false)] == s4.tasks;
    Then(Go, s, [e0] + [e1], e2, s2, s3);
    Then(Go, s, [e0] + [e1] + [e2], e3, s3, s4);
  }

  function Settled(acc: Fields, at: int): Fields {
    if acc.errors >= MAX_ERROR_COUNT then acc.(status := Invalid) else acc.(cooldownUntil := at + MINUTE)
  }

  lemma SettledLoginDrops(s: State, id: nat, at: int)
    requires s.acc.status == Error && id in s.tasks && s.tasks[id] == Failed(s.acc.errors, false)
    ensures After(s, SettledLogin(id, at)) == Some(State(Settled(s.acc, at), s.tasks - {id}))
  {
    var settled := State(Settled(s.acc, at), s.tasks[id := Spent(true)]);
    OneStep(Go, s, Event(id, FailureSettles(60), at));
    assert settled.tasks - {id} == s.tasks - {id};
    Then(Go, s, [Event(id, FailureSettles(60), at)], Event(id, DropLoads, at), settled,
         State(settled.acc, s.tasks - {id}));
  }

  lemma FailedLoginCounts(s: State, id: nat, at: int)
    requires s.acc.status == Idle && s.acc.errors < 255 && !s.acc.token && id !in s.tasks
    ensures After(s, FailedLogin(id, at))
            == Some(State(Settled(s.acc.(status := Error, errors := s.acc.errors + 1), at), s.tasks))
  {
    var n := s.acc.errors + 1;
    var marked := State(s.acc.(status := Error, errors := n), s.tasks[id := Failed(n, false)]);
    MarkedLoginCounts(s, id, at);
    SettledLoginDrops(marked, id, at);
    ComesAndGoes(s.tasks, id, Failed(n, false));
    StepsJoin(Go, s, MarkedLogin(id, at), SettledLogin(id, at));
  }

  /** A heal that stalls after storing Idle. */
  function StalledHeal(id: nat, at: int): seq<Event> {
    [Event(id, HealBegins, at)] + [Event(id, HealLoads, at)] + [Event(id, HealStores, at)]
  }

  lemma StalledHealIdles(s: State, id: nat, at: int)
    requires s.acc.status == Error && s.acc.cooldownUntil <= at && id !in s.tasks
    ensures After(s, StalledHeal(id, at)) == Some(State(s.acc.(status := Idle), s.tasks[id := HealStored]))
  {
    var e0, e1, e2 := Event(id, HealBegins, at), Event(id, HealLoads, at), Event(id, HealStores, at);
    var s1 := State(s.acc, s.tasks[id := HealCooled]);
    var s2 := State(s.acc, s.tasks[id := HealReady]);
    var s3 := State(s.acc.(status := Idle), s.tasks[id := HealStored]);
    OneStep(Go, s, e0);
    assert s1.tasks[id := HealReady] == s2.tasks && s2.tasks[id := HealStored] == s3.tasks;
    Then(Go, s, [e0], e1, s1, s2);
    Then(Go, s, [e0] + [e1], e2, s2, s3);
  }

  function FailAndStall(id: nat, healer: nat, at: int): seq<Event> {
    FailedLogin(id, at) + StalledHeal(healer, at + MINUTE)
  }

  lemma FailThenStall(s: State, id: nat, healer: nat, at: int)
    requires s.acc.status == Idle && s.acc.errors < MAX_ERROR_COUNT - 1 && !s.acc.token
    requires id !in s.tasks && healer !in s.tasks
    ensures After(s, FailAndStall(id, healer, at))
            == Some(State(s.acc.(errors := s.acc.errors + 1, cooldownUntil := at + MINUTE),
                          s.tasks[healer := HealStored]))
  {
    var failed := State(s.acc.(status := Error, errors := s.acc.errors + 1, cooldownUntil := at + MINUTE), s.tasks);
    var idle := State(failed.acc.(status := Idle), s.tasks[healer := HealStored]);
    FailedLoginCounts(s, id, at);
    StalledHealIdles(failed, healer, at + MINUTE);
    Onwards(Go, s, FailedLogin(id, at), StalledHeal(healer, at + MINUTE), failed, idle);
  }

  /** Failed logins in separate leases, a minute apart, with a stalled heal after each. */
  function Failures(n: nat): seq<Event> {
    if n == 0 then [] else Failures(n - 1) + FailAndStall(2 * n - 1, 2 * n, (n - 1) * MINUTE)
  }

  lemma {:induction false} FailuresAddUp(n: nat) returns (s: State)
    requires n < MAX_ERROR_COUNT
    ensures After(Fresh, Failures(n)) == Some(s)
    ensures s.acc == Fields(Idle, n, 0, n * MINUTE, false) && forall id | id in s.tasks :: id <= 2 * n
  {
    if n == 0 {
      return Fresh;
    }
    var before := FailuresAddUp(n - 1);
    s := OneMoreFailure(before, n);
    Onwards(Go, Fresh, Failures(n - 1), FailAndStall(2 * n - 1, 2 * n, (n - 1) * MINUTE), before, s);
  }

  lemma OneMoreFailure(before: State, n: nat) returns (s: State)
    requires 0 < n < MAX_ERROR_COUNT && before.acc == Fields(Idle, n - 1, 0, (n - 1) * MINUTE, false)
    requires forall id | id in before.tasks :: id <= 2 * (n - 1)
    ensures After(before, FailAndStall(2 * n - 1, 2 * n, (n - 1) * MINUTE)) == Some(s)
    ensures s.acc == Fields(Idle, n, 0, n * MINUTE, false) && forall id | id in s.tasks :: id <= 2 * n
  {
    assert (n - 1) * MINUTE + MINUTE == n * MINUTE;
    FailThenStall(before, 2 * n - 1, 2 * n, (n - 1) * MINUTE);
    s := State(before.acc.(errors := n, cooldownUntil := n * MINUTE), before.tasks[2 * n := HealStored]);
  }

  /** Two heals in progress are enough to lose an account: after two such failures a third one makes it
      invalid. No heal met a guard. */
  lemma TwoStalledHealsInvalidate()
    ensures var events := Failures(2) + FailedLogin(5, 2 * MINUTE);
            After(Fresh, events).Some? && After(Fresh, events).value.acc.status == Invalid
  {
    var s := FailuresAddUp(2);
    FailedLoginCounts(s, 5, 2 * MINUTE);
    Onwards(Go, Fresh, Failures(2), FailedLogin(5, 2 * MINUTE), s, After(s, FailedLogin(5, 2 * MINUTE)).value);
  }

  /** And a heal that stores Idle under a live guard hands the account out twice: after a failed login
      two heals read the same error, the first lets a task in, the second lets in another beside it. */
  lemma TwoHealsDoubleLease()
    ensures var events := FailedLogin(9, 0) + (TwoHealsLoad(MINUTE) + TwoTasksEnter(MINUTE));
            After(Fresh, events).Some? && {3, 4} <= Leases(After(Fresh, events).value)
  {
    var failed := State(Fields(Error, 1, 0, MINUTE, false), Fresh.tasks);
    FailedLoginCounts(Fresh, 9, 0);
    var end := TwoHealsLetInTwo(failed, MINUTE);
    Onwards(Go, Fresh, FailedLogin(9, 0), TwoHealsLoad(MINUTE) + TwoTasksEnter(MINUTE), failed, end);
  }

  lemma TwoHealsLetInTwo(s: State, at: int) returns (end: State)
    requires s.acc.status == Error && s.acc.cooldownUntil <= at && s.tasks == map[]
    ensures After(s, TwoHealsLoad(at) + TwoTasksEnter(at)) == Some(end) && {3, 4} <= Leases(end)
  {
    var ready := State(s.acc, map[1 := HealReady, 2 := HealReady]);
    TwoHealsAreReady(s, at);
    TwoTasksAreIn(ready, at);
    end := After(ready, TwoTasksEnter(at)).value;
    Onwards(Go, s, TwoHealsLoad(at), TwoTasksEnter(at), ready, end);
  }

  function TwoHealsLoad(at: int): seq<Event> {
    [Event(1, HealBegins, at)] + [Event(2, HealBegins, at)] + [Event(1, HealLoads, at)] + [Event(2, HealLoads, at)]
  }

  function TwoTasksEnter(at: int): seq<Event> {
    [Event(1, HealStores, at)] + [Event(3, Acquire, at)] + [Event(2, HealStores, at)] + [Event(4, Acquire, at)]
  }

  lemma TwoHealsAreReady(s: State, at: int)
    requires s.acc.status == Error && s.acc.cooldownUntil <= at && s.tasks == map[]
    ensures After(s, TwoHealsLoad(at)) == Some(State(s.acc, map[1 := HealReady, 2 := HealReady]))
  {
    var t1 := State(s.acc, s.tasks[1 := HealCooled]);
    var t2 := State(s.acc, t1.tasks[2 := HealCooled]);
    var t3 := State(s.acc, t2.tasks[1 := HealReady]);
    var t4 := State(s.acc, map[1 := HealReady, 2 := HealReady]);
    var es := [Event(1, HealBegins, at)];
    OneStep(Go, s, es[0]);
    Then(Go, s, es, Event(2, HealBegins, at), t1, t2);
    es := es + [Event(2, HealBegins, at)];
    Then(Go, s, es, Event(1, HealLoads, at), t2, t3);
    es := es + [Event(1, HealLoads, at)];
    assert t4.tasks == t3.tasks[2 := HealReady];
    Then(Go, s, es, Event(2, HealLoads, at), t3, t4);
  }

  lemma TwoTasksAreIn(s: State, at: int)
    requires s.tasks == map[1 := HealReady, 2 := HealReady]
    ensures After(s, TwoTasksEnter(at)).Some? && {3, 4} <= Leases(After(s, TwoTasksEnter(at)).value)
  {
    var t1 := State(s.acc.(status := Idle), s.tasks[1 := HealStored]);
    var t2 := State(s.acc.(status := Busy), t1.tasks[3 := Leased]);
    var t3 := State(s.acc.(status := Idle), t2.tasks[2 := HealStored]);
    var t4 := State(s.acc.(status := Busy), t3.tasks[4 := Leased]);
    var es := [Event(1, HealStores, at)];
    OneStep(Go, s, es[0]);
    Then(Go, s, es, Event(3, Acquire, at), t1, t2);
    es := es + [Event(3, Acquire, at)];
    Then(Go, s, es, Event(2, HealStores, at), t2, t3);
    es := es + [Event(2, HealStores, at)];
    Then(Go, s, es, Event(4, Acquire, at), t3, t4);
  }

  // ---------------------------------------------------------------- one heal is enough

  /** A heal from its first to its last step. */
  function WholeHeal(id: nat): seq<Event> { StalledHeal(id, 0) + FinishHeal(id) }

  function FinishHeal(id: nat): seq<Event> { [Event(id, HealZeroes, 0)] + [Event(id, HealForgets, 0)] }

  lemma WholeHealIdles(s: State, id: nat)
    requires s.acc.status == Error && s.acc.cooldownUntil <= 0 && id !in s.tasks
    ensures After(s, WholeHeal(id)) == Some(State(s.acc.(status := Idle, errors := 0, muted := 0), s.tasks))
  {
    var stored := State(s.acc.(status := Idle), s.tasks[id := HealStored]);
    StalledHealIdles(s, id, 0);
    HealFinishes(stored, id);
    ComesAndGoes(s.tasks, id, HealStored);
    StepsJoin(Go, s, StalledHeal(id, 0), FinishHeal(id));
  }

  lemma HealFinishes(s: State, id: nat)
    requires id in s.tasks && s.tasks[id] == HealStored
    ensures After(s, FinishHeal(id)) == Some(State(s.acc.(errors := 0, muted := 0), s.tasks - {id}))
  {
    var zeroed := State(s.acc.(errors := 0), s.tasks[id := HealZeroed]);
    OneStep(Go, s, Event(id, HealZeroes, 0));
    assert zeroed.tasks - {id} == s.tasks - {id};
    Then(Go, s, [Event(id, HealZeroes, 0)], Event(id, HealForgets, 0), zeroed,
         State(s.acc.(errors := 0, muted := 0), s.tasks - {id}));
  }

  /** A single undisturbed heal hands an account out twice: a login fails, Error is stored, and before
      the cooldown is set or the guard dropped, the heal finds an error without a cooldown. */
  lemma OneHealDoublesLease()
    ensures var events := MarkedLogin(1, 0) + WholeHeal(2) + [Event(3, Acquire, 0)];
            After(Fresh, events).Some? && {1, 3} <= Leases(After(Fresh, events).value)
  {
    MarkedLoginCounts(Fresh, 1, 0);
    var failed := After(Fresh, MarkedLogin(1, 0)).value;
    WholeHealIdles(failed, 2);
    StepsJoin(Go, Fresh, MarkedLogin(1, 0), WholeHeal(2));
    var healed := After(failed, WholeHeal(2)).value;
    Then(Go, Fresh, MarkedLogin(1, 0) + WholeHeal(2), Event(3, Acquire, 0), healed,
         State(healed.acc.(status := Busy), healed.tasks[3 := Leased]));
  }

  // ---------------------------------------------------------------- whole heals, one at a time

  /** A lease that logs in, and one that finds the token. */
  function LoggedInLease(id: nat): seq<Event> {
    ([Event(id, Acquire, 0)] + [Event(id, TokenMissing, 0)])
      + ([Event(id, LoginSucceeds, 0)] + [Event(id, LoginCools, 0)] + [Event(id, LoginZeroes, 0)])
  }

  function TokenLease(id: nat): seq<Event> { [Event(id, Acquire, 0)] + [Event(id, TokenFound, 0)] }

  lemma LoginServes(s: State, id: nat)
    requires s.acc == Fields(Busy, 0, 0, 0, false) && id in s.tasks && s.tasks[id] == LoggingIn
    ensures After(s, [Event(id, LoginSucceeds, 0)] + [Event(id, LoginCools, 0)] + [Event(id, LoginZeroes, 0)])
            == Some(State(s.acc.(token := true), s.tasks[id := Serving]))
  {
    var has := s.acc.(token := true);
    var s1, s2 := State(has, s.tasks[id := TokenStored]), State(has, s.tasks[id := LoggedIn]);
    OneStep(Go, s, Event(id, LoginSucceeds, 0));
    assert s1.tasks[id := LoggedIn] == s2.tasks && s2.tasks[id := Serving] == s.tasks[id := Serving];
    Then(Go, s, [Event(id, LoginSucceeds, 0)], Event(id, LoginCools, 0), s1, s2);
    Then(Go, s, [Event(id, LoginSucceeds, 0)] + [Event(id, LoginCools, 0)], Event(id, LoginZeroes, 0), s2,
         State(has, s.tasks[id := Serving]));
  }

  lemma LoggedInLeaseServes(s: State, id: nat)
    requires s.acc == Fields(Idle, 0, 0, 0, false) && id !in s.tasks
    ensures After(s, LoggedInLease(id)) == Some(State(Fields(Busy, 0, 0, 0, true), s.tasks[id := Serving]))
  {
    var waits := State(s.acc.(status := Busy), s.tasks[id := LoggingIn]);
    LeaseHasToLogIn(s, id);
    LoginServes(waits, id);
    assert waits.tasks[id := Serving] == s.tasks[id := Serving];
    Onwards(Go, s, [Event(id, Acquire, 0)] + [Event(id, TokenMissing, 0)],
            [Event(id, LoginSucceeds, 0)] + [Event(id, LoginCools, 0)] + [Event(id, LoginZeroes, 0)], waits,
            State(waits.acc.(token := true), s.tasks[id := Serving]));
  }

  lemma TokenLeaseServes(s: State, id: nat)
    requires s.acc.status == Idle && s.acc.token && id !in s.tasks
    ensures After(s, TokenLease(id)) == Some(State(s.acc.(status := Busy), s.tasks[id := Serving]))
  {
    var s1 := State(s.acc.(status := Busy), s.tasks[id := Leased]);
    OneStep(Go, s, Event(id, Acquire, 0));
    assert s1.tasks[id := Serving] == s.tasks[id := Serving];
    Then(Go, s, [Event(id, Acquire, 0)], Event(id, TokenFound, 0), s1, State(s1.acc, s.tasks[id := Serving]));
  }

  function Dropping(id: nat): seq<Event> { [Event(id, DropLoads, 0)] + [Event(id, DropStores, 0)] }

  lemma DroppingIdles(s: State, id: nat)
    requires s.acc.status == Busy && id in s.tasks && s.tasks[id] == Spent(false)
    ensures After(s, Dropping(id)) == Some(State(s.acc.(status := Idle), s.tasks - {id}))
  {
    var loaded := State(s.acc, s.tasks[id := ReleaseLoaded]);
    OneStep(Go, s, Event(id, DropLoads, 0));
    assert loaded.tasks - {id} == s.tasks - {id};
    Then(Go, s, [Event(id, DropLoads, 0)], Event(id, DropStores, 0), loaded,
         State(s.acc.(status := Idle), s.tasks - {id}));
  }

  /** A serving lease hands its stream on and is dropped. */
  function Spawning(id: nat, stream: nat): seq<Event> { [Event(id, SpawnStream(stream), 0)] + Dropping(id) }

  lemma SpawningLeavesStream(s: State, id: nat, stream: nat)
    requires s.acc.status == Busy && id in s.tasks && s.tasks[id] == Serving && stream !in s.tasks
    ensures After(s, Spawning(id, stream)) == Some(State(s.acc.(status := Idle), s.tasks[stream := Streaming] - {id}))
  {
    var spent := State(s.acc, s.tasks[id := Spent(false)][stream := Streaming]);
    OneStep(Go, s, Event(id, SpawnStream(stream), 0));
    DroppingIdles(spent, id);
    assert spent.tasks - {id} == s.tasks[stream := Streaming] - {id};
    StepsJoin(Go, s, [Event(id, SpawnStream(stream), 0)], Dropping(id));
  }

  /** A serving lease hears that the token is no longer valid, and is dropped. */
  function Rejection(id: nat): seq<Event> { [Event(id, TokenRejected, 0)] + Dropping(id) }

  lemma RejectionForgetsToken(s: State, id: nat)
    requires s.acc.status == Busy && id in s.tasks && s.tasks[id] == Serving
    ensures After(s, Rejection(id)) == Some(State(s.acc.(status := Idle, token := false), s.tasks - {id}))
  {
    var spent := State(s.acc.(token := false), s.tasks[id := Spent(false)]);
    OneStep(Go, s, Event(id, TokenRejected, 0));
    DroppingIdles(spent, id);
    assert spent.tasks - {id} == s.tasks - {id};
    StepsJoin(Go, s, [Event(id, TokenRejected, 0)], Dropping(id));
  }

  /** A first request logs in and leaves a stream behind. */
  function FirstRequest(id: nat, stream: nat): seq<Event> { LoggedInLease(id) + Spawning(id, stream) }

  lemma FirstRequestStreams(s: State, id: nat, stream: nat)
    requires s.acc == Fields(Idle, 0, 0, 0, false) && id !in s.tasks && stream !in s.tasks && id != stream
    ensures After(s, FirstRequest(id, stream)) == Some(State(s.acc.(token := true), s.tasks[stream := Streaming]))
  {
    var serving := State(Fields(Busy, 0, 0, 0, true), s.tasks[id := Serving]);
    LoggedInLeaseServes(s, id);
    SpawningLeavesStream(serving, id, stream);
    ComesAndSpawns(s.tasks, id, Serving, stream);
    Onwards(Go, s, LoggedInLease(id), Spawning(id, stream), serving, After(serving, Spawning(id, stream)).value);
  }

  /** A later one finds the token. */
  function LaterRequest(id: nat, stream: nat): seq<Event> { TokenLease(id) + Spawning(id, stream) }

  lemma LaterRequestStreams(s: State, id: nat, stream: nat)
    requires s.acc.status == Idle && s.acc.token && id !in s.tasks && stream !in s.tasks && id != stream
    ensures After(s, LaterRequest(id, stream)) == Some(State(s.acc, s.tasks[stream := Streaming]))
  {
    var serving := State(s.acc.(status := Busy), s.tasks[id := Serving]);
    TokenLeaseServes(s, id);
    SpawningLeavesStream(serving, id, stream);
    ComesAndSpawns(s.tasks, id, Serving, stream);
    Onwards(Go, s, TokenLease(id), Spawning(id, stream), serving, After(serving, Spawning(id, stream)).value);
  }

  /** Another one finds it, and hears that it is no longer valid. */
  function RejectedRequest(id: nat): seq<Event> { TokenLease(id) + Rejection(id) }

  lemma RejectedRequestForgets(s: State, id: nat)
    requires s.acc.status == Idle && s.acc.token && id !in s.tasks
    ensures After(s, RejectedRequest(id)) == Some(State(s.acc.(token := false), s.tasks))
  {
    var serving := State(s.acc.(status := Busy), s.tasks[id := Serving]);
    TokenLeaseServes(s, id);
    RejectionForgetsToken(serving, id);
    ComesAndGoes(s.tasks, id, Serving);
    Onwards(Go, s, TokenLease(id), Rejection(id), serving, After(serving, Rejection(id)).value);
  }

  /** Two streams of earlier requests are on their way when a third request finds the token rejected. */
  function ThreeRequests(): seq<Event> { FirstRequest(10, 11) + LaterRequest(12, 13) + RejectedRequest(14) }

  lemma ThreeRequestsLeave()
    ensures After(Fresh, ThreeRequests()) == Some(State(Fresh.acc, Fresh.tasks[11 := Streaming][13 := Streaming]))
  {
    var s1 := State(Fresh.acc.(token := true), Fresh.tasks[11 := Streaming]);
    var s2 := State(s1.acc, s1.tasks[13 := Streaming]);
    FirstRequestStreams(Fresh, 10, 11);
    LaterRequestStreams(s1, 12, 13);
    RejectedRequestForgets(s2, 14);
    Onwards(Go, Fresh, FirstRequest(10, 11), LaterRequest(12, 13), s1, s2);
    Onwards(Go, Fresh, FirstRequest(10, 11) + LaterRequest(12, 13), RejectedRequest(14), s2,
            State(Fresh.acc, s2.tasks));
  }

  /** A lease is taken that has to log in; then a stream of an earlier one stores Error, and a whole
      heal takes it back. */
  function LeaseThenMute(id: nat, stream: nat, healer: nat): seq<Event> {
    ([Event(id, Acquire, 0)] + [Event(id, TokenMissing, 0)]) + ([Event(stream, MuteStores, 0)] + WholeHeal(healer))
  }

  lemma LeaseHasToLogIn(s: State, id: nat)
    requires s.acc.status == Idle && !s.acc.token && id !in s.tasks
    ensures After(s, [Event(id, Acquire, 0)] + [Event(id, TokenMissing, 0)])
            == Some(State(s.acc.(status := Busy), s.tasks[id := LoggingIn]))
  {
    var leased := State(s.acc.(status := Busy), s.tasks[id := Leased]);
    OneStep(Go, s, Event(id, Acquire, 0));
    assert leased.tasks[id := LoggingIn] == s.tasks[id := LoggingIn];
    Then(Go, s, [Event(id, Acquire, 0)], Event(id, TokenMissing, 0), leased,
         State(leased.acc, s.tasks[id := LoggingIn]));
  }

  lemma MuteThenHeal(s: State, stream: nat, healer: nat)
    requires s.acc == Fields(Busy, 0, 0, 0, false) && healer !in s.tasks
    requires stream in s.tasks && s.tasks[stream] == Streaming
    ensures After(s, [Event(stream, MuteStores, 0)] + WholeHeal(healer))
            == Some(State(s.acc.(status := Idle), s.tasks[stream := StreamMuteStored]))
  {
    var muted := State(s.acc.(status := Error), s.tasks[stream := StreamMuteStored]);
    OneStep(Go, s, Event(stream, MuteStores, 0));
    WholeHealIdles(muted, healer);
    StepsJoin(Go, s, [Event(stream, MuteStores, 0)], WholeHeal(healer));
  }

  lemma LeaseThenMuteIdles(s: State, id: nat, stream: nat, healer: nat)
    requires s.acc == Fields(Idle, 0, 0, 0, false) && id !in s.tasks && healer !in s.tasks && id != healer
    requires stream in s.tasks && s.tasks[stream] == Streaming
    ensures After(s, LeaseThenMute(id, stream, healer))
            == Some(State(s.acc, s.tasks[id := LoggingIn][stream := StreamMuteStored]))
  {
    LeaseHasToLogIn(s, id);
    var t := State(s.acc.(status := Busy), s.tasks[id := LoggingIn]);
    MuteThenHeal(t, stream, healer);
    StepsJoin(Go, s, [Event(id, Acquire, 0)] + [Event(id, TokenMissing, 0)],
              [Event(stream, MuteStores, 0)] + WholeHeal(healer));
  }

  function ThreeLeases(): seq<Event> {
    LeaseThenMute(1, 11, 21) + LeaseThenMute(2, 13, 22) + ([Event(3, Acquire, 0)] + [Event(3, TokenMissing, 0)])
  }

  /** All three of them are about to log in. */
  ghost predicate ThreeLogIn(s: State) {
    s.acc == Fields(Busy, 0, 0, 0, false) && {1, 2, 3} <= s.tasks.Keys
    && s.tasks[1] == s.tasks[2] == s.tasks[3] == LoggingIn
  }

  lemma ThreeLeasesLogIn(s: State)
    requires s.acc == Fields(Idle, 0, 0, 0, false) && {1, 2, 3, 21, 22} !! s.tasks.Keys
    requires {11, 13} <= s.tasks.Keys && s.tasks[11] == s.tasks[13] == Streaming
    ensures After(s, ThreeLeases()).Some? && ThreeLogIn(After(s, ThreeLeases()).value)
  {
    var s1 := State(s.acc, s.tasks[1 := LoggingIn][11 := StreamMuteStored]);
    var s2 := State(s.acc, s1.tasks[2 := LoggingIn][13 := StreamMuteStored]);
    var s3 := State(s.acc.(status := Busy), s2.tasks[3 := LoggingIn]);
    var last := [Event(3, Acquire, 0)] + [Event(3, TokenMissing, 0)];
    LeaseThenMuteIdles(s, 1, 11, 21);
    LeaseThenMuteIdles(s1, 2, 13, 22);
    LeaseHasToLogIn(s2, 3);
    Onwards(Go, s, LeaseThenMute(1, 11, 21), LeaseThenMute(2, 13, 22), s1, s2);
    Onwards(Go, s, LeaseThenMute(1, 11, 21) + LeaseThenMute(2, 13, 22), last, s2, s3);
  }

  function ThreeFailures(): seq<Event> {
    [Event(1, LoginFails(false), 0)] + [Event(2, LoginFails(false), 0)] + [Event(3, LoginFails(false), 0)]
    + [Event(3, LoginStores, 0)] + [Event(3, FailureSettles(60), 0)]
  }

  lemma ThreeFailuresInvalidate(s: State)
    requires ThreeLogIn(s)
    ensures After(s, ThreeFailures()).Some? && After(s, ThreeFailures()).value.acc.status == Invalid
  {
    var e1, e2, e3 := Event(1, LoginFails(false), 0), Event(2, LoginFails(false), 0), Event(3, LoginFails(false), 0);
    var s1 := State(s.acc.(errors := 1), s.tasks[1 := LoginCounted(1, false)]);
    var s2 := State(s.acc.(errors := 2), s1.tasks[2 := LoginCounted(2, false)]);
    var s3 := State(s.acc.(errors := 3), s2.tasks[3 := LoginCounted(3, false)]);
    var s4 := State(s3.acc.(status := Error), s3.tasks[3 := Failed(3, false)]);
    OneStep(Go, s, e1);
    Then(Go, s, [e1], e2, s1, s2);
    Then(Go, s, [e1] + [e2], e3, s2, s3);
    Then(Go, s, [e1] + [e2] + [e3], Event(3, LoginStores, 0), s3, s4);
    Then(Go, s, [e1] + [e2] + [e3] + [Event(3, LoginStores, 0)], Event(3, FailureSettles(60), 0), s4,
         State(s4.acc.(status := Invalid), s4.tasks[3 := Spent(true)]));
  }

  /** Whole heals, one at a time, also lose an account: muted streams of earlier requests store Error
      beside live leases, so that three leases can count their failed logins together. */
  lemma WholeHealsInvalidate()
    ensures var events := ThreeRequests() + ThreeLeases() + ThreeFailures();
            After(Fresh, events).Some? && After(Fresh, events).value.acc.status == Invalid
  {
    var s1 := State(Fresh.acc, Fresh.tasks[11 := Streaming][13 := Streaming]);
    ThreeRequestsLeave();
    ThreeLeasesLogIn(s1);
    var s2 := After(s1, ThreeLeases()).value;
    ThreeFailuresInvalidate(s2);
    Onwards(Go, Fresh, ThreeRequests(), ThreeLeases(), s1, s2);
    Onwards(Go, Fresh, ThreeRequests() + ThreeLeases(), ThreeFailures(), s2, After(s2, ThreeFailures()).value);
  }
}
