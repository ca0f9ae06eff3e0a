/** Account leases as a protocol of atomic steps on one account.

Each load, store, increment or compare-and-swap of a field is one step; a task's program counter
says where it stands inside an operation. Tasks on other accounts do not touch these fields.
*/
module AccountPool {
  import opened Basics

  const MAX_ERROR_COUNT: nat := 3
  const DAY: int := 24 * 3600 * SECOND

  datatype Status = Idle | Busy | Error | Invalid

  /** The shared fields of an account; of its session token, whether there is one. Both counters are
      bytes and wrap. */
  datatype Fields = Fields(status: Status, errors: nat, muted: nat, cooldownUntil: int, token: bool)

  function Increment(n: nat): (r: nat)
    ensures n <= 255 ==> r == (n + 1) % 0x100
  {
    if n == 255 then 0 else n + 1
  }

  datatype Pc =
    // with a guard
    | Leased
    | LoggingIn                              // found no token
    | TokenStored                            // login succeeded and stored its token
    | LoggedIn                               // cooldown cleared, errors not yet zeroed
    | Serving                                // has a token to work with
    | LoginCounted(n: nat, isMute: bool)     // login failed and was counted
    | ErrorLoaded                            // mark_error saw Busy
    | ErrorStored                            // mark_error stored Error
    | Failed(n: nat, isMute: bool)           // counted and Error stored; cooldown or Invalid comes next
    | MuteStored
    | MuteCounted
    | Spent(counted: bool)                   // nothing left but to drop the guard
    | ReleaseLoaded                          // release saw Busy
    // without a guard
    | Streaming                              // a stream that outlives its request's guard
    | StreamMuteStored
    | StreamMuteCounted
    | HealCooled                             // heal found the cooldown over
    | HealReady                              // and the status Error
    | HealStored                             // heal stored Idle
    | HealZeroed

  predicate HoldsGuard(pc: Pc) {
    match pc
    case Streaming => false case StreamMuteStored => false case StreamMuteCounted => false
    case HealCooled => false case HealReady => false case HealStored => false case HealZeroed => false
    case _ => true
  }

  /** This lease has raised the error count. */
  predicate HasCounted(pc: Pc) { pc.LoginCounted? || pc.Failed? || (pc.Spent? && pc.counted) }

  datatype State = State(acc: Fields, tasks: map<nat, Pc>)

  /** The next step of a task; `spawn` and `heal` start tasks under a new id. */
  datatype Action =
    | Acquire
    | TokenFound | TokenMissing | LoginSucceeds | LoginCools | LoginZeroes | LoginFails(isMute: bool) | LoginStores
    | TokenRejected
    | ErrorLoads | ErrorStores | ErrorCounts
    | FailureSettles(secs: nat)
    | MuteStores | MuteCounts | MuteCools(secs: nat)
    | Transient(secs: nat)
    | Finish | SpawnStream(stream: nat) | StreamEnds
    | DropLoads | DropStores
    | HealBegins | HealLoads | HealStores | HealZeroes | HealForgets

  /** Steps of `ensure_login` by a task with a guard. */
  function StepOfLogin(s: State, id: nat, pc: Pc, a: Action, now: int): Option<State> {
    var acc := s.acc;
    match a
    case TokenFound => if pc == Leased && acc.token then Some(s.(tasks := s.tasks[id := Serving])) else None
    case TokenMissing => if pc == Leased && !acc.token then Some(s.(tasks := s.tasks[id := LoggingIn])) else None
    case LoginSucceeds =>
      if pc == LoggingIn then Some(State(acc.(token := true), s.tasks[id := TokenStored])) else None
    case LoginCools =>
      if pc == TokenStored then Some(State(acc.(cooldownUntil := now), s.tasks[id := LoggedIn])) else None
    case LoginZeroes => if pc == LoggedIn then Some(State(acc.(errors := 0), s.tasks[id := Serving])) else None
    case LoginFails(isMute) =>
      if pc == LoggingIn then
        Some(State(acc.(errors := Increment(acc.errors)), s.tasks[id := LoginCounted(Increment(acc.errors), isMute)]))
      else None
    case LoginStores =>
      if pc.LoginCounted? then Some(State(acc.(status := Error), s.tasks[id := Failed(pc.n, pc.isMute)])) else None
    case _ => None
  }

  /** Steps of a request, of its stream, and of the guard. */
  function StepOfService(s: State, id: nat, pc: Pc, a: Action, now: int): Option<State> {
    var acc := s.acc;
    match a
    case TokenRejected =>
      if pc == Serving then Some(State(acc.(token := false), s.tasks[id := Spent(false)])) else None
    case Transient(secs) =>
      var cooled := acc.(cooldownUntil := now + secs * SECOND);
      if pc == Serving then Some(State(cooled, s.tasks[id := Spent(false)]))
      else if pc == Streaming then Some(State(cooled, s.tasks - {id}))
      else None
    case Finish => if pc == Serving || pc == LoggingIn then Some(s.(tasks := s.tasks[id := Spent(false)])) else None
    case SpawnStream(stream) =>
      if pc == Serving && stream !in s.tasks then Some(s.(tasks := s.tasks[id := Spent(false)][stream := Streaming]))
      else None
    case StreamEnds => if pc == Streaming then Some(s.(tasks := s.tasks - {id})) else None
    case DropLoads =>
      if pc.Spent? then Some(s.(tasks := if acc.status == Busy then s.tasks[id := ReleaseLoaded] else s.tasks - {id}))
      else None
    case DropStores => if pc == ReleaseLoaded then Some(State(acc.(status := Idle), s.tasks - {id})) else None
    case _ => None
  }

  /** Steps of `mark_error` and `mark_muted`, and the end of a failed login. */
  function StepOfMark(s: State, id: nat, pc: Pc, a: Action, now: int): Option<State> {
    var acc := s.acc;
    match a
    case ErrorLoads =>
      if pc == Serving then Some(s.(tasks := s.tasks[id := if acc.status == Busy then ErrorLoaded else Spent(false)]))
      else None
    case ErrorStores =>
      if pc == ErrorLoaded then Some(State(acc.(status := Error), s.tasks[id := ErrorStored])) else None
    case ErrorCounts =>
      if pc == ErrorStored then
        Some(State(acc.(errors := Increment(acc.errors)), s.tasks[id := Failed(Increment(acc.errors), false)]))
      else None
    case FailureSettles(secs) =>
      if pc.Failed? then
        Some(State(if pc.isMute then acc.(cooldownUntil := now + DAY)
                   else if pc.n >= MAX_ERROR_COUNT then acc.(status := Invalid)
                   else acc.(cooldownUntil := now + secs * SECOND), s.tasks[id := Spent(true)]))
      else None
    case MuteStores =>
      if pc == Serving then Some(State(acc.(status := Error), s.tasks[id := MuteStored]))
      else if pc == Streaming then Some(State(acc.(status := Error), s.tasks[id := StreamMuteStored]))
      else None
    case MuteCounts =>
      if pc == MuteStored then Some(State(acc.(muted := Increment(acc.muted)), s.tasks[id := MuteCounted]))
      else if pc == StreamMuteStored then
        Some(State(acc.(muted := Increment(acc.muted)), s.tasks[id := StreamMuteCounted]))
      else None
    case MuteCools(secs) =>
      var cooled := acc.(cooldownUntil := now + MaxNat(secs, 300) * SECOND);
      if pc == MuteCounted then Some(State(cooled, s.tasks[id := Spent(false)]))
      else if pc == StreamMuteCounted then Some(State(cooled, s.tasks - {id}))
      else None
    case _ => None
  }

  /** Steps of a heal after its first. */
  function StepOfHeal(s: State, id: nat, pc: Pc, a: Action): Option<State> {
    match a
    case HealLoads =>
      if pc == HealCooled then
        Some(s.(tasks := if s.acc.status == Error then s.tasks[id := HealReady] else s.tasks - {id}))
      else None
    case HealStores => if pc == HealReady then Some(State(s.acc.(status := Idle), s.tasks[id := HealStored])) else None
    case HealZeroes => if pc == HealStored then Some(State(s.acc.(errors := 0), s.tasks[id := HealZeroed])) else None
    case HealForgets => if pc == HealZeroed then Some(State(s.acc.(muted := 0), s.tasks - {id})) else None
    case _ => None
  }

  predicate IsLogin(a: Action) {
    a.TokenFound? || a.TokenMissing? || a.LoginSucceeds? || a.LoginCools? || a.LoginZeroes? || a.LoginFails?
    || a.LoginStores?
  }

  predicate IsMark(a: Action) {
    a.ErrorLoads? || a.ErrorStores? || a.ErrorCounts? || a.FailureSettles? || a.MuteStores? || a.MuteCounts?
    || a.MuteCools?
  }

  predicate IsHealing(a: Action) { a.HealLoads? || a.HealStores? || a.HealZeroes? || a.HealForgets? }

  /** The state after task `id` takes the step at `now`, if it is at the point where it can. */
  function Step(s: State, id: nat, a: Action, now: int): Option<State> {
    if id !in s.tasks then
      match a
      case Acquire => if s.acc.status == Idle then Some(State(s.acc.(status := Busy), s.tasks[id := Leased])) else None
      case HealBegins => if s.acc.cooldownUntil <= now then Some(s.(tasks := s.tasks[id := HealCooled])) else None
      case _ => None
    else if IsLogin(a) then StepOfLogin(s, id, s.tasks[id], a, now)
    else if IsMark(a) then StepOfMark(s, id, s.tasks[id], a, now)
    else if IsHealing(a) then StepOfHeal(s, id, s.tasks[id], a)
    else StepOfService(s, id, s.tasks[id], a, now)
  }

  datatype Event = Event(id: nat, action: Action, at: int)

  ghost predicate IsRun(states: seq<State>, events: seq<Event>) {
    && |states| == |events| + 1
    && states[0].acc.status == Idle && states[0].acc.errors == 0 && states[0].acc.muted == 0 && !states[0].acc.token
    && states[0].tasks == map[]
    && forall i | 0 <= i < |events| ::
       Step(states[i], events[i].id, events[i].action, events[i].at) == Some(states[i + 1])
  }

  // ---------------------------------------------------------------- leases

  /** The tasks with a live guard on the account. */
  ghost function Leases(s: State): set<nat> { set id | id in s.tasks && HoldsGuard(s.tasks[id]) }

  /** Busy means one live guard, Idle means none, and there are never two. */
  ghost predicate LeasesFit(s: State) {
    && (s.acc.status == Busy ==> Leases(s) != {})
    && (s.acc.status == Idle ==> Leases(s) == {})
    && (forall a, b | a in Leases(s) && b in Leases(s) :: a == b)
  }

  /** Heal stores Idle only while nobody holds a guard. */
  ghost predicate HealsUnguarded(states: seq<State>, events: seq<Event>)
    requires |states| == |events| + 1
  {
    forall i | 0 <= i < |events| && events[i].action == HealStores :: Leases(states[i]) == {}
  }

  /** A step leaves the other tasks alone; at most it starts a stream. */
  ghost predicate OthersKept(s: State, s': State, id: nat) {
    && (forall k | k != id && k in s.tasks :: k in s'.tasks && s'.tasks[k] == s.tasks[k])
    && (forall k | k != id && k in s'.tasks && k !in s.tasks :: s'.tasks[k] == Streaming)
  }

  /** Which steps enter and leave the middle of a heal. */
  ghost predicate HealLocal(s: State, s': State, id: nat, a: Action) {
    && OthersKept(s, s', id)
    && ((id in s.tasks && s.tasks[id] == HealStored) <==> a.HealZeroes?)
    && ((id in s'.tasks && s'.tasks[id] == HealStored) <==> a.HealStores?)
  }

  /** Which steps take and drop a guard. */
  ghost predicate GuardLocal(s: State, s': State, id: nat, a: Action) {
    && OthersKept(s, s', id)
    && (a.Acquire? <==> id !in s.tasks && id in s'.tasks && HoldsGuard(s'.tasks[id]))
    && (id in s.tasks && id in s'.tasks ==> (HoldsGuard(s.tasks[id]) <==> HoldsGuard(s'.tasks[id])))
  }

  /** The lease has stored Error. */
  predicate MarkedBad(pc: Pc) { pc.ErrorStored? || pc.Failed? || (pc.Spent? && pc.counted) }

  /** How a step changes the status, and what it means for a lease to count or to mark. */
  ghost predicate LocalStatus(s: State, s': State, id: nat, a: Action) {
    && (s.acc.status == Error || s.acc.status == Invalid
        ==> a.HealStores? || a.DropStores? || s'.acc.status == Error || s'.acc.status == Invalid)
    && (a.DropStores? ==> id in s.tasks && s.tasks[id] == ReleaseLoaded && id !in s'.tasks && s'.acc.status == Idle)
    && (a.Acquire? ==> s.acc.status == Idle)
    && (id in s.tasks && HasCounted(s.tasks[id])
        ==> (id in s'.tasks && HasCounted(s'.tasks[id]))
            || (MarkedBad(s.tasks[id]) && (s.acc.status == Busy || (id !in s'.tasks && s'.acc == s.acc))))
    && (a.LoginFails? || a.ErrorCounts?
        ==> id in s.tasks && HoldsGuard(s.tasks[id]) && !HasCounted(s.tasks[id]) && id in s'.tasks
            && HasCounted(s'.tasks[id]))
    && (id in s'.tasks && MarkedBad(s'.tasks[id])
        ==> s'.acc.status == Error || s'.acc.status == Invalid
            || (id in s.tasks && MarkedBad(s.tasks[id]) && s'.acc.status == s.acc.status))
  }

  /** How a step changes the error count. */
  ghost predicate LocalErrors(s: State, s': State, a: Action) {
    && (a.LoginFails? || a.ErrorCounts? ==> s'.acc.errors <= s.acc.errors + 1)
    && (a.HealZeroes? ==> s'.acc.errors == 0)
    && (!a.LoginFails? && !a.ErrorCounts? ==> s'.acc.errors <= s.acc.errors)
    && (a.HealStores? ==> s'.acc.status == Idle)
  }

  /** What a lease carries away from a count, and what makes an account invalid. */
  ghost predicate LocalCarry(s: State, s': State, id: nat, a: Action) {
    && (id in s'.tasks && Carries(s'.tasks[id]) ==>
          if a.LoginFails? || a.ErrorCounts? then s'.tasks[id].n == s'.acc.errors
          else id in s.tasks && Carries(s.tasks[id]) && s'.tasks[id].n == s.tasks[id].n)
    && (s'.acc.status == Invalid ==>
          s.acc.status == Invalid
          || (id in s.tasks && s.tasks[id].Failed? && s.tasks[id].n >= MAX_ERROR_COUNT))
  }

  predicate Carries(pc: Pc) { pc.LoginCounted? || pc.Failed? }

  /** Which steps make an account busy or idle. */
  ghost predicate LocalLease(s: State, s': State, id: nat, a: Action) {
    && (a.Acquire? ==> s.acc.status == Idle && s'.acc.status == Busy)
    && (s'.acc.status == Busy ==>
          a.Acquire?
          || (s.acc.status == Busy && (id in s'.tasks || !(id in s.tasks && HoldsGuard(s.tasks[id])))))
    && (s'.acc.status == Idle ==> a.HealStores? || a.DropStores? || (s.acc.status == Idle && !a.Acquire?))
    && (a.HealStores? ==> s'.acc.status == Idle && id in s'.tasks)
    && (a.DropStores? ==> id in s.tasks && HoldsGuard(s.tasks[id]))
  }

  /** All that a step of task `id` may do. */
  ghost predicate Local(s: State, s': State, id: nat, a: Action) {
    && HealLocal(s, s', id, a) && GuardLocal(s, s', id, a) && LocalStatus(s, s', id, a)
    && LocalErrors(s, s', a) && LocalCarry(s, s', id, a) && LocalLease(s, s', id, a)
  }

  lemma LoginIsLocal(s: State, id: nat, a: Action, now: int)
    requires id in s.tasks && IsLogin(a) && StepOfLogin(s, id, s.tasks[id], a, now).Some?
    ensures Local(s, StepOfLogin(s, id, s.tasks[id], a, now).value, id, a)
  {
  }

  lemma MarkIsLocal(s: State, id: nat, a: Action, now: int)
    requires id in s.tasks && IsMark(a) && StepOfMark(s, id, s.tasks[id], a, now).Some?
    ensures Local(s, StepOfMark(s, id, s.tasks[id], a, now).value, id, a)
  {
  }

  lemma HealIsLocal(s: State, id: nat, a: Action)
    requires id in s.tasks && IsHealing(a) && StepOfHeal(s, id, s.tasks[id], a).Some?
    ensures Local(s, StepOfHeal(s, id, s.tasks[id], a).value, id, a)
  {
  }

  lemma ServiceIsLocal(s: State, id: nat, a: Action, now: int)
    requires id in s.tasks && StepOfService(s, id, s.tasks[id], a, now).Some?
    ensures Local(s, StepOfService(s, id, s.tasks[id], a, now).value, id, a)
  {
  }

  lemma StartIsLocal(s: State, id: nat, a: Action, now: int)
    requires id !in s.tasks && Step(s, id, a, now).Some?
    ensures Local(s, Step(s, id, a, now).value, id, a)
  {
  }

  lemma StepIsLocal(s: State, id: nat, a: Action, now: int)
    requires Step(s, id, a, now).Some?
    ensures Local(s, Step(s, id, a, now).value, id, a)
  {
    if id !in s.tasks {
      StartIsLocal(s, id, a, now);
    } else if IsLogin(a) {
      LoginIsLocal(s, id, a, now);
    } else if IsMark(a) {
      MarkIsLocal(s, id, a, now);
    } else if IsHealing(a) {
      HealIsLocal(s, id, a);
    } else {
      ServiceIsLocal(s, id, a, now);
    }
  }

  /** What a step does to the guards: it takes one, drops one, or leaves all. */
  lemma GuardStep(s: State, s': State, id: nat, a: Action)
    requires GuardLocal(s, s', id, a)
    ensures Leases(s')
            == if a.Acquire? then Leases(s) + {id} else if id !in s'.tasks then Leases(s) - {id} else Leases(s)
  {
  }

  lemma LeaseStep(s: State, id: nat, a: Action, now: int)
    requires Step(s, id, a, now).Some? && LeasesFit(s)
    ensures LeasesFit(Step(s, id, a, now).value) <==> (a == HealStores ==> Leases(s) == {})
  {
    StepIsLocal(s, id, a, now);
    LeasesStay(s, Step(s, id, a, now).value, id, a);
  }

  lemma LeasesStay(s: State, s': State, id: nat, a: Action)
    requires GuardLocal(s, s', id, a) && LocalStatus(s, s', id, a) && LocalLease(s, s', id, a) && LeasesFit(s)
    ensures LeasesFit(s') <==> (a == HealStores ==> Leases(s) == {})
  {
    GuardStep(s, s', id, a);
    if a.DropStores? {
      assert id in Leases(s) && Leases(s') == {};
    } else if a.Acquire? {
      assert Leases(s') == {id};
    }
  }

  /** The lease protocol is right in every state of a run, exactly if every heal of the run stores
      Idle while no guard is live. */
  lemma LeasesFitIff(states: seq<State>, events: seq<Event>)
    requires IsRun(states, events)
    ensures (forall i | 0 <= i < |states| :: LeasesFit(states[i])) <==> HealsUnguarded(states, events)
  {
    if HealsUnguarded(states, events) {
      forall i | 0 <= i < |states| ensures LeasesFit(states[i]) { LeasesFitUpTo(states, events, i); }
    } else {
      var i :| 0 <= i < |events| && events[i].action == HealStores && Leases(states[i]) != {};
      assert Step(states[i], events[i].id, events[i].action, events[i].at) == Some(states[i + 1]);
      if LeasesFit(states[i]) { LeaseStep(states[i], events[i].id, events[i].action, events[i].at); }
    }
  }

  lemma {:induction false} LeasesFitUpTo(states: seq<State>, events: seq<Event>, i: nat)
    requires IsRun(states, events) && HealsUnguarded(states, events) && i < |states|
    ensures LeasesFit(states[i])
  {
    if i > 0 {
      LeasesFitUpTo(states, events, i - 1);
      var e := events[i - 1];
      assert Step(states[i - 1], e.id, e.action, e.at) == Some(states[i - 1 + 1]);
      LeaseStep(states[i - 1], e.id, e.action, e.at);
    }
  }

  // ---------------------------------------------------------------- error counts

  /** Heals that have stored Idle and not yet zeroed the error count. */
  ghost function Healing(s: State): set<nat> { set id | id in s.tasks && s.tasks[id] == HealStored }

  /** An error has been counted that no heal has forgiven yet: by the lease that is live, or, when
      none is, by one that left the account in an error status. */
  ghost predicate Unforgiven(s: State) {
    if Leases(s) == {} then s.acc.status == Error || s.acc.status == Invalid
    else exists id | id in Leases(s) :: HasCounted(s.tasks[id])
  }

  /** A lease that has stored Error never sees Busy again. */
  ghost predicate StatusFits(s: State) {
    forall id | id in Leases(s) && MarkedBad(s.tasks[id]) :: s.acc.status == Error || s.acc.status == Invalid
  }

  /** The error count is at most the unforgiven error and one for each heal in progress. */
  ghost predicate ErrorsFit(s: State) {
    s.acc.errors <= |Healing(s)| + (if Unforgiven(s) then 1 else 0) && StatusFits(s)
  }

  /** A count that an operation carries was the error count when it was taken. */
  ghost predicate CarriedUpTo(s: State, bound: nat) {
    forall id | id in s.tasks :: var pc := s.tasks[id]; (pc.LoginCounted? || pc.Failed?) ==> pc.n <= bound
  }

  lemma HealingStep(s: State, s': State, id: nat, a: Action)
    requires HealLocal(s, s', id, a)
    ensures |Healing(s')| == |Healing(s)| + (if a.HealStores? then 1 else 0) - (if a.HealZeroes? then 1 else 0)
  {
    HealingSet(s, s', id, a);
    if a.HealStores? { assert id !in Healing(s); }
    if a.HealZeroes? { assert id in Healing(s); }
  }

  lemma HealingSet(s: State, s': State, id: nat, a: Action)
    requires HealLocal(s, s', id, a)
    ensures Healing(s')
            == if a.HealStores? then Healing(s) + {id} else if a.HealZeroes? then Healing(s) - {id} else Healing(s)
  {
    forall k | k != id ensures k in Healing(s') <==> k in Healing(s) {}
  }

  /** A heal that stores Idle finds no lease that has stored Error. */
  ghost predicate HealSpares(s: State, a: Action) {
    a.HealStores? ==> forall id | id in Leases(s) :: !MarkedBad(s.tasks[id])
  }

  lemma StatusStep(s: State, s': State, id: nat, a: Action)
    requires GuardLocal(s, s', id, a) && LocalStatus(s, s', id, a)
    requires LeasesFit(s) && StatusFits(s) && HealSpares(s, a)
    ensures StatusFits(s')
  {
    GuardStep(s, s', id, a);
    forall other | other in Leases(s') && MarkedBad(s'.tasks[other])
      ensures s'.acc.status == Error || s'.acc.status == Invalid
    {
      if other != id {
        assert other in Leases(s) && MarkedBad(s.tasks[other]);
        assert a.DropStores? ==> id in Leases(s);
      } else {
        assert a.HealStores? ==> id in Leases(s) || id !in s.tasks;
      }
    }
  }

  lemma UnforgivenStep(s: State, s': State, id: nat, a: Action)
    requires GuardLocal(s, s', id, a) && LocalStatus(s, s', id, a)
    requires LeasesFit(s) && StatusFits(s)
    ensures a.LoginFails? || a.ErrorCounts? ==> !Unforgiven(s) && Unforgiven(s')
    ensures Unforgiven(s) && !Unforgiven(s') ==> a.HealStores?
  {
    GuardStep(s, s', id, a);
    if a.LoginFails? || a.ErrorCounts? {
      assert id in Leases(s) && id in Leases(s') && HasCounted(s'.tasks[id]);
    }
    if Leases(s) == {} {
      assert a.DropStores? ==> id in Leases(s);
    } else if Unforgiven(s) {
      var c :| c in Leases(s) && HasCounted(s.tasks[c]);
      if c != id {
        assert c in Leases(s') && HasCounted(s'.tasks[c]);
      } else if id in s'.tasks {
        assert id in Leases(s') && HasCounted(s'.tasks[id]);
      } else {
        assert Leases(s') == {};
      }
    }
  }

  lemma ErrorsStay(s: State, s': State, id: nat, a: Action)
    requires HealLocal(s, s', id, a) && GuardLocal(s, s', id, a) && LocalStatus(s, s', id, a) && LocalErrors(s, s', a)
    requires LeasesFit(s) && ErrorsFit(s) && HealSpares(s, a)
    ensures ErrorsFit(s')
  {
    HealingStep(s, s', id, a);
    StatusStep(s, s', id, a);
    UnforgivenStep(s, s', id, a);
  }

  /** A step keeps the error count within its bound, exactly if it is not a heal that takes back the
      Error of a lease that is still live. */
  lemma ErrorStep(s: State, id: nat, a: Action, now: int)
    requires Step(s, id, a, now).Some? && LeasesFit(s) && ErrorsFit(s)
    ensures ErrorsFit(Step(s, id, a, now).value) <==> HealSpares(s, a)
  {
    var s' := Step(s, id, a, now).value;
    StepIsLocal(s, id, a, now);
    if HealSpares(s, a) { ErrorsStay(s, s', id, a); } else { HealTakesBack(s, s', id, a); }
  }

  lemma HealTakesBack(s: State, s': State, id: nat, a: Action)
    requires GuardLocal(s, s', id, a) && HealLocal(s, s', id, a) && a.HealStores? && s'.acc.status == Idle
             && !HealSpares(s, a)
    ensures !StatusFits(s')
  {
    var bad :| bad in Leases(s) && MarkedBad(s.tasks[bad]);
    GuardStep(s, s', id, a);
    assert bad != id ==> s'.tasks[bad] == s.tasks[bad];
  }

  lemma CarriedStep(s: State, id: nat, a: Action, now: int, bound: nat)
    requires Step(s, id, a, now).Some? && LeasesFit(s) && ErrorsFit(s) && (a.HealStores? ==> Leases(s) == {})
    requires CarriedUpTo(s, bound) && |Healing(s)| < bound
    ensures CarriedUpTo(Step(s, id, a, now).value, bound)
  {
    StepIsLocal(s, id, a, now);
    UnforgivenStep(s, Step(s, id, a, now).value, id, a);
  }

  /** Only a carried count at the limit makes an account invalid. */
  lemma StaysValid(s: State, id: nat, a: Action, now: int)
    requires Step(s, id, a, now).Some? && s.acc.status != Invalid && CarriedUpTo(s, MAX_ERROR_COUNT - 1)
    ensures Step(s, id, a, now).value.acc.status != Invalid
  {
  }

  /** In a run whose heals find no guard, the error count never exceeds the heals in progress by
      more than one. */
  lemma {:induction false} ErrorsFitUpTo(states: seq<State>, events: seq<Event>, i: nat)
    requires IsRun(states, events) && HealsUnguarded(states, events) && i < |states|
    ensures ErrorsFit(states[i])
  {
    if i > 0 {
      ErrorsFitUpTo(states, events, i - 1);
      LeasesFitUpTo(states, events, i - 1);
      var e := events[i - 1];
      assert Step(states[i - 1], e.id, e.action, e.at) == Some(states[i - 1 + 1]);
      ErrorStep(states[i - 1], e.id, e.action, e.at);
    }
  }

  lemma StepInto(states: seq<State>, events: seq<Event>, i: nat)
    requires IsRun(states, events) && HealsUnguarded(states, events) && 0 < i < |states|
    ensures Step(states[i - 1], events[i - 1].id, events[i - 1].action, events[i - 1].at) == Some(states[i])
    ensures events[i - 1].action == HealStores ==> Leases(states[i - 1]) == {}
  {
    assert Step(states[i - 1], events[i - 1].id, events[i - 1].action, events[i - 1].at) == Some(states[i - 1 + 1]);
  }

  /** As long as no two heals are between storing Idle and zeroing the count, the account never
      becomes invalid: the count stays below the limit. */
  lemma {:induction false} InvalidNeedsTwoHeals(states: seq<State>, events: seq<Event>, i: nat)
    requires IsRun(states, events) && HealsUnguarded(states, events) && i < |states|
    requires forall j | 0 <= j < |states| :: |Healing(states[j])| <= 1
    ensures states[i].acc.status != Invalid && states[i].acc.errors <= 2 && CarriedUpTo(states[i], 2)
  {
    ErrorsFitUpTo(states, events, i);
    AtMostOneMore(states[i]);
    assert |Healing(states[i])| <= 1;
    if i > 0 {
      InvalidNeedsTwoHeals(states, events, i - 1);
      LeasesFitUpTo(states, events, i - 1);
      ErrorsFitUpTo(states, events, i - 1);
      StepInto(states, events, i);
      ValidStep(states[i - 1], events[i - 1].id, events[i - 1].action, events[i - 1].at, states[i]);
    }
  }

  lemma AtMostOneMore(s: State)
    requires ErrorsFit(s)
    ensures s.acc.errors <= |Healing(s)| + 1
  {
  }

  lemma ValidStep(s: State, id: nat, a: Action, now: int, s': State)
    requires Step(s, id, a, now) == Some(s') && LeasesFit(s) && ErrorsFit(s) && (a.HealStores? ==> Leases(s) == {})
    requires s.acc.status != Invalid && CarriedUpTo(s, 2) && |Healing(s)| <= 1
    ensures s'.acc.status != Invalid && CarriedUpTo(s', 2)
  {
    CarriedStep(s, id, a, now, 2);
    StaysValid(s, id, a, now);
  }

  /** Nothing happens to the account between a heal's store of Idle and its zeroing of the count. */
  ghost predicate HealsAtOnce(states: seq<State>, events: seq<Event>)
    requires |states| == |events| + 1
  {
    forall i | 0 <= i < |events| && Healing(states[i]) != {} :: events[i].action == HealZeroes
  }

  /** Then the count never exceeds one. */
  lemma {:induction false} AtMostOneError(states: seq<State>, events: seq<Event>, i: nat)
    requires IsRun(states, events) && HealsUnguarded(states, events) && HealsAtOnce(states, events) && i < |states|
    ensures states[i].acc.errors <= 1 && |Healing(states[i])| <= 1
  {
    ErrorsFitUpTo(states, events, i);
    if i > 0 {
      AtMostOneError(states, events, i - 1);
      var e := events[i - 1];
      assert Step(states[i - 1], e.id, e.action, e.at) == Some(states[i - 1 + 1]);
      StepIsLocal(states[i - 1], e.id, e.action, e.at);
      HealingStep(states[i - 1], states[i], e.id, e.action);
      GuardStep(states[i - 1], states[i], e.id, e.action);
      if Healing(states[i - 1]) == {} { assert |Healing(states[i - 1])| == 0; }
      if Healing(states[i]) == {} { assert |Healing(states[i])| == 0; }
    } else {
      assert Healing(states[0]) == {};
    }
  }

  // ---------------------------------------------------------------- how long a heal waits

  /** The step stores a cooldown. */
  predicate Cools(a: Action) { a.LoginCools? || a.FailureSettles? || a.MuteCools? || a.Transient? }

  lemma {:induction false} CooldownStands(states: seq<State>, events: seq<Event>, i: nat, j: nat)
    requires IsRun(states, events) && i <= j <= |events|
    requires forall k | i <= k < j :: !Cools(events[k].action)
    ensures states[j].acc.cooldownUntil == states[i].acc.cooldownUntil
    decreases j
  {
    if i < j {
      CooldownStands(states, events, i, j - 1);
      assert Step(states[j - 1], events[j - 1].id, events[j - 1].action, events[j - 1].at) == Some(states[j - 1 + 1]);
    }
  }

  /** How long each failure keeps heals away, unless another step stores a cooldown in between: a login
      refused as muted for a day, any other failure below the third for the time given, a mute for at
      least five minutes. The third failure stores none; it makes the account invalid. */
  lemma HealComesLater(states: seq<State>, events: seq<Event>, i: nat, j: nat)
    requires IsRun(states, events) && i < j < |events| && events[j].action == HealBegins
    requires forall k | i < k < j :: !Cools(events[k].action)
    ensures events[i].action.FailureSettles? ==>
              && events[i].id in states[i].tasks && states[i].tasks[events[i].id].Failed?
              && var pc := states[i].tasks[events[i].id];
                 && (pc.isMute ==> events[j].at >= events[i].at + 86_400 * SECOND)
                 && (!pc.isMute && pc.n < 3 ==> events[j].at >= events[i].at + events[i].action.secs * SECOND)
                 && (!pc.isMute && pc.n >= 3
                     ==> states[i + 1].acc == states[i].acc.(status := Invalid)
                         && events[j].at >= states[i].acc.cooldownUntil)
    ensures events[i].action.MuteCools? ==>
              events[j].at >= events[i].at + events[i].action.secs * SECOND
                && events[j].at >= events[i].at + 300 * SECOND
    ensures events[i].action.Transient? ==> events[j].at >= events[i].at + events[i].action.secs * SECOND
  {
    CooldownStands(states, events, i + 1, j);
    assert Step(states[j], events[j].id, events[j].action, events[j].at) == Some(states[j + 1]);
    assert Step(states[i], events[i].id, events[i].action, events[i].at) == Some(states[i + 1]);
  }
}
