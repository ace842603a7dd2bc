/** Capacity over every history.  Reservations, the running attempts and the budget
    agree whatever the actors do -- crashes, stale workers and operator retries
    included, also where a retry leaves a run with two running attempts. */
module CapacityHeld {
  import opened Contracts
  import opened Admission
  import opened Tables
  import opened Transactions
  import opened TableInvariant
  import opened RunProtocol
  import opened MirroredRows

  ghost predicate Accounted(config: Config, db: Db)
    requires config.Valid()
  {
    Shaped(db) && ReservedExactly(config, db) && WithinBudget(config, db)
  }

  // ---- what a step may do to the accounts ------------------------------------------

  /** Nothing starts or ends, and existing runs keep their tasks. */
  ghost predicate SameAccounts(db: Db, db': Db) {
    && db'.reservations == db.reservations && |db'.attempts| == |db.attempts|
    && |db.runs| <= |db'.runs|
    && (forall r :: 0 <= r < |db.runs| ==> db'.runs[r].task == db.runs[r].task)
    && (forall a :: 0 <= a < |db.attempts| ==>
          && db'.attempts[a].stage == db.attempts[a].stage
          && (db'.attempts[a].status.Running? <==> db.attempts[a].status.Running?))
  }

  lemma SameKeeps(config: Config, db: Db, db': Db)
    requires config.Valid() && Accounted(config, db) && Shaped(db') && SameAccounts(db, db')
    ensures Accounted(config, db')
  {
  }

  /** Ending an attempt releases what it held. */
  lemma EndReleases(config: Config, db: Db, a: nat, status: AttemptStatus, failure: Option<bool>)
    requires config.Valid() && Accounted(config, db) && a < |db.attempts| && !status.Running?
    ensures Accounted(config, EndAttempt(db, a, status, failure))
  {
    SumsRelease(db.reservations, a, |db.attempts|);
  }

  /** A worker's claim asks for exactly the effective request. */
  lemma WorkerWants(config: Config, db: Db, r: nat, worker: string, now: int, lease: int)
    requires config.Valid() && Shaped(db) && r < |db.runs|
    ensures ClaimWant(WorkerClaim(config, db, r, worker, now, lease)) == Some(Effective(config, db.runs[r].task))
  {
  }

  lemma ClaimReserves(config: Config, db: Db, r: nat, worker: string, now: int, lease: int, db': Db)
    requires config.Valid() && Accounted(config, db) && Shaped(db')
    requires db' == After(db, StartAttempt(db, WorkerClaim(config, db, r, worker, now, lease)))
    ensures Accounted(config, db')
  {
    if StartAttempt(db, WorkerClaim(config, db, r, worker, now, lease)).Committed? {
      WorkerWants(config, db, r, worker, now, lease);
      AddReservation(config, db, db', r, Effective(config, db.runs[r].task));
    }
  }

  /** One more running attempt, holding what fits. */
  lemma AddReservation(config: Config, db: Db, db': Db, r: nat, want: Reservation)
    requires config.Valid() && Accounted(config, db) && Shaped(db') && r < |db.runs| && |db'.runs| == |db.runs|
    requires want == Effective(config, db.runs[r].task)
    requires |db'.attempts| == |db.attempts| + 1 && db'.attempts[..|db.attempts|] == db.attempts
    requires db'.attempts[|db.attempts|].stage == r && db'.attempts[|db.attempts|].status.Running?
    requires db'.reservations == db.reservations[|db.attempts| := want]
    requires forall q :: 0 <= q < |db.runs| ==> db'.runs[q].task == db.runs[q].task
    requires Fits(config.capacity, CpuSum(db.reservations, |db.attempts|), MemorySum(db.reservations, |db.attempts|), want)
    ensures Accounted(config, db')
  {
    SumsAgree(db.reservations, db'.reservations, |db.attempts|);
    assert forall a :: 0 <= a < |db.attempts| ==> db'.attempts[a] == db'.attempts[..|db.attempts|][a];
  }

  // ---- every step ------------------------------------------------------------------

  /** Steps that end an attempt, start one, or do neither. */
  lemma StepAccounts(config: Config, s: State, action: Action, s': State)
    requires config.Valid() && Placed(s) && Accounted(config, s.db)
    requires s' == Step(config, s, action) && Placed(s')
    ensures Accounted(config, s'.db)
  {
    match action
    case ClaimRun(r, worker, now, lease) => ClaimReserves(config, s.db, r, worker, now, lease, s'.db);
    case Finish(k, result) =>
      if At(s, k).Executing? { EndReleases(config, s.db, At(s, k).attempt, AttemptStatusOf(result.status), result.failure); }
    case FailAttempt(k) =>
      if At(s, k).Failing? { EndReleases(config, s.db, At(s, k).attempt, AttemptStatus.Failed, Some(false)); }
    case Reclaim(a, reference, gone) =>
      if a < |s.db.attempts| { EndReleases(config, s.db, a, AttemptStatus.Lost, Some(true)); }
    case _ => OtherStepAccounts(config, s, action, s');
  }

  lemma OtherStepAccounts(config: Config, s: State, action: Action, s': State)
    requires config.Valid() && Placed(s) && Accounted(config, s.db)
    requires s' == Step(config, s, action) && Placed(s')
    requires !action.ClaimRun? && !action.Finish? && !action.FailAttempt? && !action.Reclaim?
    ensures Accounted(config, s'.db)
  {
    if action.Settle? || action.FailRun? || action.Lose? || action.Resume? || action.SettleCancellation? {
      MoverSameAccounts(config, s, action);
    } else {
      RequestSameAccounts(config, s, action);
    }
    SameKeeps(config, s.db, s'.db);
  }

  lemma RequestSameAccounts(config: Config, s: State, action: Action)
    requires config.Valid()
    requires !action.ClaimRun? && !action.Finish? && !action.FailAttempt? && !action.Reclaim?
    requires !action.Settle? && !action.FailRun? && !action.Lose? && !action.Resume? && !action.SettleCancellation?
    ensures SameAccounts(s.db, Step(config, s, action).db)
  {
    match action
    case Cancel(r) => TransitionSameAccounts(s.db, r, CancelRequested);
    case _ =>
  }

  lemma TransitionSameAccounts(db: Db, r: nat, target: RunStatus)
    ensures SameAccounts(db, After(db, TransitionRun(db, r, target)))
  {
  }

  lemma RequeueSameAccounts(db: Db, r: nat)
    ensures SameAccounts(db, After(db, ScheduleRetry(db, r)))
  {
  }

  lemma MoverSameAccounts(config: Config, s: State, action: Action)
    requires config.Valid()
    requires action.Settle? || action.FailRun? || action.Lose? || action.Resume? || action.SettleCancellation?
    ensures SameAccounts(s.db, Step(config, s, action).db)
  {
    var pc := At(s, action.actor);
    if pc.Cancelling? {
      TransitionSameAccounts(s.db, pc.run, Cancelled);
    } else if !pc.Done? {
      var r := RunOf(s.db, pc.attempt);
      RequeueSameAccounts(s.db, r);
      TransitionSameAccounts(s.db, r, if pc.Settling? then pc.result.status else if pc.Losing? then RunStatus.Lost else RunStatus.Failed);
    }
  }

  lemma {:induction false} ReachableIsAccounted(config: Config, actions: seq<Action>)
    requires config.Valid()
    ensures Accounted(config, Run(config, START, actions).db)
  {
    if actions != [] {
      var before := actions[..|actions| - 1];
      ReachableIsAccounted(config, before);
      ReachableIsPlaced(config, before);
      ReachableIsPlaced(config, actions);
      StepAccounts(config, Run(config, START, before), actions[|actions| - 1], Run(config, START, actions));
    }
  }

  // ---- what the running attempts hold ------------------------------------------------

  /** Cores held by the first `n` attempts that are running, by their tasks' requests. */
  ghost function HeldCpu(config: Config, db: Db, n: nat): nat
    requires Shaped(db) && n <= |db.attempts|
  {
    if n == 0 then 0
    else
      var row := db.attempts[n - 1];
      HeldCpu(config, db, n - 1) + (if row.status.Running? then AskedCpu(config, db.runs[row.stage].task) else 0)
  }

  ghost function HeldMemory(config: Config, db: Db, n: nat): nat
    requires Shaped(db) && n <= |db.attempts|
  {
    if n == 0 then 0
    else
      var row := db.attempts[n - 1];
      HeldMemory(config, db, n - 1) + (if row.status.Running? then AskedMemory(config, db.runs[row.stage].task) else 0)
  }

  lemma {:induction false} HeldIsReserved(config: Config, db: Db, n: nat)
    requires Shaped(db) && ReservedExactly(config, db) && n <= |db.attempts|
    ensures HeldCpu(config, db, n) == CpuSum(db.reservations, n)
    ensures HeldMemory(config, db, n) == MemorySum(db.reservations, n)
  {
    if n != 0 { HeldIsReserved(config, db, n - 1); }
  }

  /** Capacity is never oversold, in any history: the reservation table is exactly the
      running attempts, each with the cores and the memory its task asks for, or the
      configured default where it is silent; and what those attempts hold, summed over
      what their tasks ask for, stays within the budget. */
  lemma NeverOversold(config: Config, actions: seq<Action>)
    requires config.Valid()
    ensures var db := Run(config, START, actions).db;
            && Shaped(db)
            && (forall a: nat :: a in db.reservations <==> a < |db.attempts| && db.attempts[a].status.Running?)
            && (forall a: nat :: a in db.reservations ==>
                  var asked := db.runs[db.attempts[a].stage].task.resources;
                  && db.reservations[a].cpu ==
                     (if asked.Some? && asked.value.cpuCores.Some? then asked.value.cpuCores.value else config.defaultCpu)
                  && db.reservations[a].memory ==
                     (if asked.Some? && asked.value.memoryBytes.Some? then asked.value.memoryBytes.value
                      else config.defaultMemory))
            && HeldCpu(config, db, |db.attempts|) <= CpuBudget(config.capacity)
            && HeldMemory(config, db, |db.attempts|) <= MemoryBudget(config.capacity)
  {
    ReachableIsAccounted(config, actions);
    var db := Run(config, START, actions).db;
    HeldIsReserved(config, db, |db.attempts|);
  }
}
