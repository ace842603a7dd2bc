/** The durable run lifecycle as a concurrent protocol.  Every store transaction
    and every decisive read is its own step; workers, lease reclaimers, cancel
    requests, operators and crashes interleave freely. */
module RunProtocol {
  import opened Contracts
  import opened Admission
  import opened Tables
  import opened Transactions
  import opened TableInvariant

  /** What an adapter execution reports: a terminal status and, perhaps, a
      failure with its `retryable` flag. */
  datatype Result = Result(status: RunStatus, failure: Option<bool>)
  {
    predicate Valid() {
      status.Succeeded? || status.Failed? || status.Cancelled? || status.TimedOut?
    }
  }

  function AttemptStatusOf(status: RunStatus): AttemptStatus {
    if status.Succeeded? then AttemptStatus.Succeeded else AttemptStatus.Failed
  }

  predicate ShouldRetry(result: Result, number: nat, maxAttempts: nat) {
    result.status.Failed? && result.failure == Some(true) && number < maxAttempts
  }

  /** Where an actor stands between two of its transactions. */
  datatype Pc =
    | Executing(attempt: nat)                    // a worker running attempt's adapter
    | Settling(attempt: nat, result: Result)     // finished the attempt, run not settled
    | Failing(attempt: nat, owes: bool)          // about to fail the attempt
    | FailChecking(attempt: nat, owes: bool)     // about to read the run's status
    | FailSettling(attempt: nat, owes: bool)     // read "running", about to fail the run
    | Reclaimed(attempt: nat)                    // marked the attempt lost
    | Resuming(attempt: nat)                     // found room, about to requeue the run
    | Losing(attempt: nat)                       // about to move the run to lost
    | Cancelling(run: nat)                       // listed the run as an abandoned cancellation
    | Done

  /** Whoever moved an attempt out of running owes the settlement of its run. */
  predicate Owes(pc: Pc) {
    match pc
    case Settling(_, _) => true
    case Failing(_, owes) => owes
    case FailChecking(_, owes) => owes
    case FailSettling(_, owes) => owes
    case Reclaimed(_) => true
    case Resuming(_) => true
    case Losing(_) => true
    case _ => false
  }

  datatype State = State(db: Db, actors: seq<Pc>)

  datatype Action =
    | Submit(catalog: Catalog, submission: Submission)
    | Cancel(run: nat)
    | FailQueued(run: nat)
    | ClaimRun(run: nat, worker: string, now: int, leaseSeconds: int)
    | Beat(attempt: nat, worker: string, now: int, leaseSeconds: int)
    | Finish(actor: nat, result: Result)
    | Fault(actor: nat)
    | Settle(actor: nat)
    | FailAttempt(actor: nat)
    | FailCheck(actor: nat)
    | FailRun(actor: nat)
    | Reclaim(attempt: nat, reference: int, gone: bool)
    | Weigh(actor: nat)
    | Resume(actor: nat)
    | Lose(actor: nat)
    | ListCancellation(run: nat)
    | SettleCancellation(actor: nat)
    | Crash(actor: nat)
    | OperatorRetry(run: nat)

  function At(s: State, k: nat): Pc {
    if k < |s.actors| then s.actors[k] else Done
  }

  function Move(s: State, k: nat, pc: Pc): State {
    if k < |s.actors| then s.(actors := s.actors[k := pc]) else s
  }

  /** The run an attempt belongs to. */
  function RunOf(db: Db, a: nat): nat {
    if a < |db.attempts| then db.attempts[a].stage else |db.runs|
  }

  // ---- a worker ------------------------------------------------------------------

  function DoClaim(config: Config, s: State, r: nat, worker: string, now: int, lease: int): State
    requires config.Valid()
  {
    var t := StartAttempt(s.db, WorkerClaim(config, s.db, r, worker, now, lease));
    if t.Committed? then State(t.db, s.actors + [Executing(t.value)]) else s
  }

  function DoFinish(s: State, k: nat, result: Result): State {
    if !At(s, k).Executing? || !result.Valid() then s
    else
      var a := At(s, k).attempt;
      var t := FinishAttempt(s.db, a, AttemptStatusOf(result.status), result.failure);
      if t.Committed? then Move(s.(db := t.db), k, Settling(a, result)) else Move(s, k, Failing(a, false))
  }

  /** Anything that raises while the adapter runs or while the run is settled. */
  function DoFault(s: State, k: nat): State {
    match At(s, k)
    case Executing(a) => Move(s, k, Failing(a, false))
    case Settling(a, _) => Move(s, k, Failing(a, true))
    case _ => s
  }

  function DoSettle(s: State, k: nat): State {
    if !At(s, k).Settling? then s
    else
      var Settling(a, result) := At(s, k);
      var t := SettleRun(s.db, a, result);
      if t.Committed? then Move(s.(db := t.db), k, Done) else Move(s, k, Failing(a, true))
  }

  function DoFailAttempt(s: State, k: nat): State {
    if !At(s, k).Failing? then s
    else
      var Failing(a, owes) := At(s, k);
      var t := FinishAttempt(s.db, a, AttemptStatus.Failed, Some(false));
      if t.Committed? then Move(s.(db := t.db), k, FailChecking(a, true)) else Move(s, k, FailChecking(a, owes))
  }

  function DoFailCheck(s: State, k: nat): State {
    if !At(s, k).FailChecking? then s
    else
      var FailChecking(a, owes) := At(s, k);
      var r := RunOf(s.db, a);
      if r < |s.db.runs| && s.db.runs[r].status.Running? then Move(s, k, FailSettling(a, owes)) else Move(s, k, Done)
  }

  function DoFailRun(s: State, k: nat): State {
    if !At(s, k).FailSettling? then s
    else MoveRun(s, k, RunOf(s.db, At(s, k).attempt), RunStatus.Failed)
  }

  /** The actor's last act: move a run, or be refused, and be done. */
  function MoveRun(s: State, k: nat, r: nat, target: RunStatus): State {
    Move(s.(db := After(s.db, TransitionRun(s.db, r, target))), k, Done)
  }

  // ---- a reclaimer -----------------------------------------------------------------

  function DoReclaim(s: State, a: nat, reference: int, gone: bool): State {
    var t := MarkLost(s.db, a, reference);
    if gone && t.Committed? then State(t.db, s.actors + [Reclaimed(a)]) else s
  }

  function DoWeigh(s: State, k: nat): State {
    if !At(s, k).Reclaimed? then s
    else
      var a := At(s, k).attempt;
      Move(s, k, if HasRoomToResume(s.db, RunOf(s.db, a)) then Resuming(a) else Losing(a))
  }

  function DoResume(s: State, k: nat): State {
    if !At(s, k).Resuming? then s
    else
      var a := At(s, k).attempt;
      var t := ScheduleRetry(s.db, RunOf(s.db, a));
      if t.Committed? then Move(s.(db := t.db), k, Done) else Move(s, k, Losing(a))
  }

  function DoLose(s: State, k: nat): State {
    if !At(s, k).Losing? then s
    else MoveRun(s, k, RunOf(s.db, At(s, k).attempt), RunStatus.Lost)
  }

  // ---- abandoned cancellations -----------------------------------------------------

  function DoListCancellation(s: State, r: nat): State {
    if Abandoned(s.db, r) then s.(actors := s.actors + [Cancelling(r)]) else s
  }

  function DoSettleCancellation(s: State, k: nat): State {
    if !At(s, k).Cancelling? then s
    else MoveRun(s, k, At(s, k).run, Cancelled)
  }

  function Step(config: Config, s: State, action: Action): State
    requires config.Valid()
  {
    match action
    case Submit(c, submission) => s.(db := After(s.db, SubmitRun(s.db, c, submission)))
    case Cancel(r) => s.(db := After(s.db, RequestCancel(s.db, r)))
    case FailQueued(r) => s.(db := After(s.db, FailQueuedRun(s.db, r)))
    case OperatorRetry(r) => s.(db := After(s.db, RequestRetry(s.db, r)))
    case Beat(a, worker, now, lease) => s.(db := After(s.db, Heartbeat(s.db, a, worker, now, lease)))
    case ClaimRun(r, worker, now, lease) => DoClaim(config, s, r, worker, now, lease)
    case Finish(k, result) => DoFinish(s, k, result)
    case Fault(k) => DoFault(s, k)
    case Settle(k) => DoSettle(s, k)
    case FailAttempt(k) => DoFailAttempt(s, k)
    case FailCheck(k) => DoFailCheck(s, k)
    case FailRun(k) => DoFailRun(s, k)
    case Reclaim(a, reference, gone) => DoReclaim(s, a, reference, gone)
    case Weigh(k) => DoWeigh(s, k)
    case Resume(k) => DoResume(s, k)
    case Lose(k) => DoLose(s, k)
    case ListCancellation(r) => DoListCancellation(s, r)
    case SettleCancellation(k) => DoSettleCancellation(s, k)
    case Crash(k) => Move(s, k, Done)
  }

  /** After finish_attempt: requeue a retryable failure with budget, or move the
      run to the reported status. */
  function SettleRun(db: Db, a: nat, result: Result): Txn<()> {
    var r := RunOf(db, a);
    if a < |db.attempts| && r < |db.runs| && ShouldRetry(result, db.attempts[a].number, db.runs[r].task.maxAttempts)
    then ScheduleRetry(db, r)
    else TransitionRun(db, r, result.status)
  }

  function Run(config: Config, s: State, actions: seq<Action>): State
    requires config.Valid()
  {
    if actions == [] then s
    else Step(config, Run(config, s, actions[..|actions| - 1]), actions[|actions| - 1])
  }

  const START := State(EMPTY, [])

  /** Runs without operator retries; and, further, without crashes. */
  predicate Unassisted(actions: seq<Action>) {
    forall i :: 0 <= i < |actions| ==> !actions[i].OperatorRetry?
  }

  predicate CrashFree(actions: seq<Action>) {
    forall i :: 0 <= i < |actions| ==> !actions[i].Crash?
  }
}
