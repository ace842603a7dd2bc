/** The lifecycle when an actor's whole conclusion is one step: finishing an
    attempt together with settling its run, and reclaiming a lease together with
    settling its run.  Operator retries are allowed here, and any worker may at any
    time conclude any attempt it ever held. */
module AtomicProtocol {
  import opened Contracts
  import opened Admission
  import opened Tables
  import opened Transactions
  import opened TableInvariant
  import opened RunProtocol
  import opened RunSafety
  import opened RunTheorems

  /** The failure path: fail the attempt if it still runs, and the run if it still runs. */
  function RecordFailure(db: Db, a: nat): Db {
    var db1 := After(db, FinishAttempt(db, a, AttemptStatus.Failed, Some(false)));
    var r := RunOf(db1, a);
    if r < |db1.runs| && db1.runs[r].status.Running? then After(db1, TransitionRun(db1, r, RunStatus.Failed)) else db1
  }

  /** Finish the attempt and settle the run; any refusal takes the failure path. */
  function Conclude(db: Db, a: nat, result: Result): Db {
    var t := FinishAttempt(db, a, AttemptStatusOf(result.status), result.failure);
    if t.Refused? then RecordFailure(db, a)
    else
      var u := SettleRun(t.db, a, result);
      if u.Committed? then u.db else RecordFailure(t.db, a)
  }

  /** Settle a run whose attempt was just marked lost. */
  function SettleLost(db: Db, r: nat): Db {
    if HasRoomToResume(db, r) && ScheduleRetry(db, r).Committed? then ScheduleRetry(db, r).db
    else After(db, TransitionRun(db, r, RunStatus.Lost))
  }

  function ReclaimOne(db: Db, a: nat, reference: int): Db {
    var t := MarkLost(db, a, reference);
    if t.Committed? then SettleLost(t.db, RunOf(db, a)) else db
  }

  function CancelOne(db: Db, r: nat): Db {
    if Abandoned(db, r) then After(db, TransitionRun(db, r, Cancelled)) else db
  }

  datatype Event =
    | Submitted(catalog: Catalog, submission: Submission)
    | CancelAsked(run: nat)
    | PreflightFailed(run: nat)
    | ClaimMade(run: nat, worker: string, now: int, leaseSeconds: int)
    | Beaten(attempt: nat, worker: string, now: int, leaseSeconds: int)
    | Concluded(attempt: nat, result: Result)
    | Raised(attempt: nat)
    | LeaseExpired(attempt: nat, reference: int)
    | CancellationSettled(run: nat)
    | Retried(run: nat)

  function Apply(config: Config, db: Db, e: Event): Db
    requires config.Valid()
  {
    match e
    case Submitted(c, submission) => After(db, SubmitRun(db, c, submission))
    case CancelAsked(r) => After(db, RequestCancel(db, r))
    case PreflightFailed(r) => After(db, FailQueuedRun(db, r))
    case ClaimMade(r, worker, now, lease) => After(db, StartAttempt(db, WorkerClaim(config, db, r, worker, now, lease)))
    case Beaten(a, worker, now, lease) => After(db, Heartbeat(db, a, worker, now, lease))
    case Concluded(a, result) => if result.Valid() then Conclude(db, a, result) else db
    case Raised(a) => RecordFailure(db, a)
    case LeaseExpired(a, reference) => ReclaimOne(db, a, reference)
    case CancellationSettled(r) => CancelOne(db, r)
    case Retried(r) => After(db, RequestRetry(db, r))
  }

  function Replay(config: Config, events: seq<Event>): Db
    requires config.Valid()
  {
    if events == [] then EMPTY
    else Apply(config, Replay(config, events[..|events| - 1]), events[|events| - 1])
  }

  /** While a run says "running", an attempt of it runs; a closed run has none. */
  ghost predicate RunningMeansLive(db: Db) {
    forall r :: 0 <= r < |db.runs| ==>
      && (db.runs[r].status.Running? ==> HasLive(db, r))
      && (Closed(db.runs[r].status) ==> !HasLive(db, r))
  }

  ghost predicate Sound(config: Config, db: Db)
    requires config.Valid()
  {
    Consistent(config, db) && RunningMeansLive(db)
  }

  /** A run other than `r` is as attended after as before. */
  ghost predicate Apart(db: Db, db': Db, r: nat) {
    && |db.runs| == |db'.runs|
    && (forall q :: 0 <= q < |db.runs| && q != r ==>
          db'.runs[q].status == db.runs[q].status && (HasLive(db', q) <==> HasLive(db, q)))
  }

  lemma ApartKeeps(config: Config, db: Db, db': Db, r: nat)
    requires config.Valid() && Sound(config, db) && Consistent(config, db') && Apart(db, db', r)
    requires r < |db'.runs| ==> !db'.runs[r].status.Running?
    requires r < |db'.runs| && Closed(db'.runs[r].status) ==> !HasLive(db', r)
    ensures Sound(config, db')
  {
  }

  lemma BothApart(db: Db, r: nat, status: RunStatus)
    requires r < |db.runs| && r < |db.stages|
    ensures Apart(db, SetBoth(db, r, status), r)
    ensures HasLive(SetBoth(db, r, status), r) <==> HasLive(db, r)
  {
    SameTable(db, SetBoth(db, r, status));
  }

  lemma EndApart(db: Db, a: nat, status: AttemptStatus, failure: Option<bool>)
    requires a < |db.attempts| && db.attempts[a].status.Running? && !status.Running?
    ensures Apart(db, EndAttempt(db, a, status, failure), db.attempts[a].stage)
  {
    var db' := EndAttempt(db, a, status, failure);
    forall q | 0 <= q < |db.runs| && q != db.attempts[a].stage ensures HasLive(db', q) <==> HasLive(db, q) {
      if HasLive(db, q) {
        var b :| 0 <= b < |db.attempts| && LiveAt(db, q, b);
        assert LiveAt(db', q, b);
      }
      if HasLive(db', q) {
        var b :| 0 <= b < |db'.attempts| && LiveAt(db', q, b);
        assert LiveAt(db, q, b);
      }
    }
  }

  /** The failure path leaves the run of its attempt not running, whatever it finds. */
  lemma FailureSettles(config: Config, db: Db, a: nat)
    requires config.Valid() && Consistent(config, db)
    ensures var db' := RecordFailure(db, a);
            && Consistent(config, db') && Apart(db, db', RunOf(db, a))
            && (RunOf(db, a) < |db.runs| ==>
                  var st, st' := db.runs[RunOf(db, a)].status, db'.runs[RunOf(db, a)].status;
                  if st.Running? then st'.Failed? else st' == st)
            && (HasLive(db', RunOf(db, a)) ==> HasLive(db, RunOf(db, a)))
  {
    var r := RunOf(db, a);
    var db1 := After(db, FinishAttempt(db, a, AttemptStatus.Failed, Some(false)));
    FinishKeeps(config, db, a, AttemptStatus.Failed, Some(false));
    if a < |db.attempts| && db.attempts[a].status.Running? { EndApart(db, a, AttemptStatus.Failed, Some(false)); }
    assert Apart(db, db1, r) && (HasLive(db1, r) ==> HasLive(db, r));
    if r < |db1.runs| && db1.runs[r].status.Running? { RunFails(config, db1, r); }
  }

  lemma RunFails(config: Config, db: Db, r: nat)
    requires config.Valid() && Consistent(config, db) && r < |db.runs| && db.runs[r].status.Running?
    ensures var t := TransitionRun(db, r, RunStatus.Failed);
            && t.Committed? && Consistent(config, t.db) && Apart(db, t.db, r)
            && t.db.runs[r].status.Failed? && (HasLive(t.db, r) <==> HasLive(db, r))
  {
    TransitionMovesBoth(db, r, RunStatus.Failed);
    TransitionKeeps(config, db, r, RunStatus.Failed);
    BothApart(db, r, RunStatus.Failed);
  }

  /** Settling after the attempt ended: the run of the attempt never stays running. */
  lemma SettleEffect(config: Config, db: Db, a: nat, result: Result)
    requires config.Valid() && Consistent(config, db) && a < |db.attempts| && result.Valid()
    requires !HasLive(db, db.attempts[a].stage) && IsLatest(db, a)
    ensures var r, t := db.attempts[a].stage, SettleRun(db, a, result);
            t.Committed? ==>
              && Consistent(config, t.db) && Apart(db, t.db, r) && !HasLive(t.db, r)
              && r < |t.db.runs| && !t.db.runs[r].status.Running?
  {
    var r := db.attempts[a].stage;
    if ShouldRetry(result, db.attempts[a].number, db.runs[r].task.maxAttempts) {
      ScheduleRetryKeeps(config, db, r);
      BothApart(db, r, RetryWait);
    } else {
      TransitionMovesBoth(db, r, result.status);
      TransitionKeeps(config, db, r, result.status);
      BothApart(db, r, result.status);
    }
  }

  lemma ConcludeKeeps(config: Config, db: Db, a: nat, result: Result)
    requires config.Valid() && Sound(config, db) && result.Valid()
    ensures Sound(config, Conclude(db, a, result))
  {
    var status := AttemptStatusOf(result.status);
    FinishKeeps(config, db, a, status, result.failure);
    if a < |db.attempts| && db.attempts[a].status.Running? {
      var r := db.attempts[a].stage;
      var db1 := EndAttempt(db, a, status, result.failure);
      EndApart(db, a, status, result.failure);
      RowUpdateKeepsCounts(db, db1, a);
      SettleEffect(config, db1, a, result);
      FailureSettles(config, db1, a);
      ApartKeeps(config, db, Conclude(db, a, result), r);
    } else {
      RaiseKeeps(config, db, a);
    }
  }

  lemma RaiseKeeps(config: Config, db: Db, a: nat)
    requires config.Valid() && Sound(config, db)
    ensures Sound(config, RecordFailure(db, a))
  {
    FailureSettles(config, db, a);
    ApartKeeps(config, db, RecordFailure(db, a), RunOf(db, a));
  }

  lemma SettleLostEffect(config: Config, db: Db, r: nat)
    requires config.Valid() && Consistent(config, db) && r < |db.runs| && !HasLive(db, r)
    ensures var db' := SettleLost(db, r);
            && Consistent(config, db') && Apart(db, db', r) && !HasLive(db', r)
            && db'.runs[r].status ==
               (if !db.runs[r].status.Running? && !db.runs[r].status.RetryWait? && !db.runs[r].status.CancelRequested?
                then db.runs[r].status
                else if db.runs[r].status.Running? && HasRoomToResume(db, r) then RetryWait
                else RunStatus.Lost)
  {
    if HasRoomToResume(db, r) {
      ScheduleRetryKeeps(config, db, r);
      BothApart(db, r, RetryWait);
    }
    TransitionMovesBoth(db, r, RunStatus.Lost);
    TransitionKeeps(config, db, r, RunStatus.Lost);
    BothApart(db, r, RunStatus.Lost);
  }

  lemma ReclaimKeeps(config: Config, db: Db, a: nat, reference: int)
    requires config.Valid() && Sound(config, db)
    ensures Sound(config, ReclaimOne(db, a, reference))
  {
    MarkLostKeeps(config, db, a, reference);
    if MarkLost(db, a, reference).Committed? {
      var r := db.attempts[a].stage;
      EndApart(db, a, AttemptStatus.Lost, Some(true));
      SettleLostEffect(config, MarkLost(db, a, reference).db, r);
      ApartKeeps(config, db, ReclaimOne(db, a, reference), r);
    }
  }

  lemma TransitionSound(config: Config, db: Db, r: nat, target: RunStatus)
    requires config.Valid() && Sound(config, db)
    requires !Unclaimed(target) && !target.Preparing? && !target.Running?
    requires Closed(target) ==> !HasLive(db, r)
    ensures Sound(config, After(db, TransitionRun(db, r, target)))
  {
    TransitionMovesBoth(db, r, target);
    TransitionKeeps(config, db, r, target);
    if r < |db.runs| {
      BothApart(db, r, target);
      if TransitionRun(db, r, target).Committed? { ApartKeeps(config, db, SetBoth(db, r, target), r); }
    }
  }

  lemma MoveSound(config: Config, db: Db, r: nat, status: RunStatus)
    requires config.Valid() && Sound(config, db) && r < |db.runs|
    requires Consistent(config, SetBoth(db, r, status))
    requires !status.Running? && !Closed(status)
    ensures Sound(config, SetBoth(db, r, status))
  {
    BothApart(db, r, status);
    ApartKeeps(config, db, SetBoth(db, r, status), r);
  }

  lemma ClaimSound(config: Config, db: Db, r: nat, worker: string, now: int, lease: int)
    requires config.Valid() && Sound(config, db)
    ensures Sound(config, After(db, StartAttempt(db, WorkerClaim(config, db, r, worker, now, lease))))
  {
    StartEffect(config, db, r, worker, now, lease);
    StartKeeps(config, db, r, worker, now, lease);
    if 0 < lease && Claimable(config, db, r) { ClaimedCounts(config, db, r, worker, now + lease); }
  }

  lemma StorySound(config: Config, db: Db, db': Db)
    requires config.Valid() && Sound(config, db) && Consistent(config, db') && SameStory(db, db')
    ensures Sound(config, db')
  {
    SameAttemptFacts(db, db');
  }

  lemma SubmitSound(config: Config, db: Db, c: Catalog, submission: Submission)
    requires config.Valid() && Sound(config, db)
    ensures Sound(config, After(db, SubmitRun(db, c, submission)))
  {
    SubmitKeeps(config, db, c, submission);
    StorySound(config, db, After(db, SubmitRun(db, c, submission)));
  }

  lemma BeatSound(config: Config, db: Db, a: nat, worker: string, now: int, lease: int)
    requires config.Valid() && Sound(config, db)
    ensures Sound(config, After(db, Heartbeat(db, a, worker, now, lease)))
  {
    HeartbeatKeeps(config, db, a, worker, now, lease);
    StorySound(config, db, After(db, Heartbeat(db, a, worker, now, lease)));
  }

  lemma PreflightSound(config: Config, db: Db, r: nat)
    requires config.Valid() && Sound(config, db)
    ensures Sound(config, After(db, FailQueuedRun(db, r)))
  {
    FailQueuedKeeps(config, db, r);
    if r < |db.runs| && Unclaimed(db.runs[r].status) { MoveSound(config, db, r, RunStatus.Failed); }
  }

  lemma RetrySound(config: Config, db: Db, r: nat)
    requires config.Valid() && Sound(config, db)
    ensures Sound(config, After(db, RequestRetry(db, r)))
  {
    RequestRetryKeeps(config, db, r);
    if RequestRetry(db, r).Committed? { MoveSound(config, db, r, RetryWait); }
  }

  lemma ApplyKeeps(config: Config, db: Db, e: Event)
    requires config.Valid() && Sound(config, db)
    ensures Sound(config, Apply(config, db, e))
  {
    match e
    case Submitted(c, submission) => SubmitSound(config, db, c, submission);
    case CancelAsked(r) => TransitionSound(config, db, r, CancelRequested);
    case PreflightFailed(r) => PreflightSound(config, db, r);
    case ClaimMade(r, worker, now, lease) => ClaimSound(config, db, r, worker, now, lease);
    case Beaten(a, worker, now, lease) => BeatSound(config, db, a, worker, now, lease);
    case Concluded(a, result) => if result.Valid() { ConcludeKeeps(config, db, a, result); }
    case Raised(a) => RaiseKeeps(config, db, a);
    case LeaseExpired(a, reference) => ReclaimKeeps(config, db, a, reference);
    case CancellationSettled(r) => if Abandoned(db, r) { TransitionSound(config, db, r, Cancelled); }
    case Retried(r) => RetrySound(config, db, r);
  }

  /** Every history, operator retries included: at most one running attempt per run,
      numbered last and within the budget; a running run has one, a closed run and a
      claimable run have none; reservations and budgets are exact. */
  lemma {:induction false} HistoriesAreSound(config: Config, events: seq<Event>)
    requires config.Valid()
    ensures Sound(config, Replay(config, events))
    ensures var db := Replay(config, events);
            forall r :: 0 <= r < |db.runs| ==> NumberedWithinBudget(db, r)
    ensures var db := Replay(config, events);
            forall a, b, r :: LiveAt(db, r, a) && LiveAt(db, r, b) ==> a == b
  {
    if events == [] {
      EmptyIsConsistent(config);
    } else {
      HistoriesAreSound(config, events[..|events| - 1]);
      ApplyKeeps(config, Replay(config, events[..|events| - 1]), events[|events| - 1]);
    }
    var db := Replay(config, events);
    forall r | 0 <= r < |db.runs| ensures NumberedWithinBudget(db, r) { ConsistentNumbers(config, db, r); }
    forall a, b, r | LiveAt(db, r, a) && LiveAt(db, r, b) ensures a == b { LatestIsUnique(db, a, b); }
  }

  /** How one event may leave a terminal status: only an accepted operator retry
      does, and only from failed to waiting. */
  ghost predicate LeavesTerminal(db: Db, e: Event, r: nat) {
    e == Retried(r) && RequestRetry(db, r).Committed?
  }

  lemma FailureIsFinal(config: Config, db: Db, e: Event, r: nat)
    requires config.Valid() && Sound(config, db) && r < |db.runs| && Terminal(db.runs[r].status)
    ensures r < |Apply(config, db, e).runs|
    ensures if LeavesTerminal(db, e, r)
            then db.runs[r].status.Failed? && Apply(config, db, e).runs[r].status.RetryWait?
            else Apply(config, db, e).runs[r].status == db.runs[r].status
  {
    match e
    case Concluded(a, result) => ConcludeFinal(config, db, a, result, r);
    case Raised(a) => FinalUnderFailure(db, a, r);
    case LeaseExpired(a, reference) => FinalUnderReclaim(db, a, reference, r);
    case ClaimMade(q, worker, now, lease) => StartEffect(config, db, q, worker, now, lease);
    case Retried(q) => FinalUnderRetry(config, db, q, r);
    case _ => FinalUnderRequest(config, db, e, r);
  }

  lemma FinalUnderRequest(config: Config, db: Db, e: Event, r: nat)
    requires config.Valid() && Shaped(db) && Mirrored(db) && r < |db.runs| && Terminal(db.runs[r].status)
    requires e.Submitted? || e.CancelAsked? || e.PreflightFailed? || e.Beaten? || e.CancellationSettled?
    ensures r < |Apply(config, db, e).runs| && Apply(config, db, e).runs[r].status == db.runs[r].status
  {
    if e.CancelAsked? { TracksTransition(db, e.run, CancelRequested, r); }
    if e.CancellationSettled? { TracksTransition(db, e.run, Cancelled, r); }
  }

  lemma FinalUnderRetry(config: Config, db: Db, q: nat, r: nat)
    requires config.Valid() && Consistent(config, db) && r < |db.runs| && Terminal(db.runs[r].status)
    ensures var db' := After(db, RequestRetry(db, q));
            && r < |db'.runs|
            && (if q == r && RequestRetry(db, r).Committed?
                then db.runs[r].status.Failed? && db'.runs[r].status.RetryWait?
                else db'.runs[r].status == db.runs[r].status)
  {
    RequestRetryKeeps(config, db, q);
  }

  lemma FinalUnderReclaim(db: Db, a: nat, reference: int, r: nat)
    requires Shaped(db) && Mirrored(db) && r < |db.runs| && Terminal(db.runs[r].status)
    ensures r < |ReclaimOne(db, a, reference).runs|
    ensures ReclaimOne(db, a, reference).runs[r].status == db.runs[r].status
  {
    var t := MarkLost(db, a, reference);
    if t.Committed? {
      TracksRequeue(t.db, RunOf(db, a), r);
      TracksTransition(t.db, RunOf(db, a), RunStatus.Lost, r);
    }
  }

  lemma ConcludeFinal(config: Config, db: Db, a: nat, result: Result, r: nat)
    requires config.Valid() && Consistent(config, db) && r < |db.runs| && Terminal(db.runs[r].status)
    ensures r < |Conclude(db, a, result).runs| && Conclude(db, a, result).runs[r].status == db.runs[r].status
  {
    FinalUnderFailure(db, a, r);
    var t := FinishAttempt(db, a, AttemptStatusOf(result.status), result.failure);
    if t.Committed? {
      FinalUnderFailure(t.db, a, r);
      TracksRequeue(t.db, RunOf(t.db, a), r);
      TracksTransition(t.db, RunOf(t.db, a), result.status, r);
    }
  }

  lemma FinalUnderFailure(db: Db, a: nat, r: nat)
    requires Shaped(db) && Mirrored(db) && r < |db.runs| && Terminal(db.runs[r].status)
    ensures r < |RecordFailure(db, a).runs| && RecordFailure(db, a).runs[r].status == db.runs[r].status
  {
    var db1 := After(db, FinishAttempt(db, a, AttemptStatus.Failed, Some(false)));
    TracksTransition(db1, RunOf(db1, a), RunStatus.Failed, r);
  }
}
