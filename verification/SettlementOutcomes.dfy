/** How a run ends up: after its attempt was concluded, after its lease was reclaimed, and
    while its lease still runs.  Statuses and times are written out. */
module SettlementOutcomes {
  import opened Contracts
  import opened Admission
  import opened Tables
  import opened Transactions
  import opened TableInvariant
  import opened RunProtocol
  import opened AtomicProtocol
  import opened ReclaimPass
  import opened TransactionOutcomes

  // ---- a concluded attempt -----------------------------------------------------------

  /** The adapter asked for another attempt and the budget has one. */
  predicate AsksAgain(db: Db, a: nat, result: Result, r: nat)
    requires a < |db.attempts| && r < |db.runs|
  {
    result.status.Failed? && result.failure == Some(true) && db.attempts[a].number < db.runs[r].task.maxAttempts
  }

  /** What becomes of the run.  A running run takes the reported status, or waits for its
      next attempt; "cancelled" without a cancel request is no status a running run may
      take, and fails it.  A cancel request survives everything but a reported
      cancellation or a final failure. */
  function StatusAfter(status: RunStatus, reported: RunStatus, again: bool): RunStatus {
    match status
    case Running => if again then RetryWait else if reported.Cancelled? then RunStatus.Failed else reported
    case CancelRequested =>
      if reported.Cancelled? then Cancelled else if reported.Failed? && !again then RunStatus.Failed else CancelRequested
    case Queued =>
      if reported.Cancelled? then Cancelled else if reported.Failed? && !again then RunStatus.Failed else Queued
    case RetryWait => if reported.Failed? && !again then RunStatus.Failed else RetryWait
    case _ => status
  }

  /** The settling transaction alone, on an attempt that has ended. */
  lemma SettleOutcome(db: Db, a: nat, result: Result, r: nat)
    requires Shaped(db) && Mirrored(db) && a < |db.attempts| && db.attempts[a].stage == r && result.Valid()
    ensures var t, st := SettleRun(db, a, result), db.runs[r].status;
            if st.Running? then
              if result.status.Cancelled? then t.Refused?
              else t.Committed? && r < |t.db.runs| && t.db.runs[r].status == StatusAfter(st, result.status, AsksAgain(db, a, result, r))
            else
              && (t.Refused? ==> StatusAfter(st, result.status, AsksAgain(db, a, result, r)) == st)
              && (t.Committed? ==>
                    r < |t.db.runs| && t.db.runs[r].status == StatusAfter(st, result.status, AsksAgain(db, a, result, r)))
  {
    TransitionOutcome(db, r, result.status);
  }

  lemma SettleTouchesOwn(db: Db, a: nat, result: Result, r: nat)
    requires a < |db.attempts| && db.attempts[a].stage == r
    ensures var db' := After(db, SettleRun(db, a, result));
            && |db'.runs| == |db.runs| && db'.attempts == db.attempts && db'.reservations == db.reservations
            && forall q :: 0 <= q < |db.runs| && q != r ==> db'.runs[q] == db.runs[q]
  {
    TransitionOutcome(db, r, result.status);
  }

  /** The failure path after an attempt has ended: only a running run is failed. */
  lemma FailurePathOutcome(db: Db, a: nat, r: nat)
    requires a < |db.attempts| && db.attempts[a].stage == r && r < |db.runs|
    requires !db.attempts[a].status.Running? && !db.attempts[a].status.Pending?
    ensures var db' := RecordFailure(db, a);
            && |db'.runs| == |db.runs| && db'.attempts == db.attempts && db'.reservations == db.reservations
            && db'.runs[r].status == (if db.runs[r].status.Running? then RunStatus.Failed else db.runs[r].status)
            && forall q :: 0 <= q < |db.runs| && q != r ==> db'.runs[q] == db.runs[q]
  {
    TransitionOutcome(db, r, RunStatus.Failed);
  }

  /** A running attempt that its worker concludes: the attempt is recorded as succeeded
      exactly on a reported success, with the reported failure; its reservation is
      released; and its run, and no other, takes the status above. */
  lemma ConcludeOutcome(db: Db, a: nat, result: Result, r: nat, db': Db)
    requires Shaped(db) && Mirrored(db) && LiveAt(db, r, a) && result.Valid() && db' == Conclude(db, a, result)
    ensures |db'.runs| == |db.runs| && |db'.attempts| == |db.attempts|
    ensures db'.runs[r].status == StatusAfter(db.runs[r].status, result.status, AsksAgain(db, a, result, r))
    ensures forall q :: 0 <= q < |db.runs| && q != r ==> db'.runs[q] == db.runs[q]
    ensures db'.attempts[a] ==
            db.attempts[a].(status := if result.status.Succeeded? then AttemptStatus.Succeeded else AttemptStatus.Failed,
                            lease := None, failure := result.failure)
    ensures forall b :: 0 <= b < |db.attempts| && b != a ==> db'.attempts[b] == db.attempts[b]
    ensures db'.reservations == db.reservations - {a}
  {
    var ended := EndAttempt(db, a, AttemptStatusOf(result.status), result.failure);
    SettleOutcome(ended, a, result, r);
    SettleTouchesOwn(ended, a, result, r);
    FailurePathOutcome(ended, a, r);
  }

  /** In particular a reported success makes a running run succeed, and a run whose
      cancellation was requested never does. */
  lemma SuccessIsSettled(db: Db, a: nat, failure: Option<bool>, r: nat)
    requires Shaped(db) && Mirrored(db) && LiveAt(db, r, a)
    ensures var db' := Conclude(db, a, Result(RunStatus.Succeeded, failure));
            && r < |db'.runs|
            && (db.runs[r].status.Running? ==> db'.runs[r].status.Succeeded?)
            && (db.runs[r].status.CancelRequested? ==> db'.runs[r].status.CancelRequested?)
  {
    var result := Result(RunStatus.Succeeded, failure);
    ConcludeOutcome(db, a, result, r, Conclude(db, a, result));
  }

  /** Whatever raises while an attempt runs: the attempt fails, not to be retried, and a
      running run fails with it. */
  lemma RaiseOutcome(db: Db, a: nat, r: nat, db': Db)
    requires Shaped(db) && Mirrored(db) && LiveAt(db, r, a) && db' == RecordFailure(db, a)
    ensures |db'.runs| == |db.runs| && |db'.attempts| == |db.attempts|
    ensures db'.runs[r].status == if db.runs[r].status.Running? then RunStatus.Failed else db.runs[r].status
    ensures db'.attempts[a] == db.attempts[a].(status := AttemptStatus.Failed, lease := None, failure := Some(false))
    ensures db'.reservations == db.reservations - {a}
  {
    var ended := EndAttempt(db, a, AttemptStatus.Failed, Some(false));
    TransitionOutcome(ended, r, RunStatus.Failed);
  }

  // ---- a reclaimed lease ---------------------------------------------------------------

  /** A pass marks an attempt if and only if its process is gone, it is running and its
      lease ended before the reference time -- the guard of the update itself. */
  lemma PassMarksIff(db: Db, reference: int, gone: set<nat>, a: nat)
    requires a < |db.attempts|
    ensures var row, row' := db.attempts[a], MarkAll(db, reference, gone, |db.attempts|).attempts[a];
            && (row' != row <==> a in gone && MarkLost(db, a, reference).Committed?)
            && (row' != row <==>
                  a in gone && row.status.Running? && row.lease.Some? && row.lease.value < reference)
            && (row' != row ==> row' == row.(status := AttemptStatus.Lost, lease := None, failure := Some(true)))
  {
    MarkedRow(db, reference, gone, |db.attempts|, a);
  }

  /** The runs a pass settles are those of the attempts it marks. */
  lemma {:induction false} MarkedRunsIff(attempts: seq<AttemptRow>, reference: int, gone: set<nat>, n: nat, r: nat)
    requires n <= |attempts|
    ensures r in MarkedRuns(attempts, reference, gone, n) <==>
            exists a: nat :: a < n && attempts[a].stage == r && a in gone && attempts[a].status.Running? &&
                             attempts[a].lease.Some? && attempts[a].lease.value < reference
  {
    if n > 0 { MarkedRunsIff(attempts, reference, gone, n - 1, r); }
  }

  /** While a running attempt's lease lasts, no pass touches it or its run. */
  lemma LeaseProtects(config: Config, db: Db, a: nat, r: nat, until: int, reference: int, gone: set<nat>)
    requires config.Valid() && Consistent(config, db) && LiveAt(db, r, a)
    requires db.attempts[a].lease == Some(until) && reference <= until
    ensures a < |Pass(db, reference, gone).attempts| && Pass(db, reference, gone).attempts[a] == db.attempts[a]
    ensures r !in MarkedRuns(db.attempts, reference, gone, |db.attempts|)
    ensures MarkLost(db, a, reference).Refused?
  {
    PassMarksIff(db, reference, gone, a);
    PassKeepsAttempts(db, reference, gone);
    MarkedRunsIff(db.attempts, reference, gone, |db.attempts|, r);
    forall b | 0 <= b < |db.attempts| && db.attempts[b].stage == r && db.attempts[b].status.Running? ensures b == a {
      LatestIsUnique(db, a, b);
    }
  }

  /** An accepted heartbeat protects its attempt until its own time plus the lease. */
  lemma HeartbeatProtects(config: Config, db: Db, a: nat, worker: string, now: int, lease: int, reference: int, gone: set<nat>)
    requires config.Valid() && Consistent(config, db) && Heartbeat(db, a, worker, now, lease).Committed?
    requires reference <= now + lease
    ensures var db' := Heartbeat(db, a, worker, now, lease).db;
            && a < |db'.attempts| == |db.attempts|
            && a < |Pass(db', reference, gone).attempts| && Pass(db', reference, gone).attempts[a] == db'.attempts[a]
            && db.attempts[a].stage !in MarkedRuns(db'.attempts, reference, gone, |db'.attempts|)
  {
    HeartbeatOutcome(db, a, worker, now, lease);
    HeartbeatKeeps(config, db, a, worker, now, lease);
    LeaseProtects(config, Heartbeat(db, a, worker, now, lease).db, a, db.attempts[a].stage, now + lease, reference, gone);
  }

  /** So does an accepted claim. */
  lemma ClaimProtects(config: Config, db: Db, r: nat, worker: string, now: int, lease: int, reference: int, gone: set<nat>)
    requires config.Valid() && Consistent(config, db)
    requires StartAttempt(db, WorkerClaim(config, db, r, worker, now, lease)).Committed? && reference <= now + lease
    ensures var t := StartAttempt(db, WorkerClaim(config, db, r, worker, now, lease));
            && t.value < |t.db.attempts|
            && t.value < |Pass(t.db, reference, gone).attempts| && Pass(t.db, reference, gone).attempts[t.value] == t.db.attempts[t.value]
            && r !in MarkedRuns(t.db.attempts, reference, gone, |t.db.attempts|)
  {
    ClaimOutcome(config, db, r, worker, now, lease);
    StartKeeps(config, db, r, worker, now, lease);
    var t := StartAttempt(db, WorkerClaim(config, db, r, worker, now, lease));
    LeaseProtects(config, t.db, t.value, r, now + lease, reference, gone);
  }

  /** What becomes of the run of a reclaimed attempt: a running one waits for its next
      attempt if its capability can resume and its budget has room, and is lost
      otherwise; a cancel request ends as lost; a run that ended stays as it is. */
  function AfterLoss(db: Db, r: nat): RunStatus
    requires r < |db.runs| && r < |db.stages|
  {
    match db.runs[r].status
    case Running =>
      if db.stages[r].resumable && Made(db, r) < db.runs[r].task.maxAttempts then RetryWait else RunStatus.Lost
    case CancelRequested => RunStatus.Lost
    case _ => db.runs[r].status
  }

  /** One reclaimed attempt. */
  lemma ReclaimedOutcome(config: Config, db: Db, a: nat, reference: int, db': Db)
    requires config.Valid() && Sound(config, db) && MarkLost(db, a, reference).Committed?
    requires db' == ReclaimOne(db, a, reference)
    ensures var r := db.attempts[a].stage;
            && r < |db.runs| == |db'.runs| && r < |db.stages|
            && db'.runs[r].status == AfterLoss(db, r)
  {
    var r, marked := db.attempts[a].stage, MarkLost(db, a, reference).db;
    MarkLostKeeps(config, db, a, reference);
    EndApart(db, a, AttemptStatus.Lost, Some(true));
    RowUpdateKeepsCounts(db, marked, a);
    NoneLiveAfterEnd(config, db, a, marked);
    SettleLostEffect(config, marked, r);
    assert LiveAt(db, r, a) && HasLive(db, r);
  }

  /** Settling one lost run touches its own rows only. */
  lemma SettleLostOwn(db: Db, q: nat)
    ensures var db' := SettleLost(db, q);
            && |db'.runs| == |db.runs| && |db'.stages| == |db.stages| && db'.attempts == db.attempts
            && (forall r :: 0 <= r < |db.runs| && r != q ==> db'.runs[r] == db.runs[r])
            && (forall r :: 0 <= r < |db.stages| && r != q ==> db'.stages[r] == db.stages[r])
  {
  }

  /** The rows of run `r`, before its turn in the settling loop and after. */
  lemma {:induction false} SettleAllAt(config: Config, db: Db, marked: set<nat>, n: nat, r: nat, db': Db)
    requires config.Valid() && Awaiting(config, db, marked, 0) && n <= |db.runs| && r < |db.runs|
    requires db' == SettleAll(db, marked, n)
    requires forall q :: 0 <= q < |db.runs| && q in marked ==> !Unclaimed(db.runs[q].status)
    ensures |db'.runs| == |db.runs| && |db'.stages| == |db.stages| && db'.attempts == db.attempts
    ensures r < |db.stages|
    ensures if r < n && r in marked then db'.runs[r].status == AfterLoss(db, r)
            else db'.runs[r] == db.runs[r] && db'.stages[r] == db.stages[r]
  {
    if n > 0 {
      var before := SettleAll(db, marked, n - 1);
      SettleAllAt(config, db, marked, n - 1, r, before);
      SettleLostOwn(before, n - 1);
      if r == n - 1 && r in marked {
        SettleAllAwaits(config, db, marked, n - 1, before);
        SettleLostEffect(config, before, r);
      }
    }
  }

  /** A whole pass, run by run: the run of every attempt it marks takes the status of a
      lost run, and every other run keeps its own. */
  lemma PassOutcome(config: Config, db: Db, reference: int, gone: set<nat>, r: nat, db': Db)
    requires config.Valid() && Sound(config, db) && r < |db.runs| && db' == Pass(db, reference, gone)
    ensures |db'.runs| == |db.runs| && r < |db.stages|
    ensures db'.runs[r].status ==
            if exists a: nat :: a < |db.attempts| && db.attempts[a].stage == r && a in gone &&
                                db.attempts[a].status.Running? && db.attempts[a].lease.Some? &&
                                db.attempts[a].lease.value < reference
            then AfterLoss(db, r) else db.runs[r].status
  {
    var n := |db.attempts|;
    var db1, marked := MarkAll(db, reference, gone, n), MarkedRuns(db.attempts, reference, gone, n);
    SoundAwaits(config, db);
    MarkAllAwaits(config, db, reference, gone, n, db1, marked);
    forall q | 0 <= q < |db.runs| && q in marked ensures !Unclaimed(db1.runs[q].status) {
      MarkedIsClaimed(config, db, reference, gone, q);
    }
    SettleAllAt(config, db1, marked, |db.runs|, r, db');
    MarkedRunsIff(db.attempts, reference, gone, n, r);
    MarkKeepsCounts(db, reference, gone, n, r);
  }

  lemma MarkedIsClaimed(config: Config, db: Db, reference: int, gone: set<nat>, q: nat)
    requires config.Valid() && Sound(config, db) && q < |db.runs|
    requires q in MarkedRuns(db.attempts, reference, gone, |db.attempts|)
    ensures !Unclaimed(db.runs[q].status)
  {
    MarkedRunsIff(db.attempts, reference, gone, |db.attempts|, q);
    var a: nat :| a < |db.attempts| && db.attempts[a].stage == q && db.attempts[a].status.Running?;
    assert LiveAt(db, q, a) && HasLive(db, q);
  }

  lemma MarkKeepsCounts(db: Db, reference: int, gone: set<nat>, n: nat, r: nat)
    requires n <= |db.attempts|
    ensures Made(MarkAll(db, reference, gone, n), r) == Made(db, r)
  {
    var db' := MarkAll(db, reference, gone, n);
    forall a | 0 <= a < |db.attempts| ensures db'.attempts[a].stage == db.attempts[a].stage {
      MarkedRow(db, reference, gone, n, a);
    }
    CountAgrees(db'.attempts, db.attempts, r, |db.attempts|);
  }
}
