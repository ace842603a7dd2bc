/** What every transaction keeps true of the tables, whoever runs it and
    in whatever order.  Both protocol settings build on these lemmas. */
module TableInvariant {
  import opened Contracts
  import opened Admission
  import opened Tables
  import opened Transactions

  ghost predicate Shaped(db: Db) {
    && |db.runs| == |db.stages|
    && (forall a :: 0 <= a < |db.attempts| ==> db.attempts[a].stage < |db.runs|)
    && (forall r :: 0 <= r < |db.runs| ==> db.runs[r].task.Valid())
  }

  /** A run and its stage carry the same status, and nothing ever prepares. */
  ghost predicate Mirrored(db: Db)
    requires |db.runs| == |db.stages|
  {
    forall r :: 0 <= r < |db.runs| ==>
      db.runs[r].status == db.stages[r].status && !db.runs[r].status.Preparing?
  }

  /** The attempts of a stage are numbered 1, 2, ... in the order they were made. */
  ghost predicate Numbered(db: Db) {
    forall a :: 0 <= a < |db.attempts| ==>
      db.attempts[a].number == Count(db.attempts, db.attempts[a].stage, a + 1)
  }

  ghost predicate IsLatest(db: Db, a: nat) {
    a < |db.attempts| && db.attempts[a].number == Made(db, db.attempts[a].stage)
  }

  /** A running attempt is the last of its stage and has reported nothing yet. */
  ghost predicate LiveIsLatest(db: Db) {
    forall a :: 0 <= a < |db.attempts| && db.attempts[a].status.Running? ==>
      IsLatest(db, a) && db.attempts[a].failure.None?
  }

  /** The retry budget, with room left wherever a worker may still claim. */
  ghost predicate Budgeted(db: Db)
    requires |db.runs| == |db.stages|
  {
    forall r :: 0 <= r < |db.runs| ==>
      && Made(db, r) <= db.runs[r].task.maxAttempts
      && (Unclaimed(db.runs[r].status) ==> Made(db, r) < db.runs[r].task.maxAttempts && !HasLive(db, r))
  }

  /** The reservation table is exactly the running attempts with their requests. */
  ghost predicate ReservedExactly(config: Config, db: Db)
    requires Shaped(db)
  {
    && (forall a: nat :: a in db.reservations <==> a < |db.attempts| && db.attempts[a].status.Running?)
    && (forall a: nat :: a in db.reservations ==>
          db.reservations[a] == Effective(config, db.runs[db.attempts[a].stage].task))
  }

  ghost predicate WithinBudget(config: Config, db: Db)
    requires config.Valid()
  {
    && CpuSum(db.reservations, |db.attempts|) <= CpuBudget(config.capacity)
    && MemorySum(db.reservations, |db.attempts|) <= MemoryBudget(config.capacity)
  }

  ghost predicate Consistent(config: Config, db: Db)
    requires config.Valid()
  {
    && Shaped(db) && Mirrored(db) && Numbered(db) && LiveIsLatest(db) && Budgeted(db)
    && ReservedExactly(config, db) && WithinBudget(config, db)
  }

  lemma EmptyIsConsistent(config: Config)
    requires config.Valid()
    ensures Consistent(config, EMPTY)
  {
  }

  // ---- consequences ----------------------------------------------------------

  /** Numbering makes "latest" unique: an attempt made later has a larger number. */
  lemma {:induction false} LaterIsLarger(db: Db, a: nat, b: nat)
    requires Numbered(db) && a < b < |db.attempts| && db.attempts[a].stage == db.attempts[b].stage
    ensures db.attempts[a].number < db.attempts[b].number <= Made(db, db.attempts[a].stage)
  {
    var stage := db.attempts[a].stage;
    CountMonotone(db.attempts, stage, a + 1, b);
    CountMonotone(db.attempts, stage, b + 1, |db.attempts|);
  }

  lemma LatestIsUnique(db: Db, a: nat, b: nat)
    requires Numbered(db) && IsLatest(db, a) && IsLatest(db, b)
    requires db.attempts[a].stage == db.attempts[b].stage
    ensures a == b
  {
    if a < b { LaterIsLarger(db, a, b); }
    if b < a { LaterIsLarger(db, b, a); }
  }

  /** MAX(attempt_number) is the number of attempts made. */
  lemma {:induction false} MaxIsCount(db: Db, stage: nat, n: nat)
    requires Numbered(db) && n <= |db.attempts|
    ensures MaxNumber(db.attempts, stage, n) == Count(db.attempts, stage, n)
  {
    if n != 0 { MaxIsCount(db, stage, n - 1); }
  }

  /** The row `ORDER BY attempt_number DESC LIMIT 1` finds is the latest attempt. */
  lemma {:induction false} LatestFindsLast(db: Db, stage: nat, n: nat)
    requires Numbered(db) && n <= |db.attempts|
    ensures var l := Latest(db.attempts, stage, n);
            && (l.None? <==> Count(db.attempts, stage, n) == 0)
            && (l.Some? ==> db.attempts[l.value].number == Count(db.attempts, stage, n))
  {
    if n != 0 { LatestFindsLast(db, stage, n - 1); }
  }

  // ---- effects on the tables -------------------------------------------------

  function SetBoth(db: Db, r: nat, status: RunStatus): Db
    requires r < |db.runs| && r < |db.stages|
  {
    SetStage(SetRun(db, r, status), r, status)
  }

  /** Moving both rows of a run keeps the tables consistent, provided a run that
      becomes claimable has room in its budget and nothing running. */
  lemma SetBothKeeps(config: Config, db: Db, r: nat, status: RunStatus)
    requires config.Valid() && Consistent(config, db)
    requires r < |db.runs| && !status.Preparing?
    requires Unclaimed(status) ==> Made(db, r) < db.runs[r].task.maxAttempts && !HasLive(db, r)
    ensures Consistent(config, SetBoth(db, r, status))
  {
    SameTable(db, SetBoth(db, r, status));
  }

  /** A permitted run transition moves the run and its stage together. */
  lemma TransitionMovesBoth(db: Db, r: nat, target: RunStatus)
    requires Shaped(db) && Mirrored(db)
    ensures var t := TransitionRun(db, r, target);
            && (t.Committed? <==>
                  r < |db.runs| && (db.runs[r].status == target || RunTransitionAllowed(db.runs[r].status, target)))
            && (t.Committed? ==> t.db == SetBoth(db, r, target))
  {
    if r < |db.runs| && db.runs[r].status == target {
      assert db.runs[r := db.runs[r].(status := target)] == db.runs;
      assert db.stages[r := db.stages[r].(status := target)] == db.stages;
    }
  }

  lemma TransitionKeeps(config: Config, db: Db, r: nat, target: RunStatus)
    requires config.Valid() && Consistent(config, db)
    requires !Unclaimed(target) && !target.Preparing?
    ensures Consistent(config, After(db, TransitionRun(db, r, target)))
  {
    TransitionMovesBoth(db, r, target);
    if r < |db.runs| { SetBothKeeps(config, db, r, target); }
  }

  lemma CancelKeeps(config: Config, db: Db, r: nat)
    requires config.Valid() && Consistent(config, db)
    ensures Consistent(config, After(db, RequestCancel(db, r)))
  {
    TransitionKeeps(config, db, r, CancelRequested);
  }

  lemma FailQueuedKeeps(config: Config, db: Db, r: nat)
    requires config.Valid() && Consistent(config, db)
    ensures Consistent(config, After(db, FailQueuedRun(db, r)))
  {
    if r < |db.runs| { SetBothKeeps(config, db, r, RunStatus.Failed); }
  }

  lemma ScheduleRetryKeeps(config: Config, db: Db, r: nat)
    requires config.Valid() && Consistent(config, db)
    requires r < |db.runs| ==> Made(db, r) < db.runs[r].task.maxAttempts && !HasLive(db, r)
    ensures Consistent(config, After(db, ScheduleRetry(db, r)))
    ensures ScheduleRetry(db, r).Committed? <==> r < |db.runs| && db.runs[r].status.Running?
    ensures ScheduleRetry(db, r).Committed? ==> ScheduleRetry(db, r).db == SetBoth(db, r, RetryWait)
  {
    if r < |db.runs| { SetBothKeeps(config, db, r, RetryWait); }
  }

  /** An accepted operator retry needs no further condition on the tables: the
      latest attempt reported a failure, so it is not running, and it is below
      the budget. */
  lemma RequestRetryKeeps(config: Config, db: Db, r: nat)
    requires config.Valid() && Consistent(config, db)
    ensures Consistent(config, After(db, RequestRetry(db, r)))
    ensures RequestRetry(db, r).Committed? ==>
            && r < |db.runs| && db.runs[r].status.Failed? && !HasLive(db, r)
            && RequestRetry(db, r).db == SetBoth(db, r, RetryWait)
  {
    if RequestRetry(db, r).Committed? {
      LatestFindsLast(db, r, |db.attempts|);
      var last := Latest(db.attempts, r, |db.attempts|).value;
      if HasLive(db, r) {
        var a :| 0 <= a < |db.attempts| && LiveAt(db, r, a);
        LatestIsUnique(db, a, last);
        assert false;
      }
      SetBothKeeps(config, db, r, RetryWait);
    }
  }

  lemma SubmitKeeps(config: Config, db: Db, c: Catalog, s: Submission)
    requires config.Valid() && Consistent(config, db)
    ensures Consistent(config, After(db, SubmitRun(db, c, s)))
  {
    if s.task.Valid() { AppendRunKeeps(config, db, s); }
  }

  lemma AppendRunKeeps(config: Config, db: Db, s: Submission)
    requires config.Valid() && Consistent(config, db) && s.task.Valid()
    ensures Consistent(config, db.(runs := db.runs + [RunRow(s.key, s.task, Queued)],
                                   stages := db.stages + [StageRow(s.pluginVersion, s.resumable, Queued)]))
  {
    var db' := db.(runs := db.runs + [RunRow(s.key, s.task, Queued)],
                   stages := db.stages + [StageRow(s.pluginVersion, s.resumable, Queued)]);
    NoneMade(db, |db.runs|);
    SameTable(db, db');
    assert forall r :: 0 <= r < |db.runs| ==> db'.runs[r] == db.runs[r] && db'.stages[r] == db.stages[r];
  }

  /** Facts about attempts depend on the attempt table alone. */
  lemma SameTable(db: Db, db': Db)
    requires db.attempts == db'.attempts
    ensures forall q: nat :: HasLive(db', q) <==> HasLive(db, q)
    ensures forall q: nat :: Made(db', q) == Made(db, q)
    ensures forall a: nat :: IsLatest(db', a) <==> IsLatest(db, a)
  {
    forall q: nat ensures HasLive(db', q) <==> HasLive(db, q) {
      if HasLive(db, q) {
        var a :| 0 <= a < |db.attempts| && LiveAt(db, q, a);
        assert LiveAt(db', q, a);
      }
      if HasLive(db', q) {
        var a :| 0 <= a < |db'.attempts| && LiveAt(db', q, a);
        assert LiveAt(db, q, a);
      }
    }
  }

  /** A run that does not exist yet has no attempts. */
  lemma NoneMade(db: Db, r: nat)
    requires Shaped(db) && |db.runs| <= r
    ensures Made(db, r) == 0 && !HasLive(db, r)
  {
    NoneMadeBelow(db, r, |db.attempts|);
  }

  lemma NoneMadeBelow(db: Db, r: nat, n: nat)
    requires Shaped(db) && |db.runs| <= r && n <= |db.attempts|
    ensures Count(db.attempts, r, n) == 0
  {
  }

  /** Any change to one attempt row that keeps its stage and number keeps the
      counting of every stage. */
  lemma RowUpdateKeepsCounts(db: Db, db': Db, a: nat)
    requires a < |db.attempts| && |db'.attempts| == |db.attempts|
    requires forall i :: 0 <= i < |db.attempts| ==>
               db'.attempts[i].stage == db.attempts[i].stage && db'.attempts[i].number == db.attempts[i].number
    ensures forall q :: Made(db', q) == Made(db, q)
    ensures Numbered(db) ==> Numbered(db')
    ensures forall i :: IsLatest(db', i) <==> IsLatest(db, i)
  {
    forall q, n | 0 <= n <= |db.attempts| ensures Count(db'.attempts, q, n) == Count(db.attempts, q, n) {
      CountAgrees(db.attempts, db'.attempts, q, n);
    }
    assert forall q :: Made(db', q) == Made(db, q);
    forall i: nat ensures IsLatest(db', i) <==> IsLatest(db, i) {
      if i < |db.attempts| {
        assert Made(db', db.attempts[i].stage) == Made(db, db.attempts[i].stage);
      }
    }
  }

  lemma HeartbeatKeeps(config: Config, db: Db, a: nat, worker: string, now: int, leaseSeconds: int)
    requires config.Valid() && Consistent(config, db)
    ensures Consistent(config, After(db, Heartbeat(db, a, worker, now, leaseSeconds)))
  {
    var db' := After(db, Heartbeat(db, a, worker, now, leaseSeconds));
    if a < |db.attempts| {
      RowUpdateKeepsCounts(db, db', a);
      forall q | HasLive(db', q) ensures HasLive(db, q) {
        var b :| 0 <= b < |db'.attempts| && LiveAt(db', q, b);
        assert LiveAt(db, q, b);
      }
    }
  }

  /** Ending a running attempt releases exactly its reservation. */
  lemma EndKeeps(config: Config, db: Db, a: nat, status: AttemptStatus, failure: Option<bool>)
    requires config.Valid() && Consistent(config, db)
    requires a < |db.attempts| && db.attempts[a].status.Running? && !status.Running?
    ensures Consistent(config, EndAttempt(db, a, status, failure))
    ensures !HasLive(EndAttempt(db, a, status, failure), db.attempts[a].stage)
  {
    var db' := EndAttempt(db, a, status, failure);
    RowUpdateKeepsCounts(db, db', a);
    SumsRelease(db.reservations, a, |db.attempts|);
    forall q | HasLive(db', q) ensures HasLive(db, q) && q != db.attempts[a].stage {
      var b :| 0 <= b < |db'.attempts| && LiveAt(db', q, b);
      assert LiveAt(db, q, b);
      if q == db.attempts[a].stage { LatestIsUnique(db, a, b); }
    }
  }

  /** finish_attempt commits exactly on a running attempt (nothing is pending). */
  lemma FinishKeeps(config: Config, db: Db, a: nat, status: AttemptStatus, failure: Option<bool>)
    requires config.Valid() && Consistent(config, db)
    requires status.Succeeded? || status.Failed?
    ensures Consistent(config, After(db, FinishAttempt(db, a, status, failure)))
    ensures FinishAttempt(db, a, status, failure).Committed? <==>
            a < |db.attempts| && db.attempts[a].status.Running?
    ensures FinishAttempt(db, a, status, failure).Committed? ==>
            !HasLive(FinishAttempt(db, a, status, failure).db, db.attempts[a].stage)
  {
    if a < |db.attempts| && db.attempts[a].status.Running? {
      EndKeeps(config, db, a, status, failure);
    }
  }

  lemma MarkLostKeeps(config: Config, db: Db, a: nat, reference: int)
    requires config.Valid() && Consistent(config, db)
    ensures Consistent(config, After(db, MarkLost(db, a, reference)))
    ensures MarkLost(db, a, reference).Committed? ==> !HasLive(MarkLost(db, a, reference).db, db.attempts[a].stage)
  {
    if MarkLost(db, a, reference).Committed? {
      EndKeeps(config, db, a, AttemptStatus.Lost, Some(true));
    }
  }

  /** A worker's claim under the shared configuration. */
  function WorkerClaim(config: Config, db: Db, r: nat, worker: string, now: int, leaseSeconds: int): Claim {
    Claim(r, worker, now, leaseSeconds,
          if r < |db.runs| then Some(ReservationFor(config, db.runs[r].task)) else None,
          Some(config.capacity))
  }

  /** The tables after an admitted claim of run `r`. */
  function Claimed(config: Config, db: Db, r: nat, worker: string, lease: int): Db
    requires r < |db.runs| && r < |db.stages|
  {
    SetBoth(db, r, RunStatus.Running).(
      attempts := db.attempts + [AttemptRow(r, Made(db, r) + 1, AttemptStatus.Running, worker, Some(lease), None)],
      reservations := db.reservations[|db.attempts| := Effective(config, db.runs[r].task)])
  }

  ghost predicate Claimable(config: Config, db: Db, r: nat)
    requires config.Valid()
  {
    && r < |db.runs| && r < |db.stages| && Unclaimed(db.runs[r].status)
    && Fits(config.capacity, CpuSum(db.reservations, |db.attempts|), MemorySum(db.reservations, |db.attempts|),
            Effective(config, db.runs[r].task))
  }

  /** The claim appends attempt number `Made + 1`, reserves the effective request
      and moves run and stage together; it commits exactly when the run is
      claimable and its request fits beside what is held. */
  lemma StartEffect(config: Config, db: Db, r: nat, worker: string, now: int, leaseSeconds: int)
    requires config.Valid() && Consistent(config, db)
    ensures var t := StartAttempt(db, WorkerClaim(config, db, r, worker, now, leaseSeconds));
            && (t.Committed? <==> 0 < leaseSeconds && Claimable(config, db, r))
            && (t.Committed? ==> t.value == |db.attempts| && t.db == Claimed(config, db, r, worker, now + leaseSeconds))
  {
    MaxIsCount(db, r, |db.attempts|);
  }

  lemma StartKeeps(config: Config, db: Db, r: nat, worker: string, now: int, leaseSeconds: int)
    requires config.Valid() && Consistent(config, db)
    ensures Consistent(config, After(db, StartAttempt(db, WorkerClaim(config, db, r, worker, now, leaseSeconds))))
  {
    StartEffect(config, db, r, worker, now, leaseSeconds);
    if 0 < leaseSeconds && Claimable(config, db, r) {
      ClaimedKeeps(config, db, r, worker, now + leaseSeconds);
    }
  }

  lemma ClaimedKeeps(config: Config, db: Db, r: nat, worker: string, lease: int)
    requires config.Valid() && Consistent(config, db) && Claimable(config, db, r)
    ensures Consistent(config, Claimed(config, db, r, worker, lease))
  {
    var db' := Claimed(config, db, r, worker, lease);
    ClaimedCounts(config, db, r, worker, lease);
    SumsAgree(db.reservations, db'.reservations, |db.attempts|);
    assert Mirrored(db') && Shaped(db');
    assert ReservedExactly(config, db');
  }

  lemma ClaimedCounts(config: Config, db: Db, r: nat, worker: string, lease: int)
    requires config.Valid() && Consistent(config, db) && Claimable(config, db, r)
    ensures var db' := Claimed(config, db, r, worker, lease);
            && Shaped(db') && Numbered(db') && LiveIsLatest(db') && Budgeted(db')
            && (forall q :: Made(db', q) == Made(db, q) + (if q == r then 1 else 0))
            && (forall q :: HasLive(db', q) <==> q == r || HasLive(db, q))
  {
    var db' := Claimed(config, db, r, worker, lease);
    var n := |db.attempts|;
    AppendCounts(db, db', r);
    forall q: nat ensures HasLive(db', q) <==> q == r || HasLive(db, q) {
      if HasLive(db', q) {
        var b :| 0 <= b < |db'.attempts| && LiveAt(db', q, b);
        assert b == n || LiveAt(db, q, b);
      }
      if HasLive(db, q) {
        var b :| 0 <= b < |db.attempts| && LiveAt(db, q, b);
        assert LiveAt(db', q, b);
      }
      assert LiveAt(db', r, n);
    }
    forall b | 0 <= b < |db'.attempts| && db'.attempts[b].status.Running?
      ensures IsLatest(db', b) && db'.attempts[b].failure.None?
    {
      if b < n {
        assert LiveAt(db, db.attempts[b].stage, b);
        assert IsLatest(db, b);
      }
    }
  }

  /** Counting after one attempt of stage `r` was appended. */
  lemma AppendCounts(db: Db, db': Db, r: nat)
    requires |db'.attempts| == |db.attempts| + 1
    requires db'.attempts[..|db.attempts|] == db.attempts
    requires db'.attempts[|db.attempts|].stage == r
    requires db'.attempts[|db.attempts|].number == Made(db, r) + 1
    ensures forall q :: Made(db', q) == Made(db, q) + (if q == r then 1 else 0)
    ensures Numbered(db) ==> Numbered(db')
  {
    var n := |db.attempts|;
    assert forall i :: 0 <= i < n ==> db'.attempts[i] == db.attempts[i];
    forall q, m | 0 <= m <= n ensures Count(db'.attempts, q, m) == Count(db.attempts, q, m) {
      CountAgrees(db.attempts, db'.attempts, q, m);
    }
    assert forall q :: Made(db', q) == Made(db, q) + (if q == r then 1 else 0);
  }

  /** A running attempt is the only one of its stage: once it ended, none is. */
  lemma NoneLiveAfterEnd(config: Config, db: Db, a: nat, db': Db)
    requires config.Valid() && Consistent(config, db) && a < |db.attempts| && db.attempts[a].status.Running?
    requires |db'.attempts| == |db.attempts| && !db'.attempts[a].status.Running?
    requires forall b :: 0 <= b < |db.attempts| && b != a ==> db'.attempts[b] == db.attempts[b]
    ensures !HasLive(db', db.attempts[a].stage)
  {
    forall b | 0 <= b < |db'.attempts| ensures !LiveAt(db', db.attempts[a].stage, b) {
      if LiveAt(db', db.attempts[a].stage, b) { LatestIsUnique(db, a, b); }
    }
  }

  // ---- the same, under every configuration at once -----------------------------------

  ghost predicate KeepsConsistent(config: Config, db: Db, db': Db) {
    config.Valid() && Consistent(config, db) ==> Consistent(config, db')
  }

  /** Whatever the shared configuration is: these transactions keep the tables
      consistent. */
  lemma RequestsKeepAll(db: Db, r: nat)
    ensures forall config: Config :: KeepsConsistent(config, db, After(db, RequestCancel(db, r)))
    ensures forall config: Config :: KeepsConsistent(config, db, After(db, FailQueuedRun(db, r)))
    ensures forall config: Config :: KeepsConsistent(config, db, After(db, RequestRetry(db, r)))
  {
    forall config: Config | config.Valid() && Consistent(config, db)
      ensures Consistent(config, After(db, RequestCancel(db, r)))
      ensures Consistent(config, After(db, FailQueuedRun(db, r)))
      ensures Consistent(config, After(db, RequestRetry(db, r)))
    {
      CancelKeeps(config, db, r);
      FailQueuedKeeps(config, db, r);
      RequestRetryKeeps(config, db, r);
    }
  }

  /** A transition that does not make the run claimable. */
  lemma TransitionKeepsAll(db: Db, r: nat, target: RunStatus)
    ensures !Unclaimed(target) && !target.Preparing? ==>
            forall config: Config :: KeepsConsistent(config, db, After(db, TransitionRun(db, r, target)))
  {
    forall config: Config | !Unclaimed(target) && !target.Preparing? && config.Valid() && Consistent(config, db)
      ensures Consistent(config, After(db, TransitionRun(db, r, target)))
    {
      TransitionKeeps(config, db, r, target);
    }
  }

  lemma SubmitKeepsAll(db: Db, c: Catalog, submission: Submission)
    ensures forall config: Config :: KeepsConsistent(config, db, After(db, SubmitRun(db, c, submission)))
  {
    forall config: Config | config.Valid() && Consistent(config, db)
      ensures Consistent(config, After(db, SubmitRun(db, c, submission)))
    {
      SubmitKeeps(config, db, c, submission);
    }
  }

  lemma HeartbeatKeepsAll(db: Db, a: nat, worker: string, now: int, leaseSeconds: int)
    ensures forall config: Config :: KeepsConsistent(config, db, After(db, Heartbeat(db, a, worker, now, leaseSeconds)))
  {
    forall config: Config | config.Valid() && Consistent(config, db)
      ensures Consistent(config, After(db, Heartbeat(db, a, worker, now, leaseSeconds)))
    {
      HeartbeatKeeps(config, db, a, worker, now, leaseSeconds);
    }
  }

  lemma FinishKeepsAll(db: Db, a: nat, status: AttemptStatus, failure: Option<bool>)
    ensures status.Succeeded? || status.Failed? ==>
            forall config: Config :: KeepsConsistent(config, db, After(db, FinishAttempt(db, a, status, failure)))
  {
    forall config: Config | (status.Succeeded? || status.Failed?) && config.Valid() && Consistent(config, db)
      ensures Consistent(config, After(db, FinishAttempt(db, a, status, failure)))
    {
      FinishKeeps(config, db, a, status, failure);
    }
  }

  /** A requeue has a condition that the transaction does not check: room in the budget
      and nothing running. */
  ghost predicate MayRequeue(db: Db, r: nat) {
    r < |db.runs| && Made(db, r) < db.runs[r].task.maxAttempts && !HasLive(db, r)
  }

  lemma ScheduleRetryKeepsAll(db: Db, r: nat)
    ensures MayRequeue(db, r) ==> forall config: Config :: KeepsConsistent(config, db, After(db, ScheduleRetry(db, r)))
  {
    forall config: Config | MayRequeue(db, r) && config.Valid() && Consistent(config, db)
      ensures Consistent(config, After(db, ScheduleRetry(db, r)))
    {
      ScheduleRetryKeeps(config, db, r);
    }
  }
}
