/** What a worker's cycle does to one run, spelled out: which runs wait, when a claim is
    accepted, how a turn ends, and which cancellations a pass covers. */
module WorkerOutcomes {
  import opened Contracts
  import opened Admission
  import opened Tables
  import opened Transactions
  import opened TableInvariant
  import opened RunProtocol
  import opened AtomicProtocol
  import opened ReclaimPass
  import opened CapacityHeld
  import opened TransactionOutcomes
  import opened SettlementOutcomes
  import opened WorkerCycle

  /** A run somebody may start: it is queued, or waits for its next attempt. */
  predicate Waits(db: Db, r: nat) {
    r < |db.runs| && (db.runs[r].status.Queued? || db.runs[r].status.RetryWait?)
  }

  /** Beside what the running attempts' tasks ask for, the task fits both budgets. */
  ghost predicate HasRoom(config: Config, db: Db, task: TaskSpec)
    requires config.Valid() && Shaped(db)
  {
    && HeldCpu(config, db, |db.attempts|) + AskedCpu(config, task) <= CpuBudget(config.capacity)
    && HeldMemory(config, db, |db.attempts|) + AskedMemory(config, task) <= MemoryBudget(config.capacity)
  }

  lemma ClaimableIff(config: Config, db: Db, r: nat)
    requires config.Valid() && Consistent(config, db)
    ensures Claimable(config, db, r) <==> Waits(db, r) && HasRoom(config, db, db.runs[r].task)
  {
    HeldIsReserved(config, db, |db.attempts|);
    if r < |db.runs| { ReservationIsAsked(config, db.runs[r].task); }
  }

  /** A claim is accepted if and only if its lease is positive, the run waits, and its
      task fits beside the running ones. */
  lemma ClaimAcceptsIff(config: Config, db: Db, r: nat, worker: string, now: int, lease: int)
    requires config.Valid() && Consistent(config, db)
    ensures StartAttempt(db, WorkerClaim(config, db, r, worker, now, lease)).Committed? <==>
            0 < lease && Waits(db, r) && HasRoom(config, db, db.runs[r].task)
  {
    StartEffect(config, db, r, worker, now, lease);
    ClaimableIff(config, db, r);
  }

  /** The queue holds exactly the runs that wait. */
  lemma QueueOutcome(config: Config, db: Db, r: nat)
    requires config.Valid() && Consistent(config, db)
    ensures r in Queue(db, |db.runs|) <==> Waits(db, r)
  {
    QueueIsExact(db, |db.runs|);
    WaitingIs(config, db, r);
  }

  // ---- one turn --------------------------------------------------------------------------

  /** Every run but `r` is as before. */
  ghost predicate OthersStay(db: Db, db': Db, r: nat) {
    |db'.runs| == |db.runs| && forall q :: 0 <= q < |db.runs| && q != r ==> db'.runs[q].status == db.runs[q].status
  }

  /** A turn of a run that does not wait does nothing; one that waits and cannot be
      resolved is failed and counted so; one that can be resolved and finds no room keeps
      its place, uncounted. */
  lemma IdleTurnOutcome(terms: Terms, t: Tally, r: nat, chance: Chance)
    requires terms.config.Valid() && Sound(terms.config, t.db) && 0 < terms.leaseSeconds
    ensures var t' := Turn(terms, t, r, chance);
            && (!Waits(t.db, r) ==> t' == t)
            && (Waits(t.db, r) && chance.fate.Unresolvable? ==>
                  && t'.advanced == t.advanced && t'.failed == t.failed + 1
                  && OthersStay(t.db, t'.db, r) && t'.db.runs[r].status.Failed? && t'.db.attempts == t.db.attempts)
            && (Waits(t.db, r) && !chance.fate.Unresolvable? && !HasRoom(terms.config, t.db, t.db.runs[r].task) ==> t' == t)
  {
    ClaimAcceptsIff(terms.config, t.db, r, terms.worker, chance.now, terms.leaseSeconds);
    WaitingIs(terms.config, t.db, r);
    if r < |t.db.runs| { FailQueuedOutcome(t.db, r); }
  }

  /** A turn of a run that waits, can be resolved and has room: one more attempt, numbered
      next, and the run takes the status that follows from the report -- it waits again
      only for an attempt that is left. */
  lemma StartedTurnOutcome(terms: Terms, t: Tally, r: nat, chance: Chance, t': Tally)
    requires terms.config.Valid() && Sound(terms.config, t.db) && chance.Valid() && 0 < terms.leaseSeconds
    requires t' == Turn(terms, t, r, chance)
    requires Waits(t.db, r) && !chance.fate.Unresolvable? && HasRoom(terms.config, t.db, t.db.runs[r].task)
    ensures t'.advanced == t.advanced + 1 && t'.failed == t.failed
    ensures OthersStay(t.db, t'.db, r) && |t'.db.attempts| == |t.db.attempts| + 1
    ensures chance.fate.Faulty? ==> t'.db.runs[r].status.Failed?
    ensures chance.fate.Reports? ==>
            var result := chance.fate.result;
            t'.db.runs[r].status ==
            StatusAfter(RunStatus.Running, result.status,
                        result.status.Failed? && result.failure == Some(true) &&
                        Made(t.db, r) + 1 < t.db.runs[r].task.maxAttempts)
    ensures var row := t'.db.attempts[|t.db.attempts|];
            && row.stage == r && row.number == Made(t.db, r) + 1 && row.worker == terms.worker && row.lease.None?
            && row.status == (if chance.fate.Reports? && chance.fate.result.status.Succeeded? then AttemptStatus.Succeeded
                              else AttemptStatus.Failed)
  {
    ClaimableIff(terms.config, t.db, r);
    var a := |t.db.attempts|;
    var db1 := Claimed(terms.config, t.db, r, terms.worker, chance.now + terms.leaseSeconds);
    TurnStarts(terms, t, r, chance, db1);
    assert LiveAt(db1, r, a);
    if chance.fate.Reports? {
      ConcludeOutcome(db1, a, chance.fate.result, r, t'.db);
    } else {
      RaiseOutcome(db1, a, r, t'.db);
    }
    TurnTouchesOwn(terms, t, r, chance, t');
  }

  // ---- cancellations -----------------------------------------------------------------------

  /** The cancel requests among the runs created before `r`. */
  function Requests(runs: seq<RunRow>, r: nat): set<nat>
    requires r <= |runs|
  {
    set q | 0 <= q < r && runs[q].status.CancelRequested?
  }

  lemma {:induction false} OlderRequestsIs(runs: seq<RunRow>, r: nat)
    requires r <= |runs|
    ensures OlderRequests(runs, r) == |Requests(runs, r)|
  {
    if r > 0 {
      OlderRequestsIs(runs, r - 1);
      assert Requests(runs, r) ==
             Requests(runs, r - 1) + if runs[r - 1].status.CancelRequested? then {r - 1} else {};
    }
  }

  /** A pass settles a run if and only if its cancellation was requested, no attempt of it
      runs, and fewer than `limit` requests are on older runs. */
  lemma CoveredIff(db: Db, limit: nat, r: nat)
    ensures Covered(db, limit, r) <==>
            && r < |db.runs| && db.runs[r].status.CancelRequested? && |Requests(db.runs, r)| < limit
            && forall a :: 0 <= a < |db.attempts| && db.attempts[a].stage == r ==> !db.attempts[a].status.Running?
  {
    if r < |db.runs| { OlderRequestsIs(db.runs, r); }
    if HasLive(db, r) {
      var a :| LiveAt(db, r, a);
    } else {
      forall a | 0 <= a < |db.attempts| && db.attempts[a].stage == r ensures !db.attempts[a].status.Running? {
        assert !LiveAt(db, r, a);
      }
    }
  }
}
