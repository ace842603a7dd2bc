/** Submission's promise and the operator's explanation, against the claim itself: the
    same task, the same configuration, and the totals the reservation table holds. */
module ClaimAdmission {
  import opened Contracts
  import opened Admission
  import opened Tables
  import opened Transactions
  import opened TableInvariant

  predicate Idle(db: Db) { forall a :: 0 <= a < |db.attempts| ==> !db.attempts[a].status.Running? }

  lemma {:induction false} NothingReserved(reservations: map<nat, Reservation>, n: nat)
    requires forall a: nat :: a !in reservations
    ensures CpuSum(reservations, n) == 0 && MemorySum(reservations, n) == 0
  {
    if n > 0 { NothingReserved(reservations, n - 1); }
  }

  /** Manual approval is given, and the default reservation itself fits. */
  predicate Approved(config: Config, task: TaskSpec)
    requires 0 < config.capacity.den
  {
    && config.defaultMemory <= MemoryBudget(config.capacity)
    && "memory_approval" in task.labels && task.labels["memory_approval"] == "manual"
  }

  /** While nothing runs, start_attempt admits every waiting run whose task submission
      accepts; and an approved task that it admits is one submission accepts. */
  lemma AcceptedStartsWhenIdle(config: Config, db: Db, r: nat, worker: string, now: int, lease: int)
    requires config.Valid() && Consistent(config, db) && Idle(db) && 0 < lease
    requires r < |db.runs| && Unclaimed(db.runs[r].status)
    ensures AcceptedAtSubmission(config, db.runs[r].task) ==>
              StartAttempt(db, WorkerClaim(config, db, r, worker, now, lease)).Committed?
    ensures Approved(config, db.runs[r].task) ==>
              (AcceptedAtSubmission(config, db.runs[r].task) <==>
               StartAttempt(db, WorkerClaim(config, db, r, worker, now, lease)).Committed?)
  {
    StartEffect(config, db, r, worker, now, lease);
    NothingReserved(db.reservations, |db.attempts|);
    AcceptedIsAdmittedWhenIdle(config, db.runs[r].task);
  }

  /** Some core or byte of the request ends inside the last, partial unit that the
      claim's budget has over the explanation's. */
  predicate InLastUnit(config: Config, heldCpu: nat, heldMemory: nat, task: TaskSpec)
    requires 0 < config.capacity.den
  {
    var c, want := config.capacity, Effective(config, task);
    || heldCpu + want.cpu == FloorShare(c.cpuCores, c.num, c.den) + 1
    || heldMemory + want.memory == FloorShare(c.memoryBytes, c.num, c.den) + 1
  }

  /** For a waiting run, "claimable" means that start_attempt would admit it now; and
      start_attempt admits it although the answer is "resource" exactly when it fits and
      ends inside the last unit. */
  lemma ClaimableStarts(config: Config, db: Db, r: nat, worker: string, now: int, lease: int)
    requires config.Valid() && Consistent(config, db) && 0 < lease
    requires r < |db.runs| && Unclaimed(db.runs[r].status)
    ensures var cpu, memory := CpuSum(db.reservations, |db.attempts|), MemorySum(db.reservations, |db.attempts|);
            var task := db.runs[r].task;
            var starts := StartAttempt(db, WorkerClaim(config, db, r, worker, now, lease)).Committed?;
            && (SaysClaimable(config, cpu, memory, task) ==> starts)
            && (starts && !SaysClaimable(config, cpu, memory, task) <==> starts && InLastUnit(config, cpu, memory, task))
  {
    var cpu, memory := CpuSum(db.reservations, |db.attempts|), MemorySum(db.reservations, |db.attempts|);
    StartEffect(config, db, r, worker, now, lease);
    ClaimableIsAdmitted(config, cpu, memory, db.runs[r].task);
  }
}
