/** Two rows, one status.  Eight transactions update a run and its stage by different
    guarded statements; in every history whatsoever the two never disagree. */
module MirroredRows {
  import opened Contracts
  import opened Admission
  import opened Tables
  import opened Transactions
  import opened TableInvariant
  import opened RunProtocol

  ghost predicate Paired(db: Db) { Shaped(db) && Mirrored(db) }

  /** Paired tables under actors that stand at existing attempts and hold results an
      adapter may report. */
  ghost predicate Placed(s: State) {
    && Paired(s.db)
    && (forall k :: 0 <= k < |s.actors| && !s.actors[k].Done? && !s.actors[k].Cancelling? ==>
          s.actors[k].attempt < |s.db.attempts|)
    && (forall k :: 0 <= k < |s.actors| && s.actors[k].Settling? ==> s.actors[k].result.Valid())
  }

  lemma TransitionPairs(db: Db, r: nat, target: RunStatus)
    requires Paired(db) && !target.Preparing?
    ensures Paired(After(db, TransitionRun(db, r, target)))
  {
    TransitionMovesBoth(db, r, target);
  }

  lemma RequeuePairs(db: Db, r: nat)
    requires Paired(db)
    ensures Paired(After(db, ScheduleRetry(db, r))) && Paired(After(db, RequestRetry(db, r)))
  {
  }

  lemma SettlePairs(db: Db, a: nat, result: Result)
    requires Paired(db) && result.Valid()
    ensures Paired(After(db, SettleRun(db, a, result)))
  {
    RequeuePairs(db, RunOf(db, a));
    TransitionPairs(db, RunOf(db, a), result.status);
  }

  lemma ClaimPairs(db: Db, c: Claim)
    requires Paired(db) && (c.capacity.Some? ==> 0 < c.capacity.value.den)
    ensures Paired(After(db, StartAttempt(db, c)))
  {
  }

  lemma SubmitPairs(db: Db, c: Catalog, submission: Submission)
    requires Paired(db)
    ensures Paired(After(db, SubmitRun(db, c, submission)))
  {
  }

  lemma RequestKeepsPlaced(config: Config, s: State, action: Action)
    requires config.Valid() && Placed(s)
    requires action.Submit? || action.Cancel? || action.FailQueued? || action.OperatorRetry? || action.ClaimRun?
    ensures Placed(Step(config, s, action))
  {
    match action
    case Submit(c, submission) => SubmitPairs(s.db, c, submission);
    case Cancel(r) => TransitionPairs(s.db, r, CancelRequested);
    case FailQueued(r) =>
    case OperatorRetry(r) => RequeuePairs(s.db, r);
    case ClaimRun(r, worker, now, lease) => ClaimPairs(s.db, WorkerClaim(config, s.db, r, worker, now, lease));
  }

  lemma SettleKeepsPlaced(config: Config, s: State, k: nat)
    requires config.Valid() && Placed(s)
    ensures Placed(Step(config, s, Settle(k)))
  {
    if At(s, k).Settling? {
      var Settling(a, result) := At(s, k);
      SettlePairs(s.db, a, result);
      assert |After(s.db, SettleRun(s.db, a, result)).attempts| == |s.db.attempts|;
    }
  }

  lemma ResumeKeepsPlaced(config: Config, s: State, k: nat)
    requires config.Valid() && Placed(s)
    ensures Placed(Step(config, s, Resume(k)))
  {
    if At(s, k).Resuming? { RequeuePairs(s.db, RunOf(s.db, At(s, k).attempt)); }
  }

  lemma MoverKeepsPlaced(config: Config, s: State, action: Action)
    requires config.Valid() && Placed(s)
    requires action.Settle? || action.FailRun? || action.Lose? || action.Resume? || action.SettleCancellation?
    ensures Placed(Step(config, s, action))
  {
    match action
    case Settle(k) => SettleKeepsPlaced(config, s, k);
    case Resume(k) => ResumeKeepsPlaced(config, s, k);
    case FailRun(k) => if At(s, k).FailSettling? { TransitionPairs(s.db, RunOf(s.db, At(s, k).attempt), RunStatus.Failed); }
    case Lose(k) => if At(s, k).Losing? { TransitionPairs(s.db, RunOf(s.db, At(s, k).attempt), RunStatus.Lost); }
    case SettleCancellation(k) => if At(s, k).Cancelling? { TransitionPairs(s.db, At(s, k).run, Cancelled); }
  }

  lemma StepKeepsPlaced(config: Config, s: State, action: Action)
    requires config.Valid() && Placed(s)
    ensures Placed(Step(config, s, action))
  {
    if action.Submit? || action.Cancel? || action.FailQueued? || action.OperatorRetry? || action.ClaimRun? {
      RequestKeepsPlaced(config, s, action);
    } else if action.Settle? || action.FailRun? || action.Lose? || action.Resume? || action.SettleCancellation? {
      MoverKeepsPlaced(config, s, action);
    }
  }

  lemma {:induction false} ReachableIsPlaced(config: Config, actions: seq<Action>)
    requires config.Valid()
    ensures Placed(Run(config, START, actions))
  {
    if actions != [] {
      ReachableIsPlaced(config, actions[..|actions| - 1]);
      StepKeepsPlaced(config, Run(config, START, actions[..|actions| - 1]), actions[|actions| - 1]);
    }
  }

  /** Crashes, operator retries and every interleaving included: a run and its stage
      carry the same status. */
  lemma RunAndStageAgree(config: Config, actions: seq<Action>, r: nat)
    requires config.Valid() && r < |Run(config, START, actions).db.runs|
    ensures var db := Run(config, START, actions).db;
            |db.stages| == |db.runs| && db.stages[r].status == db.runs[r].status
  {
    ReachableIsPlaced(config, actions);
  }
}
