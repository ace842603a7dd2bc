/** "A failed run has no running attempt" is false of the code; here is exactly which
    steps break it, in any history.  `RunWitnesses` holds a run that does. */
module RunLimits {
  import opened Contracts
  import opened Admission
  import opened Tables
  import opened Transactions
  import opened TableInvariant
  import opened RunProtocol
  import opened MirroredRows
  import opened RunSafety

  ghost predicate FailedWhileLive(db: Db, r: nat) {
    r < |db.runs| && db.runs[r].status.Failed? && HasLive(db, r)
  }

  /** The three steps that fail a run: a preflight failure of a waiting run, a worker in
      its failure path that read "running", and a worker that settles a failure it may
      not retry. */
  ghost predicate Fails(s: State, action: Action, r: nat) {
    && r < |s.db.runs| && !Terminal(s.db.runs[r].status)
    && match action
       case FailQueued(q) => q == r && Unclaimed(s.db.runs[r].status)
       case FailRun(k) => At(s, k).FailSettling? && RunOf(s.db, At(s, k).attempt) == r
       case Settle(k) => At(s, k).Settling? && SettlesAsFailed(s.db, At(s, k).attempt, At(s, k).result, r)
       case _ => false
  }

  ghost predicate SettlesAsFailed(db: Db, a: nat, result: Result, r: nat)
    requires r < |db.runs|
  {
    && RunOf(db, a) == r && result.status.Failed?
    && (a < |db.attempts| ==> !ShouldRetry(result, db.attempts[a].number, db.runs[r].task.maxAttempts))
  }

  /** No other step fails a run. */
  lemma NotFailedBy(config: Config, s: State, action: Action, r: nat)
    requires config.Valid() && !action.Settle? && !action.FailRun? && !action.FailQueued?
    requires r < |Step(config, s, action).db.runs| && Step(config, s, action).db.runs[r].status.Failed?
    ensures r < |s.db.runs| && s.db.runs[r].status.Failed?
  {
  }

  lemma SettledBy(s: State, k: nat, r: nat)
    requires At(s, k).Settling? && r < |DoSettle(s, k).db.runs| && DoSettle(s, k).db.runs[r].status.Failed?
    ensures r < |s.db.runs|
    ensures s.db.runs[r].status.Failed? ||
            (!Terminal(s.db.runs[r].status) && SettlesAsFailed(s.db, At(s, k).attempt, At(s, k).result, r))
  {
  }

  /** Who set a run to failed. */
  lemma FailedBy(config: Config, s: State, action: Action, r: nat)
    requires config.Valid() && (r < |s.db.runs| ==> !s.db.runs[r].status.Preparing?)
    requires r < |Step(config, s, action).db.runs| && Step(config, s, action).db.runs[r].status.Failed?
    ensures r < |s.db.runs| && (s.db.runs[r].status.Failed? || Fails(s, action, r))
  {
    match action
    case Settle(k) => if At(s, k).Settling? { SettledBy(s, k, r); }
    case FailRun(_) =>
    case FailQueued(_) =>
    case _ => NotFailedBy(config, s, action, r);
  }

  /** And such a step does fail it, leaving the attempts alone. */
  lemma FailsIndeed(config: Config, s: State, action: Action, r: nat, s': State)
    requires config.Valid() && Placed(s) && Fails(s, action, r) && s' == Step(config, s, action)
    ensures r < |s'.db.runs| && s'.db.runs[r].status.Failed? && s'.db.attempts == s.db.attempts
  {
    TransitionMovesBoth(s.db, r, RunStatus.Failed);
  }

  /** Outside a claim, no attempt comes to life. */
  lemma LiveBefore(config: Config, s: State, action: Action, r: nat)
    requires config.Valid() && !action.ClaimRun?
    requires HasLive(Step(config, s, action).db, r)
    ensures HasLive(s.db, r)
  {
    var db' := Step(config, s, action).db;
    var a :| 0 <= a < |db'.attempts| && LiveAt(db', r, a);
    assert LiveAt(s.db, r, a);
  }

  lemma ClaimNeverFails(config: Config, s: State, action: Action, r: nat)
    requires config.Valid() && Placed(s) && action.ClaimRun? && !FailedWhileLive(s.db, r)
    ensures !FailedWhileLive(Step(config, s, action).db, r)
  {
    var db' := Step(config, s, action).db;
    if FailedWhileLive(db', r) {
      var a :| 0 <= a < |db'.attempts| && LiveAt(db', r, a);
      assert LiveAt(s.db, r, a);
    }
  }

  /** The exact condition, in every history: a step leaves a failed run with a running
      attempt, where there was none such, if and only if it fails a run of which an
      attempt is running. */
  lemma FailedWhileLiveIff(config: Config, s: State, action: Action, r: nat)
    requires config.Valid() && Placed(s) && !FailedWhileLive(s.db, r)
    ensures FailedWhileLive(Step(config, s, action).db, r) <==> HasLive(s.db, r) && Fails(s, action, r)
  {
    var s' := Step(config, s, action);
    if HasLive(s.db, r) && Fails(s, action, r) {
      FailsIndeed(config, s, action, r, s');
      var a :| 0 <= a < |s.db.attempts| && LiveAt(s.db, r, a);
      assert LiveAt(s'.db, r, a);
    }
    if FailedWhileLive(s'.db, r) {
      FailedBy(config, s, action, r);
      if action.ClaimRun? { ClaimNeverFails(config, s, action, r); } else { LiveBefore(config, s, action, r); }
    }
  }

  /** Without operator retries only the failure path does it. */
  lemma OnlyTheFailurePath(config: Config, s: State, action: Action, r: nat)
    requires config.Valid() && Safe(config, s) && !FailedWhileLive(s.db, r)
    ensures FailedWhileLive(Step(config, s, action).db, r) ==> action.FailRun?
  {
    if FailedWhileLive(Step(config, s, action).db, r) {
      SafeIsPlaced(config, s);
      FailedWhileLiveIff(config, s, action, r);
      if action.Settle? && At(s, action.actor).Settling? { DutyMeansIdle(config, s, action.actor); }
    }
  }
}
