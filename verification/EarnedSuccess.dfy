/** Success is earned, over whole histories: a run says "succeeded" only if some
    worker finished one of its attempts with a conclusion that earned it. */
module EarnedSuccess {
  import opened Contracts
  import opened Admission
  import opened Tables
  import opened Transactions
  import opened RunProtocol
  import AdapterResult

  function ResultOf(p: AdapterResult.PluginResult): Result { Result(p.status, p.failure) }

  /** The worker that finishes at position `i` concluded `scene` for its attempt. */
  predicate Reports(s: State, action: Action, scene: AdapterResult.Scene) {
    action.Finish? ==>
      && At(s, action.actor) == Executing(scene.attempt)
      && AdapterResult.Conclude(scene).Concluded?
      && action.result == ResultOf(AdapterResult.Conclude(scene).result)
  }

  predicate Reported(config: Config, actions: seq<Action>, scenes: seq<AdapterResult.Scene>)
    requires config.Valid()
  {
    && |scenes| == |actions|
    && forall i :: 0 <= i < |actions| ==> Reports(Run(config, START, actions[..i]), actions[i], scenes[i])
  }

  /** The conclusion at position `i` earned success for run `r`, and the attempt it
      concluded is recorded as succeeded. */
  predicate EarnedAt(db: Db, actions: seq<Action>, scenes: seq<AdapterResult.Scene>, i: nat, r: nat)
    requires |scenes| == |actions|
  {
    && i < |actions| && actions[i].Finish? && AdapterResult.Earned(scenes[i])
    && scenes[i].attempt < |db.attempts| && db.attempts[scenes[i].attempt].stage == r
    && db.attempts[scenes[i].attempt].status.Succeeded?
  }

  predicate EarnedSometime(db: Db, actions: seq<Action>, scenes: seq<AdapterResult.Scene>, r: nat)
    requires |scenes| == |actions|
  {
    exists i :: 0 <= i < |actions| && EarnedAt(db, actions, scenes, i, r)
  }

  ghost predicate Backed(s: State, actions: seq<Action>, scenes: seq<AdapterResult.Scene>)
    requires |scenes| == |actions|
  {
    && (forall r :: 0 <= r < |s.db.runs| && s.db.runs[r].status.Succeeded? ==> EarnedSometime(s.db, actions, scenes, r))
    && (forall k :: 0 <= k < |s.actors| && s.actors[k].Settling? && s.actors[k].result.status.Succeeded? ==>
          EarnedSometime(s.db, actions, scenes, RunOf(s.db, s.actors[k].attempt)))
    && (forall k :: 0 <= k < |s.actors| ==> Located(s, k))
  }

  /** Workers hold attempts that exist. */
  predicate Located(s: State, k: nat)
    requires k < |s.actors|
  {
    (s.actors[k].Executing? || s.actors[k].Settling?) ==> s.actors[k].attempt < |s.db.attempts|
  }

  // ---- one step ------------------------------------------------------------------------

  /** Attempts keep their stage, and a succeeded one stays succeeded. */
  predicate StagesStay(db: Db, db': Db) {
    && |db.attempts| <= |db'.attempts|
    && forall a :: 0 <= a < |db.attempts| ==>
         && db'.attempts[a].stage == db.attempts[a].stage
         && (db.attempts[a].status.Succeeded? ==> db'.attempts[a].status.Succeeded?)
  }

  /** Run rows after a transaction that moves nothing to succeeded, except perhaps `q`. */
  predicate NoneSucceeds(db: Db, db': Db, q: nat) {
    forall r :: 0 <= r < |db'.runs| && db'.runs[r].status.Succeeded? && r != q ==>
      r < |db.runs| && db.runs[r].status.Succeeded?
  }

  predicate QuietDb(db: Db, db': Db) { StagesStay(db, db') && NoneSucceeds(db, db', |db'.runs|) }

  lemma TransitionQuiet(db: Db, q: nat, target: RunStatus)
    ensures StagesStay(db, After(db, TransitionRun(db, q, target)))
    ensures NoneSucceeds(db, After(db, TransitionRun(db, q, target)), q)
    ensures !target.Succeeded? ==> QuietDb(db, After(db, TransitionRun(db, q, target)))
  {
  }

  lemma RequestQuiet(config: Config, s: State, action: Action)
    requires config.Valid()
    requires action.Submit? || action.Cancel? || action.FailQueued? || action.Beat? || action.OperatorRetry?
    ensures QuietDb(s.db, Step(config, s, action).db) && Step(config, s, action).actors == s.actors
  {
    match action
    case Cancel(r) => TransitionQuiet(s.db, r, CancelRequested);
    case _ =>
  }

  lemma ClaimQuiet(config: Config, s: State, action: Action)
    requires config.Valid() && (action.ClaimRun? || action.Reclaim? || action.ListCancellation?)
    ensures var s' := Step(config, s, action);
            && QuietDb(s.db, s'.db) && |s.actors| <= |s'.actors| <= |s.actors| + 1
            && (forall k :: 0 <= k < |s.actors| ==> s'.actors[k] == s.actors[k])
            && (forall k :: |s.actors| <= k < |s'.actors| ==> !s'.actors[k].Settling? && Located(s', k))
  {
  }

  /** Every step of an actor other than finishing and settling. */
  lemma ActorQuiet(config: Config, s: State, action: Action)
    requires config.Valid() && !action.Finish? && !action.Settle? && !action.ClaimRun? && !action.Reclaim?
    requires !action.ListCancellation? && !action.Submit? && !action.Cancel? && !action.FailQueued?
    requires !action.Beat? && !action.OperatorRetry?
    ensures var s' := Step(config, s, action);
            && QuietDb(s.db, s'.db) && |s.actors| == |s'.actors|
            && (forall k :: 0 <= k < |s.actors| ==>
                  s'.actors[k] == s.actors[k] || !(s'.actors[k].Settling? || s'.actors[k].Executing?))
  {
    match action
    case FailRun(k) => if At(s, k).FailSettling? { TransitionQuiet(s.db, RunOf(s.db, At(s, k).attempt), RunStatus.Failed); }
    case Lose(k) => if At(s, k).Losing? { TransitionQuiet(s.db, RunOf(s.db, At(s, k).attempt), RunStatus.Lost); }
    case SettleCancellation(k) => if At(s, k).Cancelling? { TransitionQuiet(s.db, At(s, k).run, Cancelled); }
    case _ =>
  }

  /** More history and a quiet step keep a run's success explained. */
  lemma EarnedStays(db: Db, db': Db, actions: seq<Action>, scenes: seq<AdapterResult.Scene>, r: nat)
    requires 0 < |actions| == |scenes| && StagesStay(db, db')
    requires EarnedSometime(db, actions[..|actions| - 1], scenes[..|scenes| - 1], r)
    ensures EarnedSometime(db', actions, scenes, r)
  {
    var before, seen := actions[..|actions| - 1], scenes[..|scenes| - 1];
    var i :| 0 <= i < |before| && EarnedAt(db, before, seen, i, r);
    assert EarnedAt(db', actions, scenes, i, r);
  }

  /** A step that moves at most run `q` to succeeded, with good reason. */
  lemma StepKeepsBacked(s: State, s': State, actions: seq<Action>, scenes: seq<AdapterResult.Scene>, q: nat)
    requires 0 < |actions| == |scenes|
    requires Backed(s, actions[..|actions| - 1], scenes[..|scenes| - 1])
    requires StagesStay(s.db, s'.db) && NoneSucceeds(s.db, s'.db, q)
    requires q < |s'.db.runs| && s'.db.runs[q].status.Succeeded? ==> EarnedSometime(s'.db, actions, scenes, q)
    requires forall k :: 0 <= k < |s'.actors| ==>
               || (k < |s.actors| && s'.actors[k] == s.actors[k])
               || (!s'.actors[k].Settling? && Located(s', k))
    ensures Backed(s', actions, scenes)
  {
    forall r | 0 <= r < |s'.db.runs| && s'.db.runs[r].status.Succeeded? ensures EarnedSometime(s'.db, actions, scenes, r) {
      if r != q { EarnedStays(s.db, s'.db, actions, scenes, r); }
    }
    forall k | 0 <= k < |s'.actors| && s'.actors[k].Settling? && s'.actors[k].result.status.Succeeded?
      ensures EarnedSometime(s'.db, actions, scenes, RunOf(s'.db, s'.actors[k].attempt))
    {
      assert Located(s, k);
      EarnedStays(s.db, s'.db, actions, scenes, RunOf(s.db, s.actors[k].attempt));
    }
    forall k | 0 <= k < |s'.actors| ensures Located(s', k) {
      if k < |s.actors| && s'.actors[k] == s.actors[k] { assert Located(s, k); }
    }
  }

  lemma FinishKeepsBacked(config: Config, s: State, actions: seq<Action>, scenes: seq<AdapterResult.Scene>)
    requires config.Valid() && 0 < |actions| == |scenes| && actions[|actions| - 1].Finish?
    requires Backed(s, actions[..|actions| - 1], scenes[..|scenes| - 1])
    requires Reports(s, actions[|actions| - 1], scenes[|scenes| - 1])
    ensures Backed(Step(config, s, actions[|actions| - 1]), actions, scenes)
  {
    var Finish(k, result) := actions[|actions| - 1];
    var scene := scenes[|scenes| - 1];
    var s' := Step(config, s, actions[|actions| - 1]);
    assert Located(s, k);
    var mid := s'.(actors := s.actors[k := Done]);
    StepKeepsBacked(s, mid, actions, scenes, |s'.db.runs|);
    if s'.actors[k].Settling? && result.status.Succeeded? {
      AdapterResult.SuccessIffEarned(scene);
      assert EarnedAt(s'.db, actions, scenes, |actions| - 1, RunOf(s'.db, scene.attempt));
    }
    forall j | 0 <= j < |s'.actors| && j != k
      ensures s'.actors[j] == mid.actors[j] && Located(s', j)
    {
      assert Located(mid, j);
    }
  }

  lemma SettleKeepsBacked(config: Config, s: State, actions: seq<Action>, scenes: seq<AdapterResult.Scene>)
    requires config.Valid() && 0 < |actions| == |scenes| && actions[|actions| - 1].Settle?
    requires Backed(s, actions[..|actions| - 1], scenes[..|scenes| - 1])
    ensures Backed(Step(config, s, actions[|actions| - 1]), actions, scenes)
  {
    var k := actions[|actions| - 1].actor;
    var s' := Step(config, s, actions[|actions| - 1]);
    SettleStep(config, s, k);
    if At(s, k).Settling? && At(s, k).result.status.Succeeded? {
      var q := RunOf(s.db, At(s, k).attempt);
      EarnedStays(s.db, s'.db, actions, scenes, q);
      StepKeepsBacked(s, s', actions, scenes, q);
    } else {
      StepKeepsBacked(s, s', actions, scenes, |s'.db.runs|);
    }
  }

  lemma SettleStep(config: Config, s: State, k: nat)
    requires config.Valid()
    ensures var s' := Step(config, s, Settle(k));
            && StagesStay(s.db, s'.db) && |s'.actors| == |s.actors|
            && (forall j :: 0 <= j < |s.actors| ==> s'.actors[j] == s.actors[j] || (j == k && (s'.actors[j].Done? || s'.actors[j].Failing?)))
            && (if At(s, k).Settling? && At(s, k).result.status.Succeeded?
                then NoneSucceeds(s.db, s'.db, RunOf(s.db, At(s, k).attempt))
                else QuietDb(s.db, s'.db))
  {
    if At(s, k).Settling? { SettleMoves(s.db, At(s, k).attempt, At(s, k).result); }
  }

  /** Settling moves at most its own run to succeeded, and only on such a result. */
  lemma SettleMoves(db: Db, a: nat, result: Result)
    ensures StagesStay(db, After(db, SettleRun(db, a, result)))
    ensures |After(db, SettleRun(db, a, result)).attempts| == |db.attempts|
    ensures NoneSucceeds(db, After(db, SettleRun(db, a, result)), RunOf(db, a))
    ensures !result.status.Succeeded? ==> QuietDb(db, After(db, SettleRun(db, a, result)))
  {
    TransitionQuiet(db, RunOf(db, a), result.status);
  }

  lemma {:induction false} RunIsBacked(config: Config, actions: seq<Action>, scenes: seq<AdapterResult.Scene>)
    requires config.Valid() && Reported(config, actions, scenes)
    ensures Backed(Run(config, START, actions), actions, scenes)
  {
    if actions != [] {
      var before, seen := actions[..|actions| - 1], scenes[..|scenes| - 1];
      var action := actions[|actions| - 1];
      assert forall i :: 0 <= i < |before| ==> before[..i] == actions[..i];
      RunIsBacked(config, before, seen);
      var s := Run(config, START, before);
      match action
      case Finish(_, _) => FinishKeepsBacked(config, s, actions, scenes);
      case Settle(_) => SettleKeepsBacked(config, s, actions, scenes);
      case _ => OtherKeepsBacked(config, s, actions, scenes);
    }
  }

  lemma OtherKeepsBacked(config: Config, s: State, actions: seq<Action>, scenes: seq<AdapterResult.Scene>)
    requires config.Valid() && 0 < |actions| == |scenes|
    requires !actions[|actions| - 1].Finish? && !actions[|actions| - 1].Settle?
    requires Backed(s, actions[..|actions| - 1], scenes[..|scenes| - 1])
    ensures Backed(Step(config, s, actions[|actions| - 1]), actions, scenes)
  {
    var action := actions[|actions| - 1];
    if action.ClaimRun? || action.Reclaim? || action.ListCancellation? {
      ClaimQuiet(config, s, action);
    } else if action.Submit? || action.Cancel? || action.FailQueued? || action.Beat? || action.OperatorRetry? {
      RequestQuiet(config, s, action);
    } else {
      ActorQuiet(config, s, action);
    }
    StepKeepsBacked(s, Step(config, s, action), actions, scenes, |Step(config, s, action).db.runs|);
  }

  /** In every history, crashes and operator retries included: a succeeded run has an
      attempt, recorded as succeeded, whose process exited cleanly, whose report and declarations checked out,
      which no evaluator rejected and whose artifacts and metrics were all recorded. */
  lemma SucceededRunsEarnedIt(config: Config, actions: seq<Action>, scenes: seq<AdapterResult.Scene>, r: nat)
    requires config.Valid() && Reported(config, actions, scenes)
    requires var db := Run(config, START, actions).db; r < |db.runs| && db.runs[r].status.Succeeded?
    ensures EarnedSometime(Run(config, START, actions).db, actions, scenes, r)
  {
    RunIsBacked(config, actions, scenes);
  }
}
