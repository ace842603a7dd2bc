/** When an operator retry can end in two running attempts of one run.  The retry is
    harmless unless some actor can still send the run back to the queue -- and then it
    is harmful whenever the machine has room for two such attempts. */
module RetryHazard {
  import opened Contracts
  import opened Admission
  import opened Tables
  import opened Transactions
  import opened TableInvariant
  import opened RunProtocol
  import opened RunSafety
  import opened MirroredRows
  import opened CapacityHeld

  /** The actor may still requeue run `r`: it found room to resume, it may find room
      on a resumable stage, or it settles a retryable failure with budget left. */
  ghost predicate CanRequeue(s: State, k: nat, r: nat) {
    && k < |s.actors| && r < |s.db.runs| && r < |s.db.stages|
    && match s.actors[k]
       case Resuming(a) => RunOf(s.db, a) == r
       case Reclaimed(a) => RunOf(s.db, a) == r && s.db.stages[r].resumable
       case Settling(a, result) =>
         RunOf(s.db, a) == r && a < |s.db.attempts| &&
         ShouldRetry(result, s.db.attempts[a].number, s.db.runs[r].task.maxAttempts)
       case _ => false
  }

  ghost predicate SomebodyRequeues(s: State, r: nat) {
    exists k :: 0 <= k < |s.actors| && CanRequeue(s, k, r)
  }

  ghost predicate OneLive(db: Db, r: nat) {
    forall a, b :: LiveAt(db, r, a) && LiveAt(db, r, b) ==> a == b
  }

  predicate NeverRetried(actions: seq<Action>, r: nat) {
    forall i :: 0 <= i < |actions| ==> actions[i] != OperatorRetry(r)
  }

  /** Whatever follows, short of another retry of `r`: at most one running attempt. */
  ghost predicate StaysSingle(config: Config, s: State, r: nat)
    requires config.Valid()
  {
    forall actions :: NeverRetried(actions, r) ==> OneLive(Run(config, s, actions).db, r)
  }

  /** Two attempts of the task fit the machine together. */
  predicate RoomForTwo(config: Config, task: TaskSpec)
    requires config.Valid()
  {
    var want := Effective(config, task);
    Fits(config.capacity, want.cpu, want.memory, want)
  }

  // ---- at most one claim to the run ------------------------------------------------

  datatype Title = ByAttempt(attempt: nat) | ByDuty(actor: nat)

  /** What can make, or already is, a running attempt of `r`. */
  ghost predicate Entitled(s: State, r: nat, t: Title) {
    match t
    case ByAttempt(a) => LiveAt(s.db, r, a)
    case ByDuty(k) => CanRequeue(s, k, r)
  }

  ghost predicate Exclusive(s: State, r: nat) {
    && Placed(s) && r < |s.db.runs|
    && (forall t, u :: Entitled(s, r, t) && Entitled(s, r, u) ==> t == u)
    && (Unclaimed(s.db.runs[r].status) ==> forall t :: !Entitled(s, r, t))
  }

  /** Titles only persist, except that one of them may change hands. */
  lemma TitlesPass(s: State, s': State, r: nat, from: Title, to: Title)
    requires Exclusive(s, r) && Placed(s') && r < |s'.db.runs|
    requires forall t :: Entitled(s', r, t) ==> if t == to then Entitled(s, r, from) else Entitled(s, r, t) && t != from
    requires Unclaimed(s'.db.runs[r].status) ==> Unclaimed(s.db.runs[r].status)
    ensures Exclusive(s', r)
  {
  }

  lemma TitlesPersist(s: State, s': State, r: nat)
    requires Exclusive(s, r) && Placed(s') && r < |s'.db.runs|
    requires forall t :: Entitled(s', r, t) ==> Entitled(s, r, t)
    requires Unclaimed(s'.db.runs[r].status) ==> Unclaimed(s.db.runs[r].status)
    ensures Exclusive(s', r)
  {
  }

  /** The title that requeues the run is spent by it. */
  lemma TitleSpent(s: State, s': State, r: nat, k: nat)
    requires Exclusive(s, r) && Placed(s') && r < |s'.db.runs| && CanRequeue(s, k, r) && !CanRequeue(s', k, r)
    requires forall t :: Entitled(s', r, t) ==> Entitled(s, r, t)
    ensures Exclusive(s', r)
  {
    assert Entitled(s, r, ByDuty(k)) && !Entitled(s', r, ByDuty(k));
    assert forall t :: Entitled(s, r, t) ==> t == ByDuty(k);
  }

  // ---- what no step rewrites ---------------------------------------------------------

  ghost predicate Frames(db: Db, db': Db) {
    && |db.attempts| <= |db'.attempts| && |db.runs| <= |db'.runs| && |db.stages| <= |db'.stages|
    && (forall a :: 0 <= a < |db.attempts| ==>
          db'.attempts[a].stage == db.attempts[a].stage && db'.attempts[a].number == db.attempts[a].number)
    && (forall r :: 0 <= r < |db.runs| ==> db'.runs[r].task == db.runs[r].task)
    && (forall r :: 0 <= r < |db.stages| ==> db'.stages[r].resumable == db.stages[r].resumable)
  }

  /** An actor that stands still keeps, and gains, nothing. */
  lemma SameActorSameTitle(s: State, s': State, k: nat, r: nat)
    requires Placed(s) && Frames(s.db, s'.db) && r < |s.db.runs|
    requires k < |s.actors| && k < |s'.actors| && s'.actors[k] == s.actors[k]
    ensures CanRequeue(s', k, r) <==> CanRequeue(s, k, r)
  {
  }

  lemma MoverFrames(db: Db, r: nat, target: RunStatus)
    ensures Frames(db, After(db, TransitionRun(db, r, target)))
  {
  }

  lemma RequeueFrames(db: Db, r: nat)
    ensures Frames(db, After(db, ScheduleRetry(db, r)))
  {
  }

  lemma RetryFrames(db: Db, r: nat)
    ensures Frames(db, After(db, RequestRetry(db, r)))
  {
  }

  /** A transition to anything but a waiting status leaves no run newly claimable. */
  ghost predicate NotReopened(db: Db, db': Db, r: nat)
    requires r < |db.runs|
  {
    r < |db'.runs| && (Unclaimed(db'.runs[r].status) ==> Unclaimed(db.runs[r].status))
  }

  ghost predicate NoNewLive(db: Db, db': Db, r: nat) {
    forall a :: LiveAt(db', r, a) ==> LiveAt(db, r, a)
  }

  lemma SubmitFrames(db: Db, c: Catalog, submission: Submission, r: nat)
    requires r < |db.runs|
    ensures var db' := After(db, SubmitRun(db, c, submission));
            Frames(db, db') && NotReopened(db, db', r) && NoNewLive(db, db', r)
  {
  }

  lemma RequestOpensNothing(config: Config, s: State, action: Action, r: nat)
    requires config.Valid() && r < |s.db.runs|
    requires action.Submit? || action.Cancel? || action.FailQueued? || action.Beat? || action.ListCancellation? ||
             (action.OperatorRetry? && action.run != r)
    ensures var db' := Step(config, s, action).db;
            Frames(s.db, db') && NotReopened(s.db, db', r) && NoNewLive(s.db, db', r)
  {
    match action
    case Cancel(q) => MoverFrames(s.db, q, CancelRequested);
    case OperatorRetry(q) => RetryFrames(s.db, q);
    case Submit(c, submission) => SubmitFrames(s.db, c, submission, r);
    case _ =>
  }

  /** Requests and other events that move no standing actor. */
  lemma RequestKeepsExclusive(config: Config, s: State, action: Action, r: nat, s': State)
    requires config.Valid() && Exclusive(s, r) && s' == Step(config, s, action) && Placed(s')
    requires action.Submit? || action.Cancel? || action.FailQueued? || action.Beat? || action.ListCancellation? ||
             (action.OperatorRetry? && action.run != r)
    ensures Exclusive(s', r)
  {
    RequestOpensNothing(config, s, action, r);
    forall t | Entitled(s', r, t) ensures Entitled(s, r, t) {
      if t.ByDuty? { SameActorSameTitle(s, s', t.actor, r); }
    }
    TitlesPersist(s, s', r);
  }

  lemma ClaimKeepsExclusive(config: Config, s: State, q: nat, worker: string, now: int, lease: int, r: nat, s': State)
    requires config.Valid() && Exclusive(s, r) && s' == DoClaim(config, s, q, worker, now, lease) && Placed(s')
    ensures Exclusive(s', r)
  {
    assert Frames(s.db, s'.db);
    var n := |s.db.attempts|;
    forall t | Entitled(s', r, t) && t != ByAttempt(n) ensures Entitled(s, r, t) {
      if t.ByDuty? { SameActorSameTitle(s, s', t.actor, r); }
    }
    if s' != s && q == r {
      assert Unclaimed(s.db.runs[r].status);
    } else {
      assert !LiveAt(s'.db, r, n);
      TitlesPersist(s, s', r);
    }
  }

  /** A reclaimer takes over the title of the attempt it marks. */
  lemma ReclaimKeepsExclusive(s: State, a: nat, reference: int, gone: bool, r: nat, s': State)
    requires Exclusive(s, r) && s' == DoReclaim(s, a, reference, gone) && Placed(s')
    ensures Exclusive(s', r)
  {
    if s' != s {
      assert Frames(s.db, s'.db);
      var n := |s.actors|;
      forall t | Entitled(s', r, t)
        ensures if t == ByDuty(n) then Entitled(s, r, ByAttempt(a)) else Entitled(s, r, t) && t != ByAttempt(a)
      {
        if t.ByDuty? && t.actor < n { SameActorSameTitle(s, s', t.actor, r); }
      }
      TitlesPass(s, s', r, ByAttempt(a), ByDuty(n));
    }
  }

  /** A worker that finishes takes over the title of its attempt. */
  lemma FinishKeepsExclusive(s: State, k: nat, result: Result, r: nat, s': State)
    requires Exclusive(s, r) && s' == DoFinish(s, k, result) && Placed(s')
    ensures Exclusive(s', r)
  {
    if At(s, k).Executing? && result.Valid() {
      assert Frames(s.db, s'.db);
      var a := At(s, k).attempt;
      if !FinishAttempt(s.db, a, AttemptStatusOf(result.status), result.failure).Committed? {
        LeaverKeepsExclusive(s, k, r, s');
      } else {
        forall t | Entitled(s', r, t)
          ensures if t == ByDuty(k) then Entitled(s, r, ByAttempt(a)) else Entitled(s, r, t) && t != ByAttempt(a)
        {
          if t.ByDuty? && t.actor != k { SameActorSameTitle(s, s', t.actor, r); }
        }
        TitlesPass(s, s', r, ByAttempt(a), ByDuty(k));
      }
    }
  }

  /** An actor moves on without gaining a title, and reopens nothing. */
  lemma LeaverKeepsExclusive(s: State, k: nat, r: nat, s': State)
    requires Exclusive(s, r) && Placed(s') && Frames(s.db, s'.db)
    requires k < |s.actors| == |s'.actors| && s'.actors == s.actors[k := s'.actors[k]]
    requires NotReopened(s.db, s'.db, r) && NoNewLive(s.db, s'.db, r)
    requires CanRequeue(s', k, r) ==> CanRequeue(s, k, r)
    ensures Exclusive(s', r)
  {
    forall t | Entitled(s', r, t) ensures Entitled(s, r, t) {
      if t.ByDuty? && t.actor != k { SameActorSameTitle(s, s', t.actor, r); }
    }
    TitlesPersist(s, s', r);
  }

  /** An actor requeues a run and is done. */
  lemma RequeuerKeepsExclusive(s: State, k: nat, q: nat, r: nat, s': State)
    requires Exclusive(s, r) && k < |s.actors| && CanRequeue(s, k, q) && Placed(s')
    requires ScheduleRetry(s.db, q).Committed? && s' == Move(s.(db := ScheduleRetry(s.db, q).db), k, Done)
    ensures Exclusive(s', r)
  {
    RequeueFrames(s.db, q);
    if q != r {
      LeaverKeepsExclusive(s, k, r, s');
    } else {
      forall t | Entitled(s', r, t) ensures Entitled(s, r, t) {
        if t.ByDuty? && t.actor != k { SameActorSameTitle(s, s', t.actor, r); }
      }
      TitleSpent(s, s', r, k);
    }
  }

  lemma SettleKeepsExclusive(s: State, k: nat, r: nat, s': State)
    requires Exclusive(s, r) && s' == DoSettle(s, k) && Placed(s')
    ensures Exclusive(s', r)
  {
    if At(s, k).Settling? {
      var Settling(a, result) := At(s, k);
      var q := RunOf(s.db, a);
      MoverFrames(s.db, q, result.status);
      RequeueFrames(s.db, q);
      if ShouldRetry(result, s.db.attempts[a].number, s.db.runs[q].task.maxAttempts) && ScheduleRetry(s.db, q).Committed? {
        RequeuerKeepsExclusive(s, k, q, r, s');
      } else {
        LeaverKeepsExclusive(s, k, r, s');
      }
    }
  }

  lemma ResumeKeepsExclusive(s: State, k: nat, r: nat, s': State)
    requires Exclusive(s, r) && s' == DoResume(s, k) && Placed(s')
    ensures Exclusive(s', r)
  {
    if At(s, k).Resuming? {
      var q := RunOf(s.db, At(s, k).attempt);
      if ScheduleRetry(s.db, q).Committed? {
        RequeuerKeepsExclusive(s, k, q, r, s');
      } else {
        LeaverKeepsExclusive(s, k, r, s');
      }
    }
  }

  lemma MoverKeepsExclusive(s: State, k: nat, q: nat, target: RunStatus, r: nat, s': State)
    requires Exclusive(s, r) && k < |s.actors| && !Unclaimed(target) && s' == MoveRun(s, k, q, target) && Placed(s')
    ensures Exclusive(s', r)
  {
    MoverFrames(s.db, q, target);
    LeaverKeepsExclusive(s, k, r, s');
  }

  /** Actors that end an attempt for good, or only think. */
  lemma ThinkerKeepsExclusive(config: Config, s: State, action: Action, r: nat, s': State)
    requires config.Valid() && Exclusive(s, r) && s' == Step(config, s, action) && Placed(s')
    requires action.Fault? || action.FailAttempt? || action.FailCheck? || action.Weigh? || action.Crash?
    ensures Exclusive(s', r)
  {
    var k := action.actor;
    if k < |s.actors| { LeaverKeepsExclusive(s, k, r, s'); }
  }

  lemma StepKeepsExclusive(config: Config, s: State, action: Action, r: nat, s': State)
    requires config.Valid() && Exclusive(s, r) && s' == Step(config, s, action) && Placed(s')
    requires action != OperatorRetry(r)
    ensures Exclusive(s', r)
  {
    match action
    case ClaimRun(q, worker, now, lease) => ClaimKeepsExclusive(config, s, q, worker, now, lease, r, s');
    case Reclaim(a, reference, gone) => ReclaimKeepsExclusive(s, a, reference, gone, r, s');
    case Finish(k, result) => FinishKeepsExclusive(s, k, result, r, s');
    case Settle(k) => SettleKeepsExclusive(s, k, r, s');
    case Resume(k) => ResumeKeepsExclusive(s, k, r, s');
    case FailRun(k) =>
      if At(s, k).FailSettling? { MoverKeepsExclusive(s, k, RunOf(s.db, At(s, k).attempt), RunStatus.Failed, r, s'); }
    case Lose(k) => if At(s, k).Losing? { MoverKeepsExclusive(s, k, RunOf(s.db, At(s, k).attempt), RunStatus.Lost, r, s'); }
    case SettleCancellation(k) => if At(s, k).Cancelling? { MoverKeepsExclusive(s, k, At(s, k).run, Cancelled, r, s'); }
    case Fault(_) => ThinkerKeepsExclusive(config, s, action, r, s');
    case FailAttempt(_) => ThinkerKeepsExclusive(config, s, action, r, s');
    case FailCheck(_) => ThinkerKeepsExclusive(config, s, action, r, s');
    case Weigh(_) => ThinkerKeepsExclusive(config, s, action, r, s');
    case Crash(_) => ThinkerKeepsExclusive(config, s, action, r, s');
    case _ => RequestKeepsExclusive(config, s, action, r, s');
  }

  lemma {:induction false} RunKeepsExclusive(config: Config, s: State, actions: seq<Action>, r: nat)
    requires config.Valid() && Exclusive(s, r) && NeverRetried(actions, r)
    ensures Exclusive(Run(config, s, actions), r)
  {
    if actions != [] {
      var before, last := actions[..|actions| - 1], actions[|actions| - 1];
      RunKeepsExclusive(config, s, before, r);
      var mid := Run(config, s, before);
      StepKeepsPlaced(config, mid, last);
      StepKeepsExclusive(config, mid, last, r, Step(config, mid, last));
    }
  }
}
