/** The promises of the run lifecycle, over every reachable state and every
    continuation of it. */
module RunTheorems {
  import opened Contracts
  import opened Admission
  import opened Tables
  import opened Transactions
  import opened TableInvariant
  import opened RunProtocol
  import opened RunSafety
  import opened MirroredRows
  import opened AttemptNumbering

  // ---- one holder per run ------------------------------------------------------

  /** What entitles somebody to finish a run: a running attempt, or the unspent
      duty of the actor that ended one. */
  datatype Token = Live(attempt: nat) | Duty(actor: nat)

  ghost function Holders(s: State, r: nat): set<Token> {
    (set a | 0 <= a < |s.db.attempts| && LiveAt(s.db, r, a) :: Live(a)) +
    (set k | 0 <= k < |s.actors| && Owes(s.actors[k]) && RunOf(s.db, s.actors[k].attempt) == r :: Duty(k))
  }

  lemma HolderIsUnique(config: Config, s: State, r: nat, t: Token, u: Token)
    requires config.Valid() && Safe(config, s)
    requires t in Holders(s, r) && u in Holders(s, r)
    ensures t == u
    ensures r < |s.db.runs| && !Unclaimed(s.db.runs[r].status)
  {
    forall v | v in {t, u} && v.Duty? ensures PcOk(s.db, s.actors[v.actor]) { }
    if t.Duty? { DutyMeansIdle(config, s, t.actor); }
    if u.Duty? { DutyMeansIdle(config, s, u.actor); }
    if t.Live? { assert LiveAt(s.db, r, t.attempt) && HasLive(s.db, r); }
    if u.Live? { assert LiveAt(s.db, r, u.attempt) && HasLive(s.db, r); }
    if t.Live? && u.Live? { LatestIsUnique(s.db, t.attempt, u.attempt); }
  }

  lemma AtMostOneHolder(config: Config, s: State, r: nat)
    requires config.Valid() && Safe(config, s)
    ensures |Holders(s, r)| <= 1
    ensures r < |s.db.runs| && Unclaimed(s.db.runs[r].status) ==> Holders(s, r) == {}
  {
    if t :| t in Holders(s, r) {
      forall u | u in Holders(s, r) ensures u == t { HolderIsUnique(config, s, r, t, u); }
      HolderIsUnique(config, s, r, t, t);
      assert Holders(s, r) == {t};
    }
  }

  /** In every reachable state, running attempts and unspent settle duties of a
      run together never exceed one, and a run waiting to be claimed has neither. */
  lemma SingleHolder(config: Config, actions: seq<Action>, r: nat)
    requires config.Valid() && Unassisted(actions)
    ensures var s := Run(config, START, actions);
            && |Holders(s, r)| <= 1
            && (r < |s.db.runs| && Unclaimed(s.db.runs[r].status) ==> Holders(s, r) == {})
  {
    ReachableIsSafe(config, actions);
    AtMostOneHolder(config, Run(config, START, actions), r);
  }

  // ---- attempt numbers -----------------------------------------------------------

  /** The attempts of run `r` are numbered exactly 1..n, n within the budget; a running
      attempt is number n. */
  ghost predicate NumberedWithinBudget(db: Db, r: nat)
    requires r < |db.runs|
  {
    && NumberedExactly(db, r) && Made(db, r) <= db.runs[r].task.maxAttempts
    && (forall a :: 0 <= a < |db.attempts| && db.attempts[a].stage == r && db.attempts[a].status.Running? ==>
          db.attempts[a].number == Made(db, r))
  }

  lemma ConsistentNumbers(config: Config, db: Db, r: nat)
    requires config.Valid() && Consistent(config, db) && r < |db.runs|
    ensures NumberedWithinBudget(db, r)
  {
    NumbersAreExact(db, r);
  }

  /** Without operator retries the budget holds, counting failed, lost and resumed
      attempts alike, the running attempt is the last, and no attempt ever follows a
      succeeded one. */
  lemma AttemptNumbers(config: Config, actions: seq<Action>, r: nat)
    requires config.Valid() && Unassisted(actions)
    ensures var db := Run(config, START, actions).db;
            r < |db.runs| ==>
              && NumberedWithinBudget(db, r)
              && (forall a :: 0 <= a < |db.attempts| && db.attempts[a].stage == r && db.attempts[a].status.Succeeded? ==>
                    db.attempts[a].number == Made(db, r))
  {
    ReachableIsSafe(config, actions);
    var db := Run(config, START, actions).db;
    if r < |db.runs| { ConsistentNumbers(config, db, r); }
  }

  // ---- closed runs, mirrored rows ----------------------------------------

  /** A run that is succeeded, timed out, lost or cancelled has no running attempt;
      a succeeded run's latest attempt is the succeeded one; run and stage agree. */
  lemma ClosedRunsAreQuiet(config: Config, actions: seq<Action>, r: nat)
    requires config.Valid() && Unassisted(actions)
    ensures var db := Run(config, START, actions).db;
            r < |db.runs| ==>
              && r < |db.stages| && db.stages[r].status == db.runs[r].status
              && (Closed(db.runs[r].status) ==> !HasLive(db, r))
              && (db.runs[r].status.Succeeded? ==>
                    exists a: nat :: IsLatest(db, a) && db.attempts[a].stage == r && db.attempts[a].status.Succeeded?)
  {
    ReachableIsSafe(config, actions);
    var db := Run(config, START, actions).db;
    if r < |db.runs| && db.runs[r].status.Succeeded? {
      var a :| 0 <= a < |db.attempts| && db.attempts[a].stage == r && db.attempts[a].status.Succeeded?;
      assert IsLatest(db, a);
    }
  }

  // ---- what a run can still become ---------------------------------------------------

  /** How one step may treat run `r`. */
  ghost predicate Tracks(before: Db, after: Db, r: nat)
    requires r < |before.runs|
  {
    && r < |after.runs| && after.runs[r].task == before.runs[r].task
    && (Terminal(before.runs[r].status) ==> after.runs[r].status == before.runs[r].status)
    && (before.runs[r].status.CancelRequested? ==>
          var st := after.runs[r].status; st.CancelRequested? || st.Cancelled? || st.Failed? || st.Lost?)
    && (Stopped(before.runs[r].status) ==> Made(after, r) == Made(before, r))
  }

  lemma TracksBoth(db: Db, q: nat, status: RunStatus, r: nat)
    requires Shaped(db) && Mirrored(db) && r < |db.runs| && q < |db.runs|
    requires db.runs[q].status == status || RunTransitionAllowed(db.runs[q].status, status)
    ensures Tracks(db, SetBoth(db, q, status), r)
  {
    SameTable(db, SetBoth(db, q, status));
  }

  lemma TracksTransition(db: Db, q: nat, target: RunStatus, r: nat)
    requires Shaped(db) && Mirrored(db) && r < |db.runs|
    ensures Tracks(db, After(db, TransitionRun(db, q, target)), r)
  {
    TransitionMovesBoth(db, q, target);
    if TransitionRun(db, q, target).Committed? { TracksBoth(db, q, target, r); }
  }

  lemma TracksRequeue(db: Db, q: nat, r: nat)
    requires Shaped(db) && Mirrored(db) && r < |db.runs|
    ensures Tracks(db, After(db, ScheduleRetry(db, q)), r)
  {
    if ScheduleRetry(db, q).Committed? {
      assert ScheduleRetry(db, q).db == SetBoth(db, q, RetryWait);
      TracksBoth(db, q, RetryWait, r);
    }
  }

  lemma TracksFinish(db: Db, a: nat, status: AttemptStatus, failure: Option<bool>, r: nat)
    requires r < |db.runs|
    ensures Tracks(db, After(db, FinishAttempt(db, a, status, failure)), r)
    ensures a < |db.attempts| ==> Tracks(db, EndAttempt(db, a, status, failure), r)
  {
    if a < |db.attempts| { RowUpdateKeepsCounts(db, EndAttempt(db, a, status, failure), a); }
  }

  lemma StepTracks(config: Config, s: State, action: Action, r: nat)
    requires config.Valid() && Safe(config, s) && !action.OperatorRetry? && r < |s.db.runs|
    ensures Tracks(s.db, Step(config, s, action).db, r)
  {
    match action
    case ClaimRun(q, worker, now, lease) => TracksClaim(config, s, q, worker, now, lease, r);
    case Submit(_, _) => TracksRequest(config, s, action, r);
    case Cancel(_) => TracksRequest(config, s, action, r);
    case FailQueued(_) => TracksRequest(config, s, action, r);
    case Beat(_, _, _, _) => TracksRequest(config, s, action, r);
    case Reclaim(_, _, _) => TracksRequest(config, s, action, r);
    case _ => TracksActor(config, s, action, r);
  }

  lemma TracksRequest(config: Config, s: State, action: Action, r: nat)
    requires config.Valid() && Shaped(s.db) && Mirrored(s.db) && r < |s.db.runs|
    requires action.Submit? || action.Cancel? || action.FailQueued? || action.Beat? || action.Reclaim?
    ensures Tracks(s.db, Step(config, s, action).db, r)
  {
    match action
    case Submit(c, submission) => SameTable(s.db, After(s.db, SubmitRun(s.db, c, submission)));
    case Cancel(q) => TracksTransition(s.db, q, CancelRequested, r);
    case FailQueued(q) => if q < |s.db.runs| && Unclaimed(s.db.runs[q].status) { TracksBoth(s.db, q, RunStatus.Failed, r); }
    case Beat(a, worker, now, lease) =>
      if a < |s.db.attempts| { RowUpdateKeepsCounts(s.db, After(s.db, Heartbeat(s.db, a, worker, now, lease)), a); }
    case Reclaim(a, reference, gone) => TracksFinish(s.db, a, AttemptStatus.Lost, Some(true), r);
  }

  lemma TracksActor(config: Config, s: State, action: Action, r: nat)
    requires config.Valid() && Shaped(s.db) && Mirrored(s.db) && r < |s.db.runs|
    requires !action.Submit? && !action.Cancel? && !action.FailQueued? && !action.Beat? && !action.Reclaim?
    requires !action.ClaimRun? && !action.OperatorRetry?
    ensures Tracks(s.db, Step(config, s, action).db, r)
  {
    match action
    case Finish(k, result) => TracksFinish(s.db, AttemptAt(s, k), AttemptStatusOf(result.status), result.failure, r);
    case FailAttempt(k) => TracksFinish(s.db, AttemptAt(s, k), AttemptStatus.Failed, Some(false), r);
    case _ => TracksMover(config, s, action, r);
  }

  /** The actors that move runs, or only themselves. */
  lemma TracksMover(config: Config, s: State, action: Action, r: nat)
    requires config.Valid() && Shaped(s.db) && Mirrored(s.db) && r < |s.db.runs|
    requires !action.Submit? && !action.Cancel? && !action.FailQueued? && !action.Beat? && !action.Reclaim?
    requires !action.ClaimRun? && !action.OperatorRetry? && !action.Finish? && !action.FailAttempt?
    ensures Tracks(s.db, Step(config, s, action).db, r)
  {
    match action
    case Settle(k) => TracksSettle(s, k, r);
    case FailRun(k) => TracksTransition(s.db, RunOf(s.db, AttemptAt(s, k)), RunStatus.Failed, r);
    case Resume(k) => TracksRequeue(s.db, RunOf(s.db, AttemptAt(s, k)), r);
    case Lose(k) => TracksTransition(s.db, RunOf(s.db, AttemptAt(s, k)), RunStatus.Lost, r);
    case SettleCancellation(k) => if At(s, k).Cancelling? { TracksTransition(s.db, At(s, k).run, Cancelled, r); }
    case _ =>
  }

  ghost function AttemptAt(s: State, k: nat): nat {
    var pc := At(s, k);
    if pc.Done? || pc.Cancelling? then 0 else pc.attempt
  }

  lemma TracksSettle(s: State, k: nat, r: nat)
    requires Shaped(s.db) && Mirrored(s.db) && r < |s.db.runs|
    ensures At(s, k).Settling? ==> Tracks(s.db, After(s.db, SettleRun(s.db, At(s, k).attempt, At(s, k).result)), r)
  {
    if At(s, k).Settling? {
      var Settling(a, result) := At(s, k);
      TracksRequeue(s.db, RunOf(s.db, a), r);
      TracksTransition(s.db, RunOf(s.db, a), result.status, r);
    }
  }

  lemma TracksClaim(config: Config, s: State, q: nat, worker: string, now: int, lease: int, r: nat)
    requires config.Valid() && Safe(config, s) && r < |s.db.runs|
    ensures Tracks(s.db, Step(config, s, ClaimRun(q, worker, now, lease)).db, r)
  {
    StartEffect(config, s.db, q, worker, now, lease);
    if 0 < lease && Claimable(config, s.db, q) { ClaimedCounts(config, s.db, q, worker, now + lease); }
  }

  lemma {:induction false} RunStaysSafe(config: Config, s: State, actions: seq<Action>)
    requires config.Valid() && Safe(config, s) && Unassisted(actions)
    ensures Safe(config, Run(config, s, actions))
  {
    if actions != [] {
      var before := actions[..|actions| - 1];
      RunStaysSafe(config, s, before);
      StepKeepsSafe(config, Run(config, s, before), actions[|actions| - 1]);
    }
  }

  /** Terminal statuses are final, whatever happens afterwards.  A recorded cancel
      request can only become cancelled, failed or lost, and from it on no
      attempt of that run ever starts. */
  lemma {:induction false} StoppedRunsStayStopped(config: Config, s: State, actions: seq<Action>, r: nat)
    requires config.Valid() && Safe(config, s) && Unassisted(actions) && r < |s.db.runs|
    ensures Tracks(s.db, Run(config, s, actions).db, r)
  {
    if actions != [] {
      var before := actions[..|actions| - 1];
      StoppedRunsStayStopped(config, s, before, r);
      RunStaysSafe(config, s, before);
      StepTracks(config, Run(config, s, before), actions[|actions| - 1], r);
    }
  }

  // ---- nobody is left behind -----------------------------------------------------------

  ghost predicate Owed(s: State, r: nat) {
    exists k :: 0 <= k < |s.actors| && Owes(s.actors[k]) && RunOf(s.db, s.actors[k].attempt) == r
  }

  /** A run that says "running" has somebody who will move it on. */
  ghost predicate Attended(s: State, r: nat) {
    r < |s.db.runs| && s.db.runs[r].status.Running? ==> HasLive(s.db, r) || Owed(s, r)
  }

  /** Steps of actors other than `k`, or of nobody, leave `k`'s duty in place. */
  lemma DutyPersists(s: State, s': State, r: nat, k: nat)
    requires k < |s.actors| && k < |s'.actors| && s'.actors[k] == s.actors[k]
    requires Owes(s.actors[k]) && RunOf(s.db, s.actors[k].attempt) == r && s.actors[k].attempt < |s.db.attempts|
    requires |s.db.attempts| <= |s'.db.attempts|
    requires forall a :: 0 <= a < |s.db.attempts| ==> s'.db.attempts[a].stage == s.db.attempts[a].stage
    ensures Owed(s', r)
  {
  }

  /** The tables may move without touching any actor or ending any attempt. */
  lemma QuietStepAttends(s: State, s': State, r: nat)
    requires |s.actors| <= |s'.actors| && s'.actors[..|s.actors|] == s.actors
    requires |s.db.attempts| <= |s'.db.attempts|
    requires forall a :: 0 <= a < |s.db.attempts| ==>
               s'.db.attempts[a].stage == s.db.attempts[a].stage && s'.db.attempts[a].status == s.db.attempts[a].status
    requires forall k :: 0 <= k < |s.actors| && Owes(s.actors[k]) ==> s.actors[k].attempt < |s.db.attempts|
    requires HasLive(s.db, r) || Owed(s, r)
    ensures HasLive(s'.db, r) || Owed(s', r)
  {
    if HasLive(s.db, r) {
      var a :| 0 <= a < |s.db.attempts| && LiveAt(s.db, r, a);
      assert LiveAt(s'.db, r, a);
    } else {
      var k :| 0 <= k < |s.actors| && Owes(s.actors[k]) && RunOf(s.db, s.actors[k].attempt) == r;
      assert s'.actors[k] == s.actors[k];
      DutyPersists(s, s', r, k);
    }
  }

  /** An actor moves on: either it still owes the same run, or it owed nothing, or
      the run it owed is no longer running. */
  lemma ActorStepAttends(s: State, s': State, k: nat, r: nat)
    requires k < |s.actors| == |s'.actors| && s'.actors == s.actors[k := s'.actors[k]]
    requires |s.db.attempts| == |s'.db.attempts|
    requires forall a :: 0 <= a < |s.db.attempts| ==> s'.db.attempts[a].stage == s.db.attempts[a].stage
    requires forall a :: 0 <= a < |s.db.attempts| ==>
               (s'.db.attempts[a].status == s.db.attempts[a].status ||
                (Owes(s'.actors[k]) && s'.actors[k].attempt == a))
    requires forall l :: 0 <= l < |s.actors| && Owes(s.actors[l]) ==> s.actors[l].attempt < |s.db.attempts|
    requires Owes(s.actors[k]) && RunOf(s.db, s.actors[k].attempt) == r ==>
               (Owes(s'.actors[k]) && s'.actors[k].attempt == s.actors[k].attempt) ||
               !(r < |s'.db.runs| && s'.db.runs[r].status.Running?)
    requires HasLive(s.db, r) || Owed(s, r)
    ensures Attended(s', r)
  {
    if HasLive(s.db, r) {
      var a :| 0 <= a < |s.db.attempts| && LiveAt(s.db, r, a);
      if s'.db.attempts[a].status.Running? {
        assert LiveAt(s'.db, r, a);
      } else {
        assert Owes(s'.actors[k]) && RunOf(s'.db, s'.actors[k].attempt) == r;
        assert Owed(s', r);
      }
    } else {
      var l :| 0 <= l < |s.actors| && Owes(s.actors[l]) && RunOf(s.db, s.actors[l].attempt) == r;
      if l != k {
        DutyPersists(s, s', r, l);
      } else if Owes(s'.actors[k]) && s'.actors[k].attempt == s.actors[k].attempt {
        assert RunOf(s'.db, s'.actors[k].attempt) == r;
        assert Owed(s', r);
      }
    }
  }

  /** Requests, leases and listings: no run becomes unattended. */
  lemma RequestAttends(config: Config, s: State, action: Action, r: nat)
    requires config.Valid() && Placed(s) && Attended(s, r)
    requires action.Submit? || action.Cancel? || action.FailQueued? || action.Beat? || action.ListCancellation?
             || action.OperatorRetry?
    ensures Attended(Step(config, s, action), r)
  {
    var s' := Step(config, s, action);
    if r < |s.db.runs| && s.db.runs[r].status.Running? {
      QuietStepAttends(s, s', r);
    } else if action.Cancel? {
      TransitionMovesBoth(s.db, action.run, CancelRequested);
    }
  }

  lemma ClaimAttends(config: Config, s: State, q: nat, worker: string, now: int, lease: int, r: nat)
    requires config.Valid() && Placed(s) && Attended(s, r)
    ensures Attended(DoClaim(config, s, q, worker, now, lease), r)
  {
    var s' := DoClaim(config, s, q, worker, now, lease);
    if |s.db.attempts| < |s'.db.attempts| {
      if r == q {
        assert LiveAt(s'.db, r, |s.db.attempts|);
      } else if r < |s.db.runs| && s.db.runs[r].status.Running? {
        QuietStepAttends(s, s', r);
      }
    }
  }

  lemma ReclaimAttends(s: State, a: nat, reference: int, gone: bool, r: nat)
    requires Placed(s) && Attended(s, r)
    ensures Attended(DoReclaim(s, a, reference, gone), r)
  {
    var s' := DoReclaim(s, a, reference, gone);
    if gone && MarkLost(s.db, a, reference).Committed? && r < |s.db.runs| && s.db.runs[r].status.Running? {
      var n := |s.actors|;
      if s.db.attempts[a].stage == r {
        assert Owes(s'.actors[n]) && RunOf(s'.db, s'.actors[n].attempt) == r;
        assert Owed(s', r);
      } else if HasLive(s.db, r) {
        var b :| 0 <= b < |s.db.attempts| && LiveAt(s.db, r, b);
        assert LiveAt(s'.db, r, b);
      } else {
        var k :| 0 <= k < |s.actors| && Owes(s.actors[k]) && RunOf(s.db, s.actors[k].attempt) == r;
        DutyPersists(s, s', r, k);
      }
    }
  }

  /** Whoever ends an attempt, or only thinks about it, keeps or takes the duty. */
  lemma EnderAttends(s: State, k: nat, result: Result, r: nat)
    requires Placed(s) && Attended(s, r)
    ensures Attended(DoFinish(s, k, result), r)
    ensures Attended(DoFailAttempt(s, k), r)
  {
    if k < |s.actors| && r < |s.db.runs| && s.db.runs[r].status.Running? {
      if s.actors[k].Executing? && result.Valid() { ActorStepAttends(s, DoFinish(s, k, result), k, r); }
      if s.actors[k].Failing? { ActorStepAttends(s, DoFailAttempt(s, k), k, r); }
    }
  }

  lemma ThinkerAttends(s: State, k: nat, r: nat)
    requires Placed(s) && Attended(s, r)
    ensures Attended(DoFault(s, k), r)
    ensures Attended(DoWeigh(s, k), r)
    ensures Attended(DoFailCheck(s, k), r)
  {
    if k < |s.actors| && r < |s.db.runs| && s.db.runs[r].status.Running? {
      if s.actors[k].Executing? || s.actors[k].Settling? { ActorStepAttends(s, DoFault(s, k), k, r); }
      if s.actors[k].Reclaimed? { ActorStepAttends(s, DoWeigh(s, k), k, r); }
      if s.actors[k].FailChecking? { ActorStepAttends(s, DoFailCheck(s, k), k, r); }
    }
  }

  /** The steps that spend a duty leave its run in another status than running. */
  lemma SpendByTransition(s: State, k: nat, q: nat, target: RunStatus, r: nat)
    requires Placed(s) && Attended(s, r) && k < |s.actors|
    requires !target.Running?
    requires Owes(s.actors[k]) ==> RunOf(s.db, s.actors[k].attempt) == q && (target.Failed? || target.Lost?)
    ensures Attended(MoveRun(s, k, q, target), r)
  {
    TransitionMovesBoth(s.db, q, target);
    if r < |s.db.runs| && s.db.runs[r].status.Running? {
      ActorStepAttends(s, MoveRun(s, k, q, target), k, r);
    }
  }

  lemma SpendByRequeue(s: State, k: nat, r: nat)
    requires Placed(s) && Attended(s, r) && k < |s.actors| && Owes(s.actors[k])
    ensures var t := ScheduleRetry(s.db, RunOf(s.db, s.actors[k].attempt));
            t.Committed? ==> Attended(Move(s.(db := t.db), k, Done), r)
  {
    var t := ScheduleRetry(s.db, RunOf(s.db, s.actors[k].attempt));
    if t.Committed? && r < |s.db.runs| && s.db.runs[r].status.Running? {
      ActorStepAttends(s, Move(s.(db := t.db), k, Done), k, r);
    }
  }

  lemma SettleAttends(s: State, k: nat, r: nat)
    requires Placed(s) && Attended(s, r)
    ensures Attended(DoSettle(s, k), r)
  {
    if k < |s.actors| && s.actors[k].Settling? {
      var Settling(a, result) := s.actors[k];
      var q := RunOf(s.db, a);
      if ShouldRetry(result, s.db.attempts[a].number, s.db.runs[q].task.maxAttempts) {
        SpendByRequeue(s, k, r);
      } else {
        TransitionMovesBoth(s.db, q, result.status);
      }
      if r < |s.db.runs| && s.db.runs[r].status.Running? { ActorStepAttends(s, DoSettle(s, k), k, r); }
    }
  }

  lemma ResumeAttends(s: State, k: nat, r: nat)
    requires Placed(s) && Attended(s, r)
    ensures Attended(DoResume(s, k), r)
  {
    if k < |s.actors| && s.actors[k].Resuming? {
      SpendByRequeue(s, k, r);
      if ScheduleRetry(s.db, RunOf(s.db, s.actors[k].attempt)).Refused? && r < |s.db.runs| && s.db.runs[r].status.Running? {
        ActorStepAttends(s, DoResume(s, k), k, r);
      }
    }
  }

  lemma LeaverAttends(s: State, k: nat, r: nat)
    requires Placed(s) && Attended(s, r)
    ensures Attended(DoFailRun(s, k), r)
    ensures Attended(DoLose(s, k), r)
    ensures Attended(DoSettleCancellation(s, k), r)
  {
    if k < |s.actors| {
      var pc := s.actors[k];
      if pc.FailSettling? { SpendByTransition(s, k, RunOf(s.db, pc.attempt), RunStatus.Failed, r); }
      if pc.Losing? { SpendByTransition(s, k, RunOf(s.db, pc.attempt), RunStatus.Lost, r); }
      if pc.Cancelling? { SpendByTransition(s, k, pc.run, Cancelled, r); }
    }
  }

  lemma StepAttends(config: Config, s: State, action: Action, r: nat)
    requires config.Valid() && Placed(s) && Attended(s, r) && !action.Crash?
    ensures Attended(Step(config, s, action), r)
  {
    match action
    case ClaimRun(q, worker, now, lease) => ClaimAttends(config, s, q, worker, now, lease, r);
    case Reclaim(a, reference, gone) => ReclaimAttends(s, a, reference, gone, r);
    case Finish(k, result) => EnderAttends(s, k, result, r);
    case FailAttempt(k) => EnderAttends(s, k, Result(RunStatus.Failed, None), r);
    case Fault(k) => ThinkerAttends(s, k, r);
    case Weigh(k) => ThinkerAttends(s, k, r);
    case FailCheck(k) => ThinkerAttends(s, k, r);
    case Settle(k) => SettleAttends(s, k, r);
    case Resume(k) => ResumeAttends(s, k, r);
    case FailRun(k) => LeaverAttends(s, k, r);
    case Lose(k) => LeaverAttends(s, k, r);
    case SettleCancellation(k) => LeaverAttends(s, k, r);
    case _ => RequestAttends(config, s, action, r);
  }

  /** On crash-free runs, operator retries included, no run is ever stranded: while
      its status is running, either an attempt runs or some actor still owes the
      settlement, also when the settling transition itself was refused. */
  lemma {:induction false} NoRunIsStranded(config: Config, actions: seq<Action>, r: nat)
    requires config.Valid() && CrashFree(actions)
    ensures Attended(Run(config, START, actions), r)
  {
    if actions != [] {
      var before := actions[..|actions| - 1];
      NoRunIsStranded(config, before, r);
      ReachableIsPlaced(config, before);
      StepAttends(config, Run(config, START, before), actions[|actions| - 1], r);
    }
  }
}
