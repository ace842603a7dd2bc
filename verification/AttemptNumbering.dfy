/** Numbers and the retry budget, over every history.  Attempts of a run are numbered
    1, 2, ... whatever the actors do; the budget is kept by every step but one kind. */
module AttemptNumbering {
  import opened Contracts
  import opened Admission
  import opened Tables
  import opened Transactions
  import opened TableInvariant
  import opened RunProtocol
  import opened MirroredRows

  // ---- numbers ---------------------------------------------------------------------

  /** Only a claim touches stages or numbers of attempts. */
  ghost predicate SameNumbers(db: Db, db': Db) {
    && |db'.attempts| == |db.attempts|
    && forall a :: 0 <= a < |db.attempts| ==>
         db'.attempts[a].stage == db.attempts[a].stage && db'.attempts[a].number == db.attempts[a].number
  }

  lemma SameNumbersKeep(db: Db, db': Db)
    requires SameNumbers(db, db')
    ensures Numbered(db) ==> Numbered(db')
    ensures forall q: nat :: Made(db', q) == Made(db, q)
  {
    forall q: nat, n: nat | n <= |db.attempts| ensures Count(db'.attempts, q, n) == Count(db.attempts, q, n) {
      CountAgrees(db'.attempts, db.attempts, q, n);
    }
  }

  lemma MoverKeepsNumbers(db: Db, r: nat, target: RunStatus)
    ensures SameNumbers(db, After(db, TransitionRun(db, r, target)))
    ensures SameNumbers(db, After(db, ScheduleRetry(db, r)))
  {
  }

  lemma OthersKeepNumbers(config: Config, s: State, action: Action)
    requires config.Valid() && !action.ClaimRun?
    ensures SameNumbers(s.db, Step(config, s, action).db)
  {
    match action
    case Settle(k) =>
      if At(s, k).Settling? { MoverKeepsNumbers(s.db, RunOf(s.db, At(s, k).attempt), At(s, k).result.status); }
    case _ =>
  }

  /** A claim gives the next number. */
  lemma ClaimNumbers(config: Config, db: Db, r: nat, worker: string, now: int, lease: int, db': Db)
    requires config.Valid() && Numbered(db)
    requires db' == After(db, StartAttempt(db, WorkerClaim(config, db, r, worker, now, lease)))
    ensures Numbered(db')
    ensures db' == db || (forall q: nat :: Made(db', q) == Made(db, q) + (if q == r then 1 else 0))
  {
    if db' != db {
      MaxIsCount(db, r, |db.attempts|);
      AppendCounts(db, db', r);
    }
  }

  lemma {:induction false} ReachableIsNumbered(config: Config, actions: seq<Action>)
    requires config.Valid()
    ensures Numbered(Run(config, START, actions).db)
  {
    if actions != [] {
      ReachableIsNumbered(config, actions[..|actions| - 1]);
      StepKeepsNumbered(config, Run(config, START, actions[..|actions| - 1]), actions[|actions| - 1]);
    }
  }

  lemma StepKeepsNumbered(config: Config, s: State, action: Action)
    requires config.Valid() && Numbered(s.db)
    ensures Numbered(Step(config, s, action).db)
  {
    var db' := Step(config, s, action).db;
    if action.ClaimRun? {
      ClaimNumbers(config, s.db, action.run, action.worker, action.now, action.leaseSeconds, db');
    } else {
      OthersKeepNumbers(config, s, action);
      SameNumbersKeep(s.db, db');
    }
  }

  ghost predicate NumberUsed(db: Db, r: nat, m: nat) {
    exists a :: 0 <= a < |db.attempts| && db.attempts[a].stage == r && db.attempts[a].number == m
  }

  /** The attempts of run `r` are numbered exactly 1..n, in the order they were made. */
  ghost predicate NumberedExactly(db: Db, r: nat) {
    var n := Made(db, r);
    && (forall a :: 0 <= a < |db.attempts| && db.attempts[a].stage == r ==> 1 <= db.attempts[a].number <= n)
    && (forall m :: 1 <= m <= n ==> NumberUsed(db, r, m))
    && (forall a, b :: 0 <= a < b < |db.attempts| && db.attempts[a].stage == db.attempts[b].stage == r ==>
          db.attempts[a].number < db.attempts[b].number)
  }

  /** Every number up to the count was given to some attempt. */
  lemma {:induction false} NumberTaken(db: Db, r: nat, n: nat, m: nat) returns (a: nat)
    requires Numbered(db) && n <= |db.attempts| && 1 <= m <= Count(db.attempts, r, n)
    ensures a < n && db.attempts[a].stage == r && db.attempts[a].number == m
  {
    if m <= Count(db.attempts, r, n - 1) {
      a := NumberTaken(db, r, n - 1, m);
    } else {
      a := n - 1;
    }
  }

  lemma NumbersAreExact(db: Db, r: nat)
    requires Numbered(db)
    ensures NumberedExactly(db, r)
  {
    var n := Made(db, r);
    forall a | 0 <= a < |db.attempts| && db.attempts[a].stage == r ensures 1 <= db.attempts[a].number <= n {
      CountMonotone(db.attempts, r, a + 1, |db.attempts|);
    }
    forall m | 1 <= m <= n ensures NumberUsed(db, r, m) {
      var a := NumberTaken(db, r, |db.attempts|, m);
    }
    forall a, b | 0 <= a < b < |db.attempts| && db.attempts[a].stage == db.attempts[b].stage == r
      ensures db.attempts[a].number < db.attempts[b].number
    {
      LaterIsLarger(db, a, b);
    }
  }

  /** In every history, crashes and operator retries included, the attempts of a run are
      numbered exactly 1..n. */
  lemma NumbersInEveryHistory(config: Config, actions: seq<Action>, r: nat)
    requires config.Valid()
    ensures NumberedExactly(Run(config, START, actions).db, r)
  {
    ReachableIsNumbered(config, actions);
    NumbersAreExact(Run(config, START, actions).db, r);
  }

  // ---- the budget --------------------------------------------------------------------

  /** Within the budget, with room left while the run waits to be claimed. */
  ghost predicate InBudget(db: Db, r: nat) {
    r < |db.runs| ==>
      && Made(db, r) <= db.runs[r].task.maxAttempts
      && (Unclaimed(db.runs[r].status) ==> Made(db, r) < db.runs[r].task.maxAttempts)
  }

  /** A requeue that weighed its room earlier, or by its own attempt's number, while the
      budget has been used up since: the transaction does not ask again. */
  ghost predicate LateRequeue(s: State, action: Action, r: nat) {
    && r < |s.db.runs| && s.db.runs[r].status.Running? && Made(s.db, r) == s.db.runs[r].task.maxAttempts
    && match action
       case Resume(k) => At(s, k).Resuming? && RunOf(s.db, At(s, k).attempt) == r
       case Settle(k) =>
         At(s, k).Settling? && RunOf(s.db, At(s, k).attempt) == r &&
         ShouldRetry(At(s, k).result, s.db.attempts[At(s, k).attempt].number, s.db.runs[r].task.maxAttempts)
       case _ => false
  }

  /** Nothing but a requeue or a retry makes a run claimable, and no step changes a task. */
  ghost predicate OpensNothing(db: Db, db': Db, r: nat) {
    r < |db'.runs| && r < |db.runs| ==>
      && db'.runs[r].task == db.runs[r].task
      && (Unclaimed(db'.runs[r].status) ==> Unclaimed(db.runs[r].status))
  }

  lemma TransitionReopensNothing(db: Db, q: nat, target: RunStatus, r: nat)
    requires !Unclaimed(target)
    ensures OpensNothing(db, After(db, TransitionRun(db, q, target)), r)
    ensures |After(db, TransitionRun(db, q, target)).runs| == |db.runs|
  {
  }

  /** Steps other than claims, submissions, requeues and retries. */
  lemma QuietStepKeepsBudget(db: Db, db': Db, r: nat)
    requires InBudget(db, r) && SameNumbers(db, db') && OpensNothing(db, db', r) && |db'.runs| == |db.runs|
    ensures InBudget(db', r)
  {
    SameNumbersKeep(db, db');
  }

  lemma SubmitKeepsBudget(db: Db, c: Catalog, submission: Submission, r: nat)
    requires Shaped(db) && InBudget(db, r)
    ensures InBudget(After(db, SubmitRun(db, c, submission)), r)
  {
    var db' := After(db, SubmitRun(db, c, submission));
    SameNumbersKeep(db, db');
    if r == |db.runs| { NoneMade(db, r); }
  }

  lemma ClaimKeepsBudget(config: Config, db: Db, q: nat, worker: string, now: int, lease: int, db': Db, r: nat)
    requires config.Valid() && Shaped(db) && Mirrored(db) && Numbered(db) && InBudget(db, r)
    requires db' == After(db, StartAttempt(db, WorkerClaim(config, db, q, worker, now, lease)))
    ensures InBudget(db', r)
  {
    ClaimNumbers(config, db, q, worker, now, lease, db');
  }

  lemma RetryKeepsBudget(db: Db, q: nat, r: nat)
    requires Shaped(db) && Numbered(db) && InBudget(db, r)
    ensures InBudget(After(db, RequestRetry(db, q)), r)
  {
    var db' := After(db, RequestRetry(db, q));
    SameNumbersKeep(db, db');
    if RequestRetry(db, q).Committed? { LatestFindsLast(db, q, |db.attempts|); }
  }

  /** A committed requeue of `q` breaks the budget of `r` exactly when it is late. */
  lemma RequeueBudget(db: Db, q: nat, r: nat)
    requires Shaped(db) && Mirrored(db) && InBudget(db, r)
    ensures var t := ScheduleRetry(db, q);
            && (t.Committed? <==> q < |db.runs| && db.runs[q].status.Running?)
            && (t.Committed? ==>
                  (InBudget(t.db, r) <==> !(q == r && Made(db, r) == db.runs[r].task.maxAttempts)))
  {
    if ScheduleRetry(db, q).Committed? { SameNumbersKeep(db, ScheduleRetry(db, q).db); }
  }

  lemma SettleBudget(config: Config, s: State, k: nat, r: nat)
    requires config.Valid() && Placed(s) && InBudget(s.db, r)
    ensures InBudget(Step(config, s, Settle(k)).db, r) <==> !LateRequeue(s, Settle(k), r)
  {
    if At(s, k).Settling? {
      var Settling(a, result) := At(s, k);
      var q := RunOf(s.db, a);
      RequeueBudget(s.db, q, r);
      if !ShouldRetry(result, s.db.attempts[a].number, s.db.runs[q].task.maxAttempts) {
        TransitionReopensNothing(s.db, q, result.status, r);
        MoverKeepsNumbers(s.db, q, result.status);
        QuietStepKeepsBudget(s.db, After(s.db, TransitionRun(s.db, q, result.status)), r);
      }
    }
  }

  lemma ResumeBudget(config: Config, s: State, k: nat, r: nat)
    requires config.Valid() && Placed(s) && InBudget(s.db, r)
    ensures InBudget(Step(config, s, Resume(k)).db, r) <==> !LateRequeue(s, Resume(k), r)
  {
    if At(s, k).Resuming? { RequeueBudget(s.db, RunOf(s.db, At(s, k).attempt), r); }
  }

  lemma OtherStepReopensNothing(config: Config, s: State, action: Action, r: nat)
    requires config.Valid() && !action.ClaimRun? && !action.Submit? && !action.OperatorRetry?
    requires !action.Resume? && !action.Settle?
    ensures OpensNothing(s.db, Step(config, s, action).db, r) && |Step(config, s, action).db.runs| == |s.db.runs|
  {
    match action
    case Cancel(q) => TransitionReopensNothing(s.db, q, CancelRequested, r);
    case FailRun(k) =>
      if At(s, k).FailSettling? { TransitionReopensNothing(s.db, RunOf(s.db, At(s, k).attempt), RunStatus.Failed, r); }
    case Lose(k) => if At(s, k).Losing? { TransitionReopensNothing(s.db, RunOf(s.db, At(s, k).attempt), RunStatus.Lost, r); }
    case SettleCancellation(k) => if At(s, k).Cancelling? { TransitionReopensNothing(s.db, At(s, k).run, Cancelled, r); }
    case _ =>
  }

  /** The exact condition, in every history: a step takes a run out of its budget if and
      only if it is a late requeue. */
  lemma BudgetIff(config: Config, s: State, action: Action, r: nat)
    requires config.Valid() && Placed(s) && Numbered(s.db) && InBudget(s.db, r)
    ensures InBudget(Step(config, s, action).db, r) <==> !LateRequeue(s, action, r)
  {
    match action
    case Submit(c, submission) => SubmitKeepsBudget(s.db, c, submission, r);
    case ClaimRun(q, worker, now, lease) =>
      ClaimKeepsBudget(config, s.db, q, worker, now, lease, Step(config, s, action).db, r);
    case OperatorRetry(q) => RetryKeepsBudget(s.db, q, r);
    case Settle(k) => SettleBudget(config, s, k, r);
    case Resume(k) => ResumeBudget(config, s, k, r);
    case _ =>
      OthersKeepNumbers(config, s, action);
      OtherStepReopensNothing(config, s, action, r);
      QuietStepKeepsBudget(s.db, Step(config, s, action).db, r);
  }

  /** So a history without late requeues, operator retries included, keeps the budget. */
  lemma {:induction false} TimelyHistoriesKeepTheBudget(config: Config, actions: seq<Action>, r: nat)
    requires config.Valid()
    requires forall i :: 0 <= i < |actions| ==> !LateRequeue(Run(config, START, actions[..i]), actions[i], r)
    ensures InBudget(Run(config, START, actions).db, r)
  {
    if actions != [] {
      var before, n := actions[..|actions| - 1], |actions| - 1;
      assert forall i :: 0 <= i < n ==> before[..i] == actions[..i] && before[i] == actions[i];
      TimelyHistoriesKeepTheBudget(config, before, r);
      ReachableIsPlaced(config, before);
      ReachableIsNumbered(config, before);
      assert actions[..n] == before;
      BudgetIff(config, Run(config, START, before), actions[n], r);
    }
  }
}
