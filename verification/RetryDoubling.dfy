/** The exact condition for an operator retry to be harmless, on the tables: over every
    continuation, one running attempt of the run at most. */
module RetryDoubling {
  import opened Contracts
  import opened Admission
  import opened Tables
  import opened Transactions
  import opened TableInvariant
  import opened RunProtocol
  import opened RunSafety
  import opened MirroredRows
  import opened CapacityHeld
  import opened AttemptNumbering
  import opened RetryHazard
  import Submissions
  import ClaimAdmission

  /** What holds in every history, and all that the condition below relies on. */
  ghost predicate Ordinary(config: Config, s: State)
    requires config.Valid()
  {
    Placed(s) && Accounted(config, s.db) && Numbered(s.db)
  }

  lemma EveryHistoryIsOrdinary(config: Config, actions: seq<Action>)
    requires config.Valid()
    ensures Ordinary(config, Run(config, START, actions))
  {
    ReachableIsPlaced(config, actions);
    ReachableIsAccounted(config, actions);
    ReachableIsNumbered(config, actions);
  }

  /** The state an accepted retry leaves. */
  lemma RetriedState(config: Config, s: State, r: nat, s': State)
    requires config.Valid() && Ordinary(config, s) && RequestRetry(s.db, r).Committed?
    requires s' == Step(config, s, OperatorRetry(r))
    ensures r < |s.db.runs| && s'.db == SetBoth(s.db, r, RetryWait) && s'.actors == s.actors
    ensures Placed(s') && Accounted(config, s'.db)
    ensures Made(s'.db, r) < s'.db.runs[r].task.maxAttempts
    ensures HasLive(s'.db, r) <==> HasLive(s.db, r)
    ensures forall k :: CanRequeue(s', k, r) <==> CanRequeue(s, k, r)
  {
    StepKeepsPlaced(config, s, OperatorRetry(r));
    StepAccounts(config, s, OperatorRetry(r), s');
    LatestFindsLast(s.db, r, |s.db.attempts|);
    SameAttemptFacts(s.db, s'.db);
  }

  // ---- nobody can requeue and nothing runs: one attempt ---------------------------------

  lemma NobodyRequeuesKeepsOne(config: Config, s: State, r: nat, s': State, actions: seq<Action>)
    requires config.Valid() && Ordinary(config, s) && RequestRetry(s.db, r).Committed?
    requires s' == Step(config, s, OperatorRetry(r)) && NeverRetried(actions, r)
    requires !SomebodyRequeues(s, r) && !HasLive(s.db, r)
    ensures OneLive(Run(config, s', actions).db, r)
  {
    RetriedState(config, s, r, s');
    forall t ensures !Entitled(s', r, t) {
      if t.ByAttempt? && LiveAt(s'.db, r, t.attempt) { assert HasLive(s'.db, r); }
    }
    RunKeepsExclusive(config, s', actions, r);
    var db := Run(config, s', actions).db;
    forall a, b | LiveAt(db, r, a) && LiveAt(db, r, b) ensures a == b {
      assert Entitled(Run(config, s', actions), r, ByAttempt(a)) && Entitled(Run(config, s', actions), r, ByAttempt(b));
    }
  }

  // ---- no room for two: one attempt -----------------------------------------------------

  lemma {:induction false} RunKeepsAccounts(config: Config, s: State, actions: seq<Action>)
    requires config.Valid() && Placed(s) && Accounted(config, s.db)
    ensures Placed(Run(config, s, actions)) && Accounted(config, Run(config, s, actions).db)
  {
    if actions != [] {
      var before, last := actions[..|actions| - 1], actions[|actions| - 1];
      RunKeepsAccounts(config, s, before);
      StepKeepsPlaced(config, Run(config, s, before), last);
      StepAccounts(config, Run(config, s, before), last, Run(config, s, actions));
    }
  }

  lemma {:induction false} OneHeld(reservations: map<nat, Reservation>, a: nat, n: nat)
    requires a in reservations && a < n
    ensures reservations[a].cpu <= CpuSum(reservations, n) && reservations[a].memory <= MemorySum(reservations, n)
  {
    if a < n - 1 { OneHeld(reservations, a, n - 1); }
  }

  lemma {:induction false} TwoHeld(reservations: map<nat, Reservation>, a: nat, b: nat, n: nat)
    requires a in reservations && b in reservations && a < b < n
    ensures reservations[a].cpu + reservations[b].cpu <= CpuSum(reservations, n)
    ensures reservations[a].memory + reservations[b].memory <= MemorySum(reservations, n)
  {
    if b < n - 1 { TwoHeld(reservations, a, b, n - 1); } else { OneHeld(reservations, a, n - 1); }
  }

  lemma NoRoomKeepsOne(config: Config, db: Db, r: nat)
    requires config.Valid() && Accounted(config, db) && r < |db.runs| && !RoomForTwo(config, db.runs[r].task)
    ensures OneLive(db, r)
  {
    forall a, b | LiveAt(db, r, a) && LiveAt(db, r, b) ensures a == b {
      if a < b { TwoHeld(db.reservations, a, b, |db.attempts|); }
      if b < a { TwoHeld(db.reservations, b, a, |db.attempts|); }
    }
  }

  /** Tasks never change. */
  lemma {:induction false} TaskStays(config: Config, s: State, actions: seq<Action>, r: nat)
    requires config.Valid() && r < |s.db.runs|
    ensures var s' := Run(config, s, actions); r < |s'.db.runs| && s'.db.runs[r].task == s.db.runs[r].task
  {
    if actions != [] {
      TaskStays(config, s, actions[..|actions| - 1], r);
      Submissions.StepRemembers(config, Run(config, s, actions[..|actions| - 1]), actions[|actions| - 1]);
    }
  }

  // ---- somebody can, and there is room: two attempts ---------------------------------------

  lemma {:induction false} RunAppend(config: Config, s: State, xs: seq<Action>, ys: seq<Action>)
    requires config.Valid()
    ensures Run(config, s, xs + ys) == Run(config, Run(config, s, xs), ys)
    decreases |ys|
  {
    if ys == [] {
      assert xs + ys == xs;
    } else {
      assert (xs + ys)[..|xs + ys| - 1] == xs + ys[..|ys| - 1];
      RunAppend(config, s, xs, ys[..|ys| - 1]);
    }
  }

  lemma Next(config: Config, s: State, before: seq<Action>, mid: State, action: Action) returns (after: seq<Action>)
    requires config.Valid() && Run(config, s, before) == mid
    ensures after == before + [action] && Run(config, s, after) == Step(config, mid, action)
  {
    after := before + [action];
    assert after[..|after| - 1] == before;
  }

  /** The tables with fewer running attempts, and perhaps more actors. */
  ghost predicate Thinned(s: State, s': State) {
    && s'.db.runs == s.db.runs && s'.db.stages == s.db.stages && |s'.db.attempts| == |s.db.attempts|
    && (forall a :: 0 <= a < |s.db.attempts| ==>
          && s'.db.attempts[a].stage == s.db.attempts[a].stage && s'.db.attempts[a].number == s.db.attempts[a].number
          && (s'.db.attempts[a].status.Running? ==> s.db.attempts[a].status.Running?))
    && |s.actors| <= |s'.actors| && (forall k :: 0 <= k < |s.actors| ==> s'.actors[k] == s.actors[k])
  }

  /** Any running attempt can be reclaimed: its lease runs out and its process is gone. */
  lemma FreeOne(config: Config, s: State, a: nat, s1: State, s2: State)
    requires config.Valid() && Placed(s) && Accounted(config, s.db) && a < |s.db.attempts| && s.db.attempts[a].status.Running?
    requires s1 == Step(config, s, Beat(a, s.db.attempts[a].worker, 0, 0)) && s2 == Step(config, s1, Reclaim(a, 1, true))
    ensures Placed(s2) && Accounted(config, s2.db) && Thinned(s, s2) && !s2.db.attempts[a].status.Running?
    ensures forall b :: 0 <= b < |s.db.attempts| && b != a ==> s2.db.attempts[b] == s.db.attempts[b]
  {
    StepKeepsPlaced(config, s, Beat(a, s.db.attempts[a].worker, 0, 0));
    StepAccounts(config, s, Beat(a, s.db.attempts[a].worker, 0, 0), s1);
    StepKeepsPlaced(config, s1, Reclaim(a, 1, true));
    StepAccounts(config, s1, Reclaim(a, 1, true), s2);
  }

  lemma FreeNext(config: Config, s: State, a: nat, keep: nat, r: nat) returns (actions: seq<Action>, s': State)
    requires config.Valid() && Placed(s) && Accounted(config, s.db) && a < |s.db.attempts|
    ensures Run(config, s, actions) == s' && NeverRetried(actions, r)
    ensures Placed(s') && Accounted(config, s'.db) && Thinned(s, s')
    ensures a != keep ==> !s'.db.attempts[a].status.Running?
    ensures keep < |s.db.attempts| ==> s'.db.attempts[keep] == s.db.attempts[keep]
  {
    actions, s' := [], s;
    if s.db.attempts[a].status.Running? && a != keep {
      var beat := Beat(a, s.db.attempts[a].worker, 0, 0);
      var s1 := Step(config, s, beat);
      s' := Step(config, s1, Reclaim(a, 1, true));
      FreeOne(config, s, a, s1, s');
      actions := [beat, Reclaim(a, 1, true)];
      TwoSteps(config, s, beat, Reclaim(a, 1, true));
    }
  }

  lemma TwoSteps(config: Config, s: State, x: Action, y: Action)
    requires config.Valid()
    ensures Run(config, s, [x, y]) == Step(config, Step(config, s, x), y)
  {
    assert [x, y][..1] == [x] && [x][..0] == [];
    assert Run(config, s, [x]) == Step(config, Run(config, s, []), x);
  }

  /** Every running attempt below `n` but `keep` loses its lease. */
  lemma {:induction false} FreeBelow(config: Config, s: State, n: nat, keep: nat, r: nat)
    returns (actions: seq<Action>, s': State)
    requires config.Valid() && Placed(s) && Accounted(config, s.db) && n <= |s.db.attempts|
    ensures Run(config, s, actions) == s' && NeverRetried(actions, r)
    ensures Placed(s') && Accounted(config, s'.db) && Thinned(s, s')
    ensures forall a :: 0 <= a < n && a != keep ==> !s'.db.attempts[a].status.Running?
    ensures keep < |s.db.attempts| ==> s'.db.attempts[keep] == s.db.attempts[keep]
  {
    actions, s' := [], s;
    if n > 0 {
      var before, mid := FreeBelow(config, s, n - 1, keep, r);
      var more;
      more, s' := FreeNext(config, mid, n - 1, keep, r);
      actions := before + more;
      RunAppend(config, s, before, more);
    }
  }

  /** A claim that finds room. */
  lemma ClaimSucceeds(config: Config, s: State, r: nat, s': State)
    requires config.Valid() && Placed(s) && Accounted(config, s.db) && r < |s.db.runs| && Unclaimed(s.db.runs[r].status)
    requires Fits(config.capacity, CpuSum(s.db.reservations, |s.db.attempts|), MemorySum(s.db.reservations, |s.db.attempts|),
                  Effective(config, s.db.runs[r].task))
    requires s' == Step(config, s, ClaimRun(r, "w", 0, 1))
    ensures Placed(s') && Accounted(config, s'.db)
    ensures var n, want := |s.db.attempts|, Effective(config, s.db.runs[r].task);
            && |s'.db.attempts| == n + 1 && s'.db.attempts[..n] == s.db.attempts && LiveAt(s'.db, r, n)
            && |s'.db.runs| == |s.db.runs| && s'.db.runs[r] == s.db.runs[r].(status := RunStatus.Running)
            && s'.actors == s.actors + [Executing(n)]
            && CpuSum(s'.db.reservations, n + 1) == CpuSum(s.db.reservations, n) + want.cpu
            && MemorySum(s'.db.reservations, n + 1) == MemorySum(s.db.reservations, n) + want.memory
  {
    WorkerWants(config, s.db, r, "w", 0, 1);
    StepKeepsPlaced(config, s, ClaimRun(r, "w", 0, 1));
    StepAccounts(config, s, ClaimRun(r, "w", 0, 1), s');
    var n := |s.db.attempts|;
    assert s'.db.reservations == s.db.reservations[n := Effective(config, s.db.runs[r].task)];
    SumsAgree(s.db.reservations, s'.db.reservations, n);
  }

  /** Ready to requeue: nothing left but the transaction itself. */
  ghost predicate Poised(s: State, k: nat, r: nat) {
    CanRequeue(s, k, r) && !s.actors[k].Reclaimed?
  }

  /** The poised actor requeues the run although its new attempt is running. */
  lemma RequeueUnder(config: Config, s: State, k: nat, r: nat, action: Action, s': State)
    requires config.Valid() && Placed(s) && Accounted(config, s.db) && Poised(s, k, r) && s.db.runs[r].status.Running?
    requires action == (if s.actors[k].Resuming? then Resume(k) else Settle(k)) && s' == Step(config, s, action)
    ensures Placed(s') && Accounted(config, s'.db)
    ensures s'.db.attempts == s.db.attempts && s'.db.reservations == s.db.reservations
    ensures |s'.db.runs| == |s.db.runs| && s'.db.runs[r] == s.db.runs[r].(status := RetryWait)
  {
    StepKeepsPlaced(config, s, action);
    StepAccounts(config, s, action, s');
  }

  /** Claim, requeue, claim again: the states in between. */
  lemma DoubleStates(config: Config, s: State, k: nat, r: nat, requeue: Action, s1: State, s2: State, s3: State)
    requires config.Valid() && Placed(s) && Accounted(config, s.db)
    requires Poised(s, k, r) && Unclaimed(s.db.runs[r].status) && RoomForTwo(config, s.db.runs[r].task)
    requires forall a :: 0 <= a < |s.db.attempts| ==> !s.db.attempts[a].status.Running?
    requires requeue == (if s.actors[k].Resuming? then Resume(k) else Settle(k))
    requires s1 == Step(config, s, ClaimRun(r, "w", 0, 1))
    requires s2 == Step(config, s1, requeue) && s3 == Step(config, s2, ClaimRun(r, "w", 0, 1))
    ensures LiveAt(s3.db, r, |s.db.attempts|) && LiveAt(s3.db, r, |s.db.attempts| + 1)
  {
    ClaimAdmission.NothingReserved(s.db.reservations, |s.db.attempts|);
    ClaimSucceeds(config, s, r, s1);
    StillPoised(s, s1, k, r);
    RequeueAndClaim(config, s1, k, r, |s.db.attempts|, requeue, s2, s3);
  }

  /** The second half: the run is running attempt `n`, which alone holds anything. */
  lemma RequeueAndClaim(config: Config, s1: State, k: nat, r: nat, n: nat, requeue: Action, s2: State, s3: State)
    requires config.Valid() && Placed(s1) && Accounted(config, s1.db) && Poised(s1, k, r) && s1.db.runs[r].status.Running?
    requires |s1.db.attempts| == n + 1 && LiveAt(s1.db, r, n) && RoomForTwo(config, s1.db.runs[r].task)
    requires CpuSum(s1.db.reservations, n + 1) == Effective(config, s1.db.runs[r].task).cpu
    requires MemorySum(s1.db.reservations, n + 1) == Effective(config, s1.db.runs[r].task).memory
    requires requeue == (if s1.actors[k].Resuming? then Resume(k) else Settle(k))
    requires s2 == Step(config, s1, requeue) && s3 == Step(config, s2, ClaimRun(r, "w", 0, 1))
    ensures LiveAt(s3.db, r, n) && LiveAt(s3.db, r, n + 1)
  {
    RequeueUnder(config, s1, k, r, requeue, s2);
    ClaimSucceeds(config, s2, r, s3);
    assert s3.db.attempts[n] == s3.db.attempts[..n + 1][n];
  }

  lemma StillPoised(s: State, s': State, k: nat, r: nat)
    requires Placed(s) && Placed(s') && Poised(s, k, r)
    requires |s.db.attempts| <= |s'.db.attempts| && s'.db.attempts[..|s.db.attempts|] == s.db.attempts
    requires |s'.db.runs| == |s.db.runs| && s'.db.runs[r].task == s.db.runs[r].task
    requires k < |s'.actors| && s'.actors[k] == s.actors[k]
    ensures Poised(s', k, r)
  {
    var a := s.actors[k].attempt;
    assert s'.db.attempts[a] == s'.db.attempts[..|s.db.attempts|][a];
  }

  lemma DoubleUp(config: Config, s: State, k: nat, r: nat) returns (actions: seq<Action>)
    requires config.Valid() && Placed(s) && Accounted(config, s.db)
    requires Poised(s, k, r) && Unclaimed(s.db.runs[r].status) && RoomForTwo(config, s.db.runs[r].task)
    requires forall a :: 0 <= a < |s.db.attempts| ==> !s.db.attempts[a].status.Running?
    ensures NeverRetried(actions, r) && !OneLive(Run(config, s, actions).db, r)
  {
    var claim, requeue := ClaimRun(r, "w", 0, 1), if s.actors[k].Resuming? then Resume(k) else Settle(k);
    var s1 := Step(config, s, claim);
    var s2 := Step(config, s1, requeue);
    DoubleStates(config, s, k, r, requeue, s1, s2, Step(config, s2, claim));
    actions := Next(config, s, [], s, claim);
    actions := Next(config, s, actions, s1, requeue);
    actions := Next(config, s, actions, s2, claim);
  }

  lemma WeighFirst(config: Config, s: State, k: nat, r: nat) returns (actions: seq<Action>, s': State)
    requires config.Valid() && Placed(s) && Accounted(config, s.db) && CanRequeue(s, k, r)
    requires Made(s.db, r) < s.db.runs[r].task.maxAttempts
    ensures Run(config, s, actions) == s' && NeverRetried(actions, r)
    ensures Placed(s') && Accounted(config, s'.db) && Poised(s', k, r) && s'.db == s.db
  {
    actions, s' := [], s;
    if s.actors[k].Reclaimed? {
      s' := Step(config, s, Weigh(k));
      actions := Next(config, s, [], s, Weigh(k));
      StepKeepsPlaced(config, s, Weigh(k));
    }
  }

  lemma ThinnedPoised(s: State, s': State, k: nat, r: nat)
    requires Placed(s) && Poised(s, k, r) && Thinned(s, s')
    ensures Poised(s', k, r)
  {
  }

  /** From a waiting run with a titled actor to the poised state: weigh if need be, and
      let every other running attempt lose its lease. */
  lemma GetPoised(config: Config, s: State, k: nat, r: nat) returns (actions: seq<Action>, s': State)
    requires config.Valid() && Placed(s) && Accounted(config, s.db) && CanRequeue(s, k, r)
    requires Made(s.db, r) < s.db.runs[r].task.maxAttempts
    ensures Run(config, s, actions) == s' && NeverRetried(actions, r)
    ensures Placed(s') && Accounted(config, s'.db) && Poised(s', k, r) && s'.db.runs == s.db.runs
    ensures forall a :: 0 <= a < |s'.db.attempts| ==> !s'.db.attempts[a].status.Running?
  {
    var first, mid := WeighFirst(config, s, k, r);
    var rest;
    rest, s' := FreeBelow(config, mid, |mid.db.attempts|, |mid.db.attempts|, r);
    ThinnedPoised(mid, s', k, r);
    actions := first + rest;
    RunAppend(config, s, first, rest);
  }

  /** Somebody requeues the retried run under its new attempt. */
  lemma RequeuerDoubles(config: Config, s: State, r: nat, k: nat, s': State) returns (actions: seq<Action>)
    requires config.Valid() && Ordinary(config, s) && RequestRetry(s.db, r).Committed?
    requires s' == Step(config, s, OperatorRetry(r)) && CanRequeue(s, k, r) && RoomForTwo(config, s.db.runs[r].task)
    ensures NeverRetried(actions, r) && !OneLive(Run(config, s', actions).db, r)
  {
    RetriedState(config, s, r, s');
    var first, mid := GetPoised(config, s', k, r);
    var rest := DoubleUp(config, mid, k, r);
    actions := first + rest;
    RunAppend(config, s', first, rest);
  }

  // ---- an attempt is still running, and there is room: two attempts ----------------------------

  lemma {:induction false} OnlyHeld(reservations: map<nat, Reservation>, keep: nat, n: nat)
    requires keep in reservations && forall a: nat :: a in reservations ==> a == keep
    ensures CpuSum(reservations, n) == if keep < n then reservations[keep].cpu else 0
    ensures MemorySum(reservations, n) == if keep < n then reservations[keep].memory else 0
  {
    if n > 0 { OnlyHeld(reservations, keep, n - 1); }
  }

  /** The next claim runs beside the attempt that is still there. */
  lemma ClaimBeside(config: Config, s: State, r: nat, keep: nat, s': State)
    requires config.Valid() && Placed(s) && Accounted(config, s.db) && LiveAt(s.db, r, keep)
    requires r < |s.db.runs| && Unclaimed(s.db.runs[r].status) && RoomForTwo(config, s.db.runs[r].task)
    requires forall a :: 0 <= a < |s.db.attempts| && a != keep ==> !s.db.attempts[a].status.Running?
    requires s' == Step(config, s, ClaimRun(r, "w", 0, 1))
    ensures !OneLive(s'.db, r)
  {
    var n := |s.db.attempts|;
    OnlyHeld(s.db.reservations, keep, n);
    ClaimSucceeds(config, s, r, s');
    assert s'.db.attempts[keep] == s'.db.attempts[..n][keep];
    assert LiveAt(s'.db, r, keep) && LiveAt(s'.db, r, n);
  }

  lemma AttemptDoubles(config: Config, s: State, r: nat, keep: nat, s': State) returns (actions: seq<Action>)
    requires config.Valid() && Ordinary(config, s) && RequestRetry(s.db, r).Committed?
    requires s' == Step(config, s, OperatorRetry(r)) && LiveAt(s.db, r, keep) && RoomForTwo(config, s.db.runs[r].task)
    ensures NeverRetried(actions, r) && !OneLive(Run(config, s', actions).db, r)
  {
    RetriedState(config, s, r, s');
    var mid;
    actions, mid := FreeBelow(config, s', |s'.db.attempts|, keep, r);
    ClaimBeside(config, mid, r, keep, Step(config, mid, ClaimRun(r, "w", 0, 1)));
    actions := Next(config, s', actions, mid, ClaimRun(r, "w", 0, 1));
  }

  // ---- the exact condition ------------------------------------------------------------------

  /** In every history: after an accepted operator retry every continuation, short of
      another retry of the run, keeps one running attempt of it at most -- if and only if
      no actor can still requeue the run and no attempt of it is still running, or the
      machine has no room for two such attempts. */
  lemma RetryKeepsOneAttemptIff(config: Config, s: State, r: nat)
    requires config.Valid() && Ordinary(config, s) && RequestRetry(s.db, r).Committed?
    ensures r < |s.db.runs|
    ensures StaysSingle(config, Step(config, s, OperatorRetry(r)), r) <==>
            !((SomebodyRequeues(s, r) || HasLive(s.db, r)) && RoomForTwo(config, s.db.runs[r].task))
  {
    var s' := Step(config, s, OperatorRetry(r));
    RetriedState(config, s, r, s');
    if HasLive(s.db, r) && RoomForTwo(config, s.db.runs[r].task) {
      var a :| 0 <= a < |s.db.attempts| && LiveAt(s.db, r, a);
      var actions := AttemptDoubles(config, s, r, a, s');
    } else if SomebodyRequeues(s, r) && RoomForTwo(config, s.db.runs[r].task) {
      var k :| 0 <= k < |s.actors| && CanRequeue(s, k, r);
      var actions := RequeuerDoubles(config, s, r, k, s');
    } else {
      forall actions | NeverRetried(actions, r) ensures OneLive(Run(config, s', actions).db, r) {
        if RoomForTwo(config, s.db.runs[r].task) {
          NobodyRequeuesKeepsOne(config, s, r, s', actions);
        } else {
          RunKeepsAccounts(config, s', actions);
          TaskStays(config, s', actions, r);
          NoRoomKeepsOne(config, Run(config, s', actions).db, r);
        }
      }
    }
  }
}
