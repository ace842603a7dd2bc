/** Concrete runs of the protocol that break natural-looking statements.  One sample run
    with a retry budget of `max`, one worker name, a machine of eight cores. */
module RunWitnesses {
  import opened Contracts
  import opened Admission
  import opened Tables
  import opened Transactions
  import opened TableInvariant
  import opened RunProtocol
  import opened RunLimits
  import opened RetryHazard

  // ---- the sample ----------------------------------------------------------------

  /** Extending a run by one action. */
  lemma Then(config: Config, before: seq<Action>, s: State, action: Action) returns (after: seq<Action>)
    requires config.Valid() && Run(config, START, before) == s
    ensures after == before + [action] && Run(config, START, after) == Step(config, s, action)
  {
    after := before + [action];
    assert after[..|after| - 1] == before;
  }

  function SampleTask(max: nat): TaskSpec { TaskSpec("t", "", map[], [], None, None, max) }

  function SampleConfig(): Config { Config(Capacity(8, 100, 1, 1), 1, 10) }

  function SampleRow(number: nat, status: AttemptStatus, lease: Option<int>, failure: Option<bool>): AttemptRow {
    AttemptRow(0, number, status, "w", lease, failure)
  }

  function Live(number: nat): AttemptRow { SampleRow(number, AttemptStatus.Running, Some(1), None) }

  function Lost(number: nat): AttemptRow { SampleRow(number, AttemptStatus.Lost, None, Some(true)) }

  function SampleDb(max: nat, status: RunStatus, attempts: seq<AttemptRow>, held: map<nat, Reservation>): Db {
    Db([RunRow(None, SampleTask(max), status)], [StageRow("1", true, status)], attempts, held)
  }

  const ONE := Reservation(1, 10)

  const CLAIM := ClaimRun(0, "w", 0, 1)

  /** Claiming the sample run when its earlier attempts are numbered. */
  lemma ClaimSample(max: nat, attempts: seq<AttemptRow>, status: RunStatus, held: map<nat, Reservation>, number: nat)
    requires Unclaimed(status) && MaxNumber(attempts, 0, |attempts|) + 1 == number
    requires CpuSum(held, |attempts|) <= 7 && MemorySum(held, |attempts|) <= 90
    ensures StartAttempt(SampleDb(max, status, attempts, held),
                         WorkerClaim(SampleConfig(), SampleDb(max, status, attempts, held), 0, "w", 0, 1)) ==
            Committed(SampleDb(max, RunStatus.Running, attempts + [Live(number)], held[|attempts| := ONE]), |attempts|)
  {
    var db := SampleDb(max, status, attempts, held);
    SampleBudget();
    SampleWant(db, max);
    ClaimCommits(db, WorkerClaim(SampleConfig(), db, 0, "w", 0, 1), ONE);
    MoveSample(max, attempts + [Live(number)], status, held[|attempts| := ONE], RunStatus.Running);
  }

  /** The claim's row changes, written out. */
  lemma ClaimCommits(db: Db, c: Claim, want: Reservation)
    requires 0 < c.leaseSeconds && c.stage < |db.stages| && Unclaimed(db.stages[c.stage].status)
    requires c.capacity.Some? && 0 < c.capacity.value.den && ClaimWant(c) == Some(want) && 0 < want.memory
    requires Fits(c.capacity.value, CpuSum(db.reservations, |db.attempts|), MemorySum(db.reservations, |db.attempts|), want)
    ensures var row := AttemptRow(c.stage, MaxNumber(db.attempts, c.stage, |db.attempts|) + 1, AttemptStatus.Running,
                                  c.worker, Some(c.now + c.leaseSeconds), None);
            var started := db.(attempts := db.attempts + [row], reservations := db.reservations[|db.attempts| := want]);
            StartAttempt(db, c) ==
            Committed(Transactions.ClaimRun(SetStage(started, c.stage, RunStatus.Running), c.stage), |db.attempts|)
  {
  }

  lemma {:induction false} OneIsHeld(k: nat, n: nat)
    ensures CpuSum(map[k := ONE], n) == if k < n then 1 else 0
    ensures MemorySum(map[k := ONE], n) == if k < n then 10 else 0
  {
    if n > 0 { OneIsHeld(k, n - 1); }
  }

  lemma SampleBudget()
    ensures CpuBudget(SampleConfig().capacity) == 8 && MemoryBudget(SampleConfig().capacity) == 100
  {
    assert CeilShare(8, 1, 1) == 8 && CeilShare(100, 1, 1) == 100;
  }

  lemma SampleWant(db: Db, max: nat)
    requires |db.runs| == 1 && db.runs[0].task == SampleTask(max)
    ensures ClaimWant(WorkerClaim(SampleConfig(), db, 0, "w", 0, 1)) == Some(ONE)
  {
  }

  lemma MoveSample(max: nat, attempts: seq<AttemptRow>, status: RunStatus, held: map<nat, Reservation>, target: RunStatus)
    ensures SetBoth(SampleDb(max, status, attempts, held), 0, target) == SampleDb(max, target, attempts, held)
    ensures Unclaimed(status) ==>
              Transactions.ClaimRun(SetStage(SampleDb(max, status, attempts, held), 0, RunStatus.Running), 0) ==
              SampleDb(max, RunStatus.Running, attempts, held)
  {
  }

  /** Reclaiming attempt `a`, whose lease ran out. */
  lemma LoseSample(max: nat, attempts: seq<AttemptRow>, held: map<nat, Reservation>, a: nat, number: nat)
    requires a < |attempts| && attempts[a] == Live(number)
    ensures MarkLost(SampleDb(max, RunStatus.Running, attempts, held), a, 2) ==
            Committed(SampleDb(max, RunStatus.Running, attempts[a := Lost(number)], held - {a}), ())
  {
  }

  /** The failure path of an actor whose attempt is no longer running. */
  lemma ForeignFailure(config: Config, before: seq<Action>, s: State, max: nat, attempts: seq<AttemptRow>,
                       held: map<nat, Reservation>, k: nat, a: nat) returns (actions: seq<Action>)
    requires config.Valid() && Run(config, START, before) == s
    requires k < |s.actors| && s.actors[k] == Executing(a)
    requires s.db == SampleDb(max, RunStatus.Running, attempts, held)
    requires a < |attempts| && attempts[a].stage == 0 && attempts[a].status.Lost?
    ensures Run(config, START, actions) == State(SampleDb(max, RunStatus.Failed, attempts, held), s.actors[k := Done])
    ensures actions == before + [Fault(k), FailAttempt(k), FailCheck(k), FailRun(k)]
  {
    actions := ForeignFault(config, before, s, max, attempts, held, k, a);
    var s2 := s.(actors := s.actors[k := FailChecking(a, false)]);
    var s3 := s.(actors := s.actors[k := FailSettling(a, false)]);
    actions := Then(config, actions, s2, FailCheck(k));
    assert Step(config, s2, FailCheck(k)) == s3;
    actions := Then(config, actions, s3, FailRun(k));
    MoveSample(max, attempts, RunStatus.Running, held, RunStatus.Failed);
    assert s3.actors[k := Done] == s.actors[k := Done];
  }

  lemma ForeignFault(config: Config, before: seq<Action>, s: State, max: nat, attempts: seq<AttemptRow>,
                     held: map<nat, Reservation>, k: nat, a: nat) returns (actions: seq<Action>)
    requires config.Valid() && Run(config, START, before) == s
    requires k < |s.actors| && s.actors[k] == Executing(a)
    requires s.db == SampleDb(max, RunStatus.Running, attempts, held)
    requires a < |attempts| && attempts[a].stage == 0 && attempts[a].status.Lost?
    ensures Run(config, START, actions) == s.(actors := s.actors[k := FailChecking(a, false)])
    ensures actions == before + [Fault(k), FailAttempt(k)]
  {
    var s1 := s.(actors := s.actors[k := Failing(a, false)]);
    actions := Then(config, before, s, Fault(k));
    assert Step(config, s, Fault(k)) == s1;
    actions := Then(config, actions, s1, FailAttempt(k));
    assert s1.actors[k := FailChecking(a, false)] == s.actors[k := FailChecking(a, false)];
  }

  // ---- a stale worker fails the run -----------------------------------------------

  lemma FirstClaim(max: nat) returns (actions: seq<Action>)
    requires 0 < max
    ensures Unassisted(actions) && CrashFree(actions)
    ensures Run(SampleConfig(), START, actions) ==
            State(SampleDb(max, RunStatus.Running, [Live(1)], map[0 := ONE]), [Executing(0)])
  {
    var submit := Submit(Catalog(map[], map[]), Submission(SampleTask(max), "1", false, None, true));
    actions := Then(SampleConfig(), [], START, submit);
    assert Run(SampleConfig(), START, actions) == State(SampleDb(max, Queued, [], map[]), []);
    ClaimSample(max, [], Queued, map[], 1);
    actions := Then(SampleConfig(), actions, State(SampleDb(max, Queued, [], map[]), []), CLAIM);
  }

  /** A reclaimer marks the attempt lost: the worker still believes it executes, and
      the reclaimer owes the settlement. */
  lemma LostButExecuting(max: nat) returns (actions: seq<Action>)
    requires 0 < max
    ensures Unassisted(actions) && CrashFree(actions)
    ensures Run(SampleConfig(), START, actions) ==
            State(SampleDb(max, RunStatus.Running, [Lost(1)], map[]), [Executing(0), Reclaimed(0)])
  {
    actions := FirstClaim(max);
    LoseSample(max, [Live(1)], map[0 := ONE], 0, 1);
    actions := Then(SampleConfig(), actions, Run(SampleConfig(), START, actions), Reclaim(0, 2, true));
    assert [Live(1)][0 := Lost(1)] == [Lost(1)] && map[0 := ONE] - {0} == map[];
  }

  /** The reclaimer has found room. */
  lemma Weighed(max: nat) returns (actions: seq<Action>)
    requires 1 < max
    ensures Unassisted(actions) && CrashFree(actions)
    ensures Run(SampleConfig(), START, actions) ==
            State(SampleDb(max, RunStatus.Running, [Lost(1)], map[]), [Executing(0), Resuming(0)])
  {
    actions := LostButExecuting(max);
    actions := Then(SampleConfig(), actions, Run(SampleConfig(), START, actions), Weigh(1));
    var db := SampleDb(max, RunStatus.Running, [Lost(1)], map[]);
    assert Count([Lost(1)], 0, 0) == 0 && Made(db, 0) == 1;
  }

  /** A crash-free run without operator retry that ends with a failed run whose second
      attempt is still running: the reclaimer requeues, a second worker claims, and the
      first finds its attempt lost and the run running, and fails the run. */
  lemma FailedRunCanHaveLiveAttempt() returns (actions: seq<Action>)
    ensures Unassisted(actions) && CrashFree(actions)
    ensures FailedWhileLive(Run(SampleConfig(), START, actions).db, 0)
  {
    actions := SecondClaim();
    var s := Run(SampleConfig(), START, actions);
    actions := ForeignFailure(SampleConfig(), actions, s, 3, [Lost(1), Live(2)], map[1 := ONE], 0, 0);
    assert LiveAt(Run(SampleConfig(), START, actions).db, 0, 1);
  }

  lemma SecondClaim() returns (actions: seq<Action>)
    ensures Unassisted(actions) && CrashFree(actions)
    ensures Run(SampleConfig(), START, actions) ==
            State(SampleDb(3, RunStatus.Running, [Lost(1), Live(2)], map[1 := ONE]), [Executing(0), Done, Executing(1)])
  {
    actions := Weighed(3);
    actions := Then(SampleConfig(), actions, Run(SampleConfig(), START, actions), Resume(1));
    MoveSample(3, [Lost(1)], RunStatus.Running, map[], RetryWait);
    var s := State(SampleDb(3, RetryWait, [Lost(1)], map[]), [Executing(0), Done]);
    assert Run(SampleConfig(), START, actions) == s;
    actions := Then(SampleConfig(), actions, s, CLAIM);
    ClaimSample(3, [Lost(1)], RetryWait, map[], 2);
    assert [Lost(1)] + [Live(2)] == [Lost(1), Live(2)];
  }

  // ---- a retry while somebody can requeue -------------------------------------------

  /** The stale worker failed the run although the reclaimer has yet to resume it, and
      the operator retried it. */
  lemma RetriedUnderDuty(max: nat) returns (actions: seq<Action>)
    requires 1 < max
    ensures CrashFree(actions)
    ensures Run(SampleConfig(), START, actions) ==
            State(SampleDb(max, RetryWait, [Lost(1)], map[]), [Done, Resuming(0)])
  {
    actions := FailedUnderDuty(max);
    var s := State(SampleDb(max, RunStatus.Failed, [Lost(1)], map[]), [Done, Resuming(0)]);
    actions := Then(SampleConfig(), actions, s, OperatorRetry(0));
    MoveSample(max, [Lost(1)], RunStatus.Failed, map[], RetryWait);
    assert Latest([Lost(1)], 0, 1) == Some(0);
  }

  lemma FailedUnderDuty(max: nat) returns (actions: seq<Action>)
    requires 1 < max
    ensures CrashFree(actions)
    ensures Run(SampleConfig(), START, actions) ==
            State(SampleDb(max, RunStatus.Failed, [Lost(1)], map[]), [Done, Resuming(0)])
  {
    actions := Weighed(max);
    actions := ForeignFailure(SampleConfig(), actions, Run(SampleConfig(), START, actions), max, [Lost(1)], map[], 0, 0);
  }

  /** A second worker claimed the run, and the reclaimer requeues it under that attempt. */
  lemma RequeuedUnderAttempt(max: nat) returns (actions: seq<Action>)
    requires 1 < max
    ensures CrashFree(actions)
    ensures Run(SampleConfig(), START, actions) ==
            State(SampleDb(max, RetryWait, [Lost(1), Live(2)], map[1 := ONE]), [Done, Done, Executing(1)])
  {
    actions := RetriedUnderDuty(max);
    actions := Then(SampleConfig(), actions, Run(SampleConfig(), START, actions), CLAIM);
    ClaimSample(max, [Lost(1)], RetryWait, map[], 2);
    assert [Lost(1)] + [Live(2)] == [Lost(1), Live(2)];
    var s := State(SampleDb(max, RunStatus.Running, [Lost(1), Live(2)], map[1 := ONE]), [Done, Resuming(0), Executing(1)]);
    assert Run(SampleConfig(), START, actions) == s;
    actions := Then(SampleConfig(), actions, s, Resume(1));
    MoveSample(max, [Lost(1), Live(2)], RunStatus.Running, map[1 := ONE], RetryWait);
  }

  /** Where a retry has left an attempt running under a waiting run, a preflight failure,
      too, fails the run above it. */
  lemma PreflightCanFailUnderAttempt() returns (actions: seq<Action>)
    ensures CrashFree(actions)
    ensures FailedWhileLive(Run(SampleConfig(), START, actions).db, 0)
  {
    actions := RequeuedUnderAttempt(3);
    var rows := [Lost(1), Live(2)];
    MoveSample(3, rows, RetryWait, map[1 := ONE], RunStatus.Failed);
    actions := Then(SampleConfig(), actions, Run(SampleConfig(), START, actions), FailQueued(0));
    assert LiveAt(Run(SampleConfig(), START, actions).db, 0, 1);
  }

  /** One operator retry that slips between reclaim's mark and its settlement ends in two
      running attempts of one run. */
  lemma RetryCanDoubleTheAttempt(max: nat) returns (actions: seq<Action>)
    requires 1 < max
    ensures CrashFree(actions)
    ensures Run(SampleConfig(), START, actions) ==
            State(SampleDb(max, RunStatus.Running, [Lost(1), Live(2), Live(3)], map[1 := ONE, 2 := ONE]),
                  [Done, Done, Executing(1), Executing(2)])
    ensures !OneLive(Run(SampleConfig(), START, actions).db, 0)
  {
    actions := RequeuedUnderAttempt(max);
    var rows := [Lost(1), Live(2)];
    actions := Then(SampleConfig(), actions, Run(SampleConfig(), START, actions), CLAIM);
    assert MaxNumber(rows, 0, 1) == 1;
    OneIsHeld(1, 2);
    ClaimSample(max, rows, RetryWait, map[1 := ONE], 3);
    assert rows + [Live(3)] == [Lost(1), Live(2), Live(3)];
    var db := Run(SampleConfig(), START, actions).db;
    assert LiveAt(db, 0, 1) && LiveAt(db, 0, 2);
  }

  /** The same run with a budget of two attempts ends with three. */
  lemma RetryCanExceedTheBudget() returns (actions: seq<Action>)
    ensures CrashFree(actions)
    ensures var db := Run(SampleConfig(), START, actions).db;
            |db.runs| == 1 && db.runs[0].task.maxAttempts == 2 && Made(db, 0) == 3
  {
    actions := RetryCanDoubleTheAttempt(2);
    var rows := [Lost(1), Live(2), Live(3)];
    assert Count(rows, 0, 0) == 0 && Count(rows, 0, 1) == 1 && Count(rows, 0, 2) == 2;
  }

  // ---- a retry under a running attempt ------------------------------------------------

  /** After the doubling, the newer attempt loses its lease and its reclaimer finds room. */
  lemma NewerLost(max: nat) returns (actions: seq<Action>)
    requires 3 < max
    ensures CrashFree(actions)
    ensures Run(SampleConfig(), START, actions) ==
            State(SampleDb(max, RunStatus.Running, [Lost(1), Live(2), Lost(3)], map[1 := ONE]),
                  [Done, Done, Executing(1), Executing(2), Resuming(2)])
  {
    actions := RetryCanDoubleTheAttempt(max);
    var rows, rows' := [Lost(1), Live(2), Live(3)], [Lost(1), Live(2), Lost(3)];
    LoseSample(max, rows, map[1 := ONE, 2 := ONE], 2, 3);
    actions := Then(SampleConfig(), actions, Run(SampleConfig(), START, actions), Reclaim(2, 2, true));
    assert rows[2 := Lost(3)] == rows' && map[1 := ONE, 2 := ONE] - {2} == map[1 := ONE];
    var db := SampleDb(max, RunStatus.Running, rows', map[1 := ONE]);
    var s := State(db, [Done, Done, Executing(1), Executing(2), Reclaimed(2)]);
    assert Run(SampleConfig(), START, actions) == s;
    actions := Then(SampleConfig(), actions, s, Weigh(4));
    assert Count(rows', 0, 0) == 0 && Count(rows', 0, 1) == 1 && Count(rows', 0, 2) == 2 && Made(db, 0) == 3;
  }

  /** Its worker fails the run, the reclaimer is refused twice and gives up: nobody can
      requeue the run any more, an older attempt of it is running, and a retry is
      accepted -- after which the next claim runs two attempts. */
  lemma RetryUnderAttempt(max: nat) returns (actions: seq<Action>)
    requires 3 < max
    ensures CrashFree(actions)
    ensures var s := Run(SampleConfig(), START, actions);
            && RequestRetry(s.db, 0).Committed? && !SomebodyRequeues(s, 0) && HasLive(s.db, 0)
            && !OneLive(Run(SampleConfig(), START, actions + [OperatorRetry(0), CLAIM]).db, 0)
  {
    actions := GivenUp(max);
    var rows := [Lost(1), Live(2), Lost(3)];
    var s := State(SampleDb(max, RunStatus.Failed, rows, map[1 := ONE]), [Done, Done, Executing(1), Done, Done]);
    assert LiveAt(s.db, 0, 1);
    RetryAccepted(max);
    var retried := Then(SampleConfig(), actions, s, OperatorRetry(0));
    var s1 := s.(db := SampleDb(max, RetryWait, rows, map[1 := ONE]));
    var claimed := Then(SampleConfig(), retried, s1, CLAIM);
    assert claimed == actions + [OperatorRetry(0), CLAIM];
    ClaimUnderAttempt(max, s1);
  }

  lemma RetryAccepted(max: nat)
    requires 3 < max
    ensures RequestRetry(SampleDb(max, RunStatus.Failed, [Lost(1), Live(2), Lost(3)], map[1 := ONE]), 0) ==
            Committed(SampleDb(max, RetryWait, [Lost(1), Live(2), Lost(3)], map[1 := ONE]), ())
  {
    var rows := [Lost(1), Live(2), Lost(3)];
    assert Latest(rows, 0, 1) == Some(0) && Latest(rows, 0, 2) == Some(1) && Latest(rows, 0, 3) == Some(2);
    MoveSample(max, rows, RunStatus.Failed, map[1 := ONE], RetryWait);
  }

  lemma ClaimUnderAttempt(max: nat, s: State)
    requires s.db == SampleDb(max, RetryWait, [Lost(1), Live(2), Lost(3)], map[1 := ONE])
    ensures !OneLive(Step(SampleConfig(), s, CLAIM).db, 0)
  {
    var rows := [Lost(1), Live(2), Lost(3)];
    assert MaxNumber(rows, 0, 1) == 1 && MaxNumber(rows, 0, 2) == 2;
    OneIsHeld(1, 3);
    ClaimSample(max, rows, RetryWait, map[1 := ONE], 4);
    var db := Step(SampleConfig(), s, CLAIM).db;
    assert LiveAt(db, 0, 1) && LiveAt(db, 0, 3);
  }

  lemma GivenUp(max: nat) returns (actions: seq<Action>)
    requires 3 < max
    ensures CrashFree(actions)
    ensures Run(SampleConfig(), START, actions) ==
            State(SampleDb(max, RunStatus.Failed, [Lost(1), Live(2), Lost(3)], map[1 := ONE]),
                  [Done, Done, Executing(1), Done, Done])
  {
    actions := NewerFailed(max);
    var db := SampleDb(max, RunStatus.Failed, [Lost(1), Live(2), Lost(3)], map[1 := ONE]);
    var s := State(db, [Done, Done, Executing(1), Done, Resuming(2)]);
    actions := Then(SampleConfig(), actions, s, Resume(4));
    var s1 := State(db, [Done, Done, Executing(1), Done, Losing(2)]);
    assert Run(SampleConfig(), START, actions) == s1;
    actions := Then(SampleConfig(), actions, s1, Lose(4));
  }

  lemma NewerFailed(max: nat) returns (actions: seq<Action>)
    requires 3 < max
    ensures CrashFree(actions)
    ensures Run(SampleConfig(), START, actions) ==
            State(SampleDb(max, RunStatus.Failed, [Lost(1), Live(2), Lost(3)], map[1 := ONE]),
                  [Done, Done, Executing(1), Done, Resuming(2)])
  {
    actions := NewerLost(max);
    actions := ForeignFailure(SampleConfig(), actions, Run(SampleConfig(), START, actions), max,
                              [Lost(1), Live(2), Lost(3)], map[1 := ONE], 3, 2);
  }
}
