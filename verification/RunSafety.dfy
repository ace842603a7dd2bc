/** The inductive invariant of the run protocol, for every interleaving of
    workers, reclaimers, cancellations and crashes without operator retry. */
module RunSafety {
  import opened Contracts
  import opened Admission
  import opened Tables
  import opened Transactions
  import opened TableInvariant
  import opened RunProtocol
  import MirroredRows

  predicate Stopped(s: RunStatus) { s.CancelRequested? || Terminal(s) }

  /** Statuses only the holder of the settle duty (or of a listed cancellation) sets. */
  predicate Closed(s: RunStatus) {
    s.Succeeded? || s.TimedOut? || s.Lost? || s.Cancelled?
  }

  ghost predicate AnySucceeded(db: Db, r: nat) {
    exists a :: 0 <= a < |db.attempts| && db.attempts[a].stage == r && db.attempts[a].status.Succeeded?
  }

  /** What the tables remember about success and closed runs. */
  ghost predicate History(db: Db)
    requires |db.runs| == |db.stages|
  {
    && (forall a :: 0 <= a < |db.attempts| && db.attempts[a].status.Succeeded? ==> IsLatest(db, a))
    && (forall r :: 0 <= r < |db.runs| && Unclaimed(db.runs[r].status) ==> !AnySucceeded(db, r))
    && (forall r :: 0 <= r < |db.runs| && Closed(db.runs[r].status) ==> !HasLive(db, r))
    && (forall r :: 0 <= r < |db.runs| && db.runs[r].status.Succeeded? ==> AnySucceeded(db, r))
  }

  /** What one actor may rely on. */
  ghost predicate PcOk(db: Db, pc: Pc)
    requires Shaped(db)
  {
    if pc.Done? then true
    else if pc.Cancelling? then
      pc.run < |db.runs| && Stopped(db.runs[pc.run].status) && !HasLive(db, pc.run)
    else
      var a := pc.attempt;
      && a < |db.attempts|
      && (Owes(pc) ==>
            && IsLatest(db, a) && !db.attempts[a].status.Running?
            && !Unclaimed(db.runs[db.attempts[a].stage].status))
      && (pc.Settling? ==> pc.result.Valid() && db.attempts[a].status == AttemptStatusOf(pc.result.status))
      && (pc.Reclaimed? || pc.Resuming? || pc.Losing? ==> db.attempts[a].status.Lost?)
      && (pc.Resuming? ==> Made(db, db.attempts[a].stage) < db.runs[db.attempts[a].stage].task.maxAttempts)
  }

  ghost predicate OwedBy(actors: seq<Pc>, a: nat, k: nat) {
    k < |actors| && Owes(actors[k]) && actors[k].attempt == a
  }

  /** No attempt's settlement is owed twice. */
  ghost predicate OneDuty(actors: seq<Pc>) {
    forall a, k, l :: OwedBy(actors, a, k) && OwedBy(actors, a, l) ==> k == l
  }

  ghost predicate Safe(config: Config, s: State)
    requires config.Valid()
  {
    && Consistent(config, s.db) && History(s.db)
    && (forall k :: 0 <= k < |s.actors| ==> PcOk(s.db, s.actors[k]))
    && OneDuty(s.actors)
  }

  // ---- moving one actor --------------------------------------------------------

  lemma MoveKeeps(config: Config, s: State, k: nat, pc: Pc)
    requires config.Valid() && Safe(config, s) && PcOk(s.db, pc)
    requires Owes(pc) ==> forall l :: OwedBy(s.actors, pc.attempt, l) ==> l == k
    ensures Safe(config, Move(s, k, pc))
  {
    var s' := Move(s, k, pc);
    forall a, i, j | OwedBy(s'.actors, a, i) && OwedBy(s'.actors, a, j) ensures i == j {
      if i != k { assert OwedBy(s.actors, a, i); }
      if j != k { assert OwedBy(s.actors, a, j); }
    }
  }

  lemma SpawnKeeps(config: Config, s: State, pc: Pc)
    requires config.Valid() && Safe(config, s) && PcOk(s.db, pc)
    requires Owes(pc) ==> forall l :: !OwedBy(s.actors, pc.attempt, l)
    ensures Safe(config, s.(actors := s.actors + [pc]))
  {
    var s' := s.(actors := s.actors + [pc]);
    var n := |s.actors|;
    forall a, i, j | OwedBy(s'.actors, a, i) && OwedBy(s'.actors, a, j) ensures i == j {
      if i != n { assert OwedBy(s.actors, a, i); }
      if j != n { assert OwedBy(s.actors, a, j); }
    }
  }

  // ---- moving the tables under the actors' feet ----------------------------------

  ghost predicate NobodyOwes(s: State, r: nat) {
    forall k :: 0 <= k < |s.actors| && Owes(s.actors[k]) ==> RunOf(s.db, s.actors[k].attempt) != r
  }

  /** When may a run's status change while every actor keeps its place? */
  ghost predicate MayMove(s: State, r: nat, status: RunStatus)
    requires r < |s.db.runs|
  {
    && !status.Preparing?
    && (Stopped(s.db.runs[r].status) ==> Stopped(status))
    && (Unclaimed(status) ==>
          && Made(s.db, r) < s.db.runs[r].task.maxAttempts && !HasLive(s.db, r)
          && !AnySucceeded(s.db, r) && NobodyOwes(s, r))
    && (Closed(status) ==> !HasLive(s.db, r))
    && (status.Succeeded? ==> AnySucceeded(s.db, r))
  }

  /** Attempt tables that differ in leases and failure records only. */
  ghost predicate SameAttempts(db: Db, db': Db) {
    && |db.attempts| == |db'.attempts|
    && (forall a :: 0 <= a < |db.attempts| ==>
          && db'.attempts[a].stage == db.attempts[a].stage && db'.attempts[a].number == db.attempts[a].number
          && db'.attempts[a].status == db.attempts[a].status)
  }

  lemma SameAttemptFacts(db: Db, db': Db)
    requires SameAttempts(db, db')
    ensures forall q: nat :: HasLive(db', q) <==> HasLive(db, q)
    ensures forall q: nat :: AnySucceeded(db', q) <==> AnySucceeded(db, q)
    ensures forall q: nat :: Made(db', q) == Made(db, q)
    ensures forall a: nat :: IsLatest(db', a) <==> IsLatest(db, a)
  {
    forall q: nat ensures HasLive(db', q) <==> HasLive(db, q) {
      if HasLive(db, q) {
        var a :| 0 <= a < |db.attempts| && LiveAt(db, q, a);
        assert LiveAt(db', q, a);
      }
      if HasLive(db', q) {
        var a :| 0 <= a < |db'.attempts| && LiveAt(db', q, a);
        assert LiveAt(db, q, a);
      }
    }
    forall q: nat ensures AnySucceeded(db', q) <==> AnySucceeded(db, q) {
      if AnySucceeded(db, q) {
        var b :| 0 <= b < |db.attempts| && db.attempts[b].stage == q && db.attempts[b].status.Succeeded?;
        assert db'.attempts[b].status.Succeeded?;
      }
    }
    forall q: nat ensures Made(db', q) == Made(db, q) {
      CountAgrees(db.attempts, db'.attempts, q, |db.attempts|);
    }
    forall a: nat ensures IsLatest(db', a) <==> IsLatest(db, a) {
      if a < |db.attempts| { assert Made(db', db.attempts[a].stage) == Made(db, db.attempts[a].stage); }
    }
  }

  lemma SetBothSafe(config: Config, s: State, r: nat, status: RunStatus)
    requires config.Valid() && Safe(config, s)
    requires r < |s.db.runs| && MayMove(s, r, status)
    ensures Safe(config, s.(db := SetBoth(s.db, r, status)))
  {
    var db' := SetBoth(s.db, r, status);
    SetBothKeeps(config, s.db, r, status);
    SetBothHistory(s, r, status, db');
    forall k | 0 <= k < |s.actors| ensures PcOk(db', s.actors[k]) {
      SetBothPlaces(s, r, status, db', k);
    }
  }

  lemma SetBothHistory(s: State, r: nat, status: RunStatus, db': Db)
    requires Shaped(s.db) && History(s.db) && r < |s.db.runs| && MayMove(s, r, status)
    requires db' == SetBoth(s.db, r, status)
    ensures History(db')
  {
    SameAttemptFacts(s.db, db');
  }

  lemma SetBothPlaces(s: State, r: nat, status: RunStatus, db': Db, k: nat)
    requires Shaped(s.db) && r < |s.db.runs| && MayMove(s, r, status)
    requires db' == SetBoth(s.db, r, status) && Shaped(db')
    requires k < |s.actors| && PcOk(s.db, s.actors[k])
    ensures PcOk(db', s.actors[k])
  {
    SameAttemptFacts(s.db, db');
  }

  lemma TransitionSafe(config: Config, s: State, r: nat, target: RunStatus)
    requires config.Valid() && Safe(config, s)
    requires r < |s.db.runs| && RunTransitionAllowed(s.db.runs[r].status, target) ==> MayMove(s, r, target)
    ensures Safe(config, s.(db := After(s.db, TransitionRun(s.db, r, target))))
  {
    TransitionMovesBoth(s.db, r, target);
    if r < |s.db.runs| && s.db.runs[r].status == target {
      assert s.(db := s.db) == s;
      assert After(s.db, TransitionRun(s.db, r, target)) == s.db;
    } else if r < |s.db.runs| && RunTransitionAllowed(s.db.runs[r].status, target) {
      SetBothSafe(config, s, r, target);
    } else {
      assert s.(db := s.db) == s;
    }
  }

  /** Ending the running attempt `a` leaves every other actor's facts in place. */
  lemma EndSafe(config: Config, s: State, a: nat, status: AttemptStatus, failure: Option<bool>)
    requires config.Valid() && Safe(config, s)
    requires a < |s.db.attempts| && s.db.attempts[a].status.Running? && !status.Running?
    ensures var s' := s.(db := EndAttempt(s.db, a, status, failure));
            && Safe(config, s') && !HasLive(s'.db, RunOf(s.db, a))
            && IsLatest(s'.db, a) && !Unclaimed(s'.db.runs[RunOf(s.db, a)].status)
            && (forall k :: !OwedBy(s.actors, a, k))
  {
    var db, db' := s.db, EndAttempt(s.db, a, status, failure);
    EndKeeps(config, db, a, status, failure);
    EndHistory(config, db, a, status, failure);
    forall k | 0 <= k < |s.actors| ensures PcOk(db', s.actors[k]) && !OwedBy(s.actors, a, k) {
      assert PcOk(db, s.actors[k]);
      OtherPc(db, db', a, s.actors[k]);
    }
  }

  /** An actor's facts survive a change to an attempt that was running. */
  lemma OtherPc(db: Db, db': Db, a: nat, pc: Pc)
    requires Shaped(db) && Shaped(db') && PcOk(db, pc)
    requires db'.runs == db.runs && |db'.attempts| == |db.attempts|
    requires a < |db.attempts| && db.attempts[a].status.Running? && db'.attempts[a].stage == db.attempts[a].stage
    requires forall b :: 0 <= b < |db.attempts| && b != a ==> db'.attempts[b] == db.attempts[b]
    requires forall q: nat :: HasLive(db', q) ==> HasLive(db, q)
    requires forall q: nat :: Made(db', q) == Made(db, q)
    requires forall b: nat :: IsLatest(db', b) <==> IsLatest(db, b)
    ensures PcOk(db', pc)
    ensures Owes(pc) ==> pc.attempt != a
  {
  }

  lemma EndHistory(config: Config, db: Db, a: nat, status: AttemptStatus, failure: Option<bool>)
    requires config.Valid() && Consistent(config, db) && History(db)
    requires a < |db.attempts| && db.attempts[a].status.Running? && !status.Running?
    ensures var db' := EndAttempt(db, a, status, failure);
            && History(db') && !Unclaimed(db.runs[db.attempts[a].stage].status)
            && (forall q: nat :: HasLive(db', q) ==> HasLive(db, q))
            && (forall q: nat :: Made(db', q) == Made(db, q))
            && (forall b: nat :: IsLatest(db', b) <==> IsLatest(db, b))
  {
    var db' := EndAttempt(db, a, status, failure);
    var r := db.attempts[a].stage;
    RowUpdateKeepsCounts(db, db', a);
    assert LiveAt(db, r, a) && HasLive(db, r);
    forall q: nat | HasLive(db', q) ensures HasLive(db, q) {
      var b :| 0 <= b < |db'.attempts| && LiveAt(db', q, b);
      assert LiveAt(db, q, b);
    }
    forall q: nat | q != r && AnySucceeded(db', q) ensures AnySucceeded(db, q) {
      var b :| 0 <= b < |db'.attempts| && db'.attempts[b].stage == q && db'.attempts[b].status.Succeeded?;
      assert db'.attempts[b] == db.attempts[b];
    }
    forall q: nat | AnySucceeded(db, q) ensures AnySucceeded(db', q) {
      var b :| 0 <= b < |db.attempts| && db.attempts[b].stage == q && db.attempts[b].status.Succeeded?;
      assert db'.attempts[b] == db.attempts[b];
    }
    forall b | 0 <= b < |db'.attempts| && db'.attempts[b].status.Succeeded? ensures IsLatest(db', b) {
      assert b == a || db'.attempts[b] == db.attempts[b];
    }
  }

  lemma ClaimSafe(config: Config, s: State, r: nat, worker: string, lease: int)
    requires config.Valid() && Safe(config, s) && Claimable(config, s.db, r)
    ensures Safe(config, s.(db := Claimed(config, s.db, r, worker, lease)))
  {
    var db, db' := s.db, Claimed(config, s.db, r, worker, lease);
    ClaimedKeeps(config, db, r, worker, lease);
    ClaimedHistory(config, db, r, worker, lease);
    forall k | 0 <= k < |s.actors| ensures PcOk(db', s.actors[k]) {
      assert PcOk(db, s.actors[k]);
    }
  }

  /** A claim changes nothing that is remembered about other runs. */
  lemma ClaimedHistory(config: Config, db: Db, r: nat, worker: string, lease: int)
    requires config.Valid() && Consistent(config, db) && History(db) && Claimable(config, db, r)
    ensures var db' := Claimed(config, db, r, worker, lease);
            && Shaped(db') && History(db')
            && (forall q: nat | q != r :: HasLive(db', q) <==> HasLive(db, q))
            && (forall q: nat | q != r :: Made(db', q) == Made(db, q))
            && (forall b: nat | b < |db.attempts| && db.attempts[b].stage != r :: IsLatest(db', b) <==> IsLatest(db, b))
  {
    var db' := Claimed(config, db, r, worker, lease);
    ClaimedCounts(config, db, r, worker, lease);
    forall b: nat | b < |db.attempts| && db.attempts[b].stage != r ensures IsLatest(db', b) <==> IsLatest(db, b) {
      assert db'.attempts[b] == db.attempts[b];
      assert Made(db', db.attempts[b].stage) == Made(db, db.attempts[b].stage);
    }
    forall q: nat ensures AnySucceeded(db', q) <==> AnySucceeded(db, q) {
      if AnySucceeded(db', q) {
        var b :| 0 <= b < |db'.attempts| && db'.attempts[b].stage == q && db'.attempts[b].status.Succeeded?;
        assert db'.attempts[b] == db.attempts[b];
      }
      if AnySucceeded(db, q) {
        var b :| 0 <= b < |db.attempts| && db.attempts[b].stage == q && db.attempts[b].status.Succeeded?;
        assert db'.attempts[b] == db.attempts[b];
      }
    }
    forall b | 0 <= b < |db'.attempts| && db'.attempts[b].status.Succeeded? ensures IsLatest(db', b) {
      assert b < |db.attempts| && db'.attempts[b] == db.attempts[b];
      assert AnySucceeded(db, db.attempts[b].stage);
    }
  }

  /** Two tables that tell the same story about runs and attempts. */
  ghost predicate SameStory(db: Db, db': Db) {
    && |db.runs| <= |db'.runs| && SameAttempts(db, db')
    && (forall r :: 0 <= r < |db.runs| ==> db'.runs[r] == db.runs[r])
    && (forall r :: |db.runs| <= r < |db'.runs| ==> db'.runs[r].status.Queued?)
  }

  lemma SameStorySafe(config: Config, s: State, db': Db)
    requires config.Valid() && Safe(config, s) && Consistent(config, db') && SameStory(s.db, db')
    ensures Safe(config, s.(db := db'))
  {
    var db := s.db;
    SameAttemptFacts(db, db');
    forall r | |db.runs| <= r < |db'.runs| ensures !AnySucceeded(db', r) { }
    forall k | 0 <= k < |s.actors| ensures PcOk(db', s.actors[k]) {
      assert PcOk(db, s.actors[k]);
    }
  }

  lemma BeatSafe(config: Config, s: State, a: nat, worker: string, now: int, leaseSeconds: int)
    requires config.Valid() && Safe(config, s)
    ensures Safe(config, s.(db := After(s.db, Heartbeat(s.db, a, worker, now, leaseSeconds))))
  {
    HeartbeatKeeps(config, s.db, a, worker, now, leaseSeconds);
    SameStorySafe(config, s, After(s.db, Heartbeat(s.db, a, worker, now, leaseSeconds)));
  }

  lemma SubmitSafe(config: Config, s: State, c: Catalog, submission: Submission)
    requires config.Valid() && Safe(config, s)
    ensures Safe(config, s.(db := After(s.db, SubmitRun(s.db, c, submission))))
  {
    SubmitKeeps(config, s.db, c, submission);
    SameStorySafe(config, s, After(s.db, SubmitRun(s.db, c, submission)));
  }

  // ---- every step ------------------------------------------------------------

  /** An actor ends a running attempt and takes over the duty to settle its run. */
  lemma EndAndMove(config: Config, s: State, k: nat, a: nat, status: AttemptStatus, failure: Option<bool>, pc: Pc)
    requires config.Valid() && Safe(config, s)
    requires a < |s.db.attempts| && s.db.attempts[a].status.Running? && !status.Running?
    requires pc == FailChecking(a, true) ||
             (pc.Settling? && pc.attempt == a && pc.result.Valid() && status == AttemptStatusOf(pc.result.status))
    ensures Safe(config, Move(s.(db := EndAttempt(s.db, a, status, failure)), k, pc))
  {
    EndSafe(config, s, a, status, failure);
    MoveKeeps(config, s.(db := EndAttempt(s.db, a, status, failure)), k, pc);
  }

  lemma StepFinish(config: Config, s: State, k: nat, result: Result)
    requires config.Valid() && Safe(config, s)
    ensures Safe(config, DoFinish(s, k, result))
  {
    if k < |s.actors| && s.actors[k].Executing? && result.Valid() {
      var a := s.actors[k].attempt;
      assert PcOk(s.db, s.actors[k]);
      if s.db.attempts[a].status.Running? {
        EndAndMove(config, s, k, a, AttemptStatusOf(result.status), result.failure, Settling(a, result));
      } else {
        MoveKeeps(config, s, k, Failing(a, false));
      }
    }
  }

  lemma StepFault(config: Config, s: State, k: nat)
    requires config.Valid() && Safe(config, s)
    ensures Safe(config, DoFault(s, k))
  {
    if k < |s.actors| {
      var pc := s.actors[k];
      assert PcOk(s.db, pc);
      if pc.Executing? { MoveKeeps(config, s, k, Failing(pc.attempt, false)); }
      if pc.Settling? {
        assert OwedBy(s.actors, pc.attempt, k);
        MoveKeeps(config, s, k, Failing(pc.attempt, true));
      }
    }
  }

  lemma StepFailAttempt(config: Config, s: State, k: nat)
    requires config.Valid() && Safe(config, s)
    ensures Safe(config, DoFailAttempt(s, k))
  {
    if k < |s.actors| && s.actors[k].Failing? {
      var Failing(a, owes) := s.actors[k];
      assert PcOk(s.db, s.actors[k]);
      assert owes ==> OwedBy(s.actors, a, k);
      if s.db.attempts[a].status.Running? {
        EndAndMove(config, s, k, a, AttemptStatus.Failed, Some(false), FailChecking(a, true));
      } else {
        MoveKeeps(config, s, k, FailChecking(a, owes));
      }
    }
  }

  lemma StepFailCheck(config: Config, s: State, k: nat)
    requires config.Valid() && Safe(config, s)
    ensures Safe(config, DoFailCheck(s, k))
  {
    if k < |s.actors| && s.actors[k].FailChecking? {
      var FailChecking(a, owes) := s.actors[k];
      assert PcOk(s.db, s.actors[k]);
      assert owes ==> OwedBy(s.actors, a, k);
      MoveKeeps(config, s, k, FailSettling(a, owes));
      MoveKeeps(config, s, k, Done);
    }
  }

  /** An actor that moves the run of its attempt and is then done. */
  lemma LeaveAndTransition(config: Config, s: State, k: nat, r: nat, target: RunStatus)
    requires config.Valid() && Safe(config, s)
    requires r < |s.db.runs| ==> MayMove(Move(s, k, Done), r, target)
    ensures Safe(config, MoveRun(s, k, r, target))
  {
    MoveKeeps(config, s, k, Done);
    TransitionSafe(config, Move(s, k, Done), r, target);
    assert Move(s, k, Done).(db := After(s.db, TransitionRun(s.db, r, target)))
        == MoveRun(s, k, r, target);
  }

  lemma StepFailRun(config: Config, s: State, k: nat)
    requires config.Valid() && Safe(config, s)
    ensures Safe(config, DoFailRun(s, k))
  {
    if k < |s.actors| && s.actors[k].FailSettling? {
      LeaveAndTransition(config, s, k, RunOf(s.db, s.actors[k].attempt), RunStatus.Failed);
    }
  }

  /** The duty holder's attempt is the latest, so nothing of its run is running. */
  lemma DutyMeansIdle(config: Config, s: State, k: nat)
    requires config.Valid() && Safe(config, s) && k < |s.actors| && Owes(s.actors[k])
    ensures !HasLive(s.db, RunOf(s.db, s.actors[k].attempt))
    ensures RunOf(s.db, s.actors[k].attempt) < |s.db.runs|
    ensures forall l :: 0 <= l < |s.actors| && l != k && Owes(s.actors[l]) ==>
              RunOf(s.db, s.actors[l].attempt) != RunOf(s.db, s.actors[k].attempt)
  {
    var a := s.actors[k].attempt;
    assert PcOk(s.db, s.actors[k]);
    var r := s.db.attempts[a].stage;
    if HasLive(s.db, r) {
      var b :| 0 <= b < |s.db.attempts| && LiveAt(s.db, r, b);
      LatestIsUnique(s.db, a, b);
    }
    forall l | 0 <= l < |s.actors| && l != k && Owes(s.actors[l]) ensures RunOf(s.db, s.actors[l].attempt) != r {
      assert PcOk(s.db, s.actors[l]);
      if RunOf(s.db, s.actors[l].attempt) == r {
        LatestIsUnique(s.db, a, s.actors[l].attempt);
        assert OwedBy(s.actors, a, k) && OwedBy(s.actors, a, l);
      }
    }
  }

  lemma StepLose(config: Config, s: State, k: nat)
    requires config.Valid() && Safe(config, s)
    ensures Safe(config, DoLose(s, k))
  {
    if k < |s.actors| && s.actors[k].Losing? {
      DutyMeansIdle(config, s, k);
      LeaveAndTransition(config, s, k, RunOf(s.db, s.actors[k].attempt), RunStatus.Lost);
    }
  }

  lemma StepSettleCancellation(config: Config, s: State, k: nat)
    requires config.Valid() && Safe(config, s)
    ensures Safe(config, DoSettleCancellation(s, k))
  {
    if k < |s.actors| && s.actors[k].Cancelling? {
      assert PcOk(s.db, s.actors[k]);
      LeaveAndTransition(config, s, k, s.actors[k].run, Cancelled);
    }
  }

  /** A latest attempt that did not succeed means no attempt of its run did. */
  lemma NoneSucceeded(db: Db, a: nat)
    requires |db.runs| == |db.stages| && Numbered(db) && History(db) && IsLatest(db, a)
    requires !db.attempts[a].status.Succeeded?
    ensures !AnySucceeded(db, db.attempts[a].stage)
  {
    if AnySucceeded(db, db.attempts[a].stage) {
      var b :| 0 <= b < |db.attempts| && db.attempts[b].stage == db.attempts[a].stage && db.attempts[b].status.Succeeded?;
      LatestIsUnique(db, a, b);
    }
  }

  /** The duty holder returns the run to the queue and is done. */
  lemma LeaveAndRequeue(config: Config, s: State, k: nat)
    requires config.Valid() && Safe(config, s) && k < |s.actors| && Owes(s.actors[k])
    requires var a := s.actors[k].attempt;
             && a < |s.db.attempts| && !s.db.attempts[a].status.Succeeded?
             && s.db.attempts[a].stage < |s.db.runs|
             && Made(s.db, s.db.attempts[a].stage) < s.db.runs[s.db.attempts[a].stage].task.maxAttempts
    ensures var t := ScheduleRetry(s.db, RunOf(s.db, s.actors[k].attempt));
            t.Committed? ==> Safe(config, Move(s.(db := t.db), k, Done))
  {
    var a := s.actors[k].attempt;
    var r := s.db.attempts[a].stage;
    assert PcOk(s.db, s.actors[k]);
    DutyMeansIdle(config, s, k);
    NoneSucceeded(s.db, a);
    ScheduleRetryKeeps(config, s.db, r);
    if ScheduleRetry(s.db, r).Committed? {
      var s1 := Move(s, k, Done);
      MoveKeeps(config, s, k, Done);
      assert NobodyOwes(s1, r);
      SetBothSafe(config, s1, r, RetryWait);
      assert s1.(db := SetBoth(s.db, r, RetryWait)) == Move(s.(db := ScheduleRetry(s.db, r).db), k, Done);
    }
  }

  lemma StepSettle(config: Config, s: State, k: nat)
    requires config.Valid() && Safe(config, s)
    ensures Safe(config, DoSettle(s, k))
  {
    if k < |s.actors| && s.actors[k].Settling? {
      var Settling(a, result) := s.actors[k];
      assert PcOk(s.db, s.actors[k]);
      DutyMeansIdle(config, s, k);
      assert OwedBy(s.actors, a, k);
      var r := s.db.attempts[a].stage;
      if SettleRun(s.db, a, result).Refused? {
        MoveKeeps(config, s, k, Failing(a, true));
      } else if ShouldRetry(result, s.db.attempts[a].number, s.db.runs[r].task.maxAttempts) {
        LeaveAndRequeue(config, s, k);
      } else {
        LeaveAndTransition(config, s, k, r, result.status);
      }
    }
  }

  lemma StepResume(config: Config, s: State, k: nat)
    requires config.Valid() && Safe(config, s)
    ensures Safe(config, DoResume(s, k))
  {
    if k < |s.actors| && s.actors[k].Resuming? {
      assert PcOk(s.db, s.actors[k]);
      assert OwedBy(s.actors, s.actors[k].attempt, k);
      LeaveAndRequeue(config, s, k);
      MoveKeeps(config, s, k, Losing(s.actors[k].attempt));
    }
  }

  lemma StepWeigh(config: Config, s: State, k: nat)
    requires config.Valid() && Safe(config, s)
    ensures Safe(config, DoWeigh(s, k))
  {
    if k < |s.actors| && s.actors[k].Reclaimed? {
      var a := s.actors[k].attempt;
      assert PcOk(s.db, s.actors[k]);
      assert OwedBy(s.actors, a, k);
      MoveKeeps(config, s, k, if HasRoomToResume(s.db, RunOf(s.db, a)) then Resuming(a) else Losing(a));
    }
  }

  lemma EndAndSpawn(config: Config, s: State, a: nat)
    requires config.Valid() && Safe(config, s)
    requires a < |s.db.attempts| && s.db.attempts[a].status.Running?
    ensures Safe(config, State(EndAttempt(s.db, a, AttemptStatus.Lost, Some(true)), s.actors + [Reclaimed(a)]))
  {
    EndSafe(config, s, a, AttemptStatus.Lost, Some(true));
    SpawnKeeps(config, s.(db := EndAttempt(s.db, a, AttemptStatus.Lost, Some(true))), Reclaimed(a));
  }

  lemma StepReclaim(config: Config, s: State, a: nat, reference: int, gone: bool)
    requires config.Valid() && Safe(config, s)
    ensures Safe(config, DoReclaim(s, a, reference, gone))
  {
    if a < |s.db.attempts| && s.db.attempts[a].status.Running? { EndAndSpawn(config, s, a); }
  }

  lemma StepCancel(config: Config, s: State, r: nat)
    requires config.Valid() && Safe(config, s)
    ensures Safe(config, s.(db := After(s.db, RequestCancel(s.db, r))))
  {
    TransitionSafe(config, s, r, CancelRequested);
    assert s.(db := s.db) == s;
  }

  lemma StepListCancellation(config: Config, s: State, r: nat)
    requires config.Valid() && Safe(config, s)
    ensures Safe(config, DoListCancellation(s, r))
  {
    if Abandoned(s.db, r) { SpawnKeeps(config, s, Cancelling(r)); }
  }

  lemma StepClaim(config: Config, s: State, r: nat, worker: string, now: int, leaseSeconds: int)
    requires config.Valid() && Safe(config, s)
    ensures Safe(config, DoClaim(config, s, r, worker, now, leaseSeconds))
  {
    StartEffect(config, s.db, r, worker, now, leaseSeconds);
    if 0 < leaseSeconds && Claimable(config, s.db, r) {
      ClaimSafe(config, s, r, worker, now + leaseSeconds);
      SpawnKeeps(config, s.(db := Claimed(config, s.db, r, worker, now + leaseSeconds)), Executing(|s.db.attempts|));
    }
  }

  lemma StepFailQueued(config: Config, s: State, r: nat)
    requires config.Valid() && Safe(config, s)
    ensures Safe(config, s.(db := After(s.db, FailQueuedRun(s.db, r))))
  {
    if r < |s.db.runs| && Unclaimed(s.db.runs[r].status) {
      SetBothSafe(config, s, r, RunStatus.Failed);
    } else {
      assert s.(db := s.db) == s;
    }
  }

  /** Every step without an operator retry keeps the protocol safe. */
  lemma StepKeepsSafe(config: Config, s: State, action: Action)
    requires config.Valid() && Safe(config, s) && !action.OperatorRetry?
    ensures Safe(config, Step(config, s, action))
  {
    match action
    case Submit(_, _) => RequestKeepsSafe(config, s, action);
    case Cancel(_) => RequestKeepsSafe(config, s, action);
    case FailQueued(_) => RequestKeepsSafe(config, s, action);
    case ClaimRun(_, _, _, _) => RequestKeepsSafe(config, s, action);
    case Beat(_, _, _, _) => RequestKeepsSafe(config, s, action);
    case Reclaim(_, _, _) => RequestKeepsSafe(config, s, action);
    case ListCancellation(_) => RequestKeepsSafe(config, s, action);
    case _ => ActorKeepsSafe(config, s, action);
  }

  /** Steps that no standing actor takes: requests, claims, and new duties. */
  predicate Requests(action: Action) {
    || action.Submit? || action.Cancel? || action.FailQueued? || action.ClaimRun? || action.Beat?
    || action.Reclaim? || action.ListCancellation?
  }

  lemma RequestKeepsSafe(config: Config, s: State, action: Action)
    requires config.Valid() && Safe(config, s) && Requests(action)
    ensures Safe(config, Step(config, s, action))
  {
    match action
    case Submit(c, submission) => SubmitSafe(config, s, c, submission);
    case Cancel(r) => StepCancel(config, s, r);
    case FailQueued(r) => StepFailQueued(config, s, r);
    case ClaimRun(r, worker, now, lease) => StepClaim(config, s, r, worker, now, lease);
    case Beat(a, worker, now, lease) => BeatSafe(config, s, a, worker, now, lease);
    case Reclaim(a, reference, gone) => StepReclaim(config, s, a, reference, gone);
    case ListCancellation(r) => StepListCancellation(config, s, r);
  }

  lemma ActorKeepsSafe(config: Config, s: State, action: Action)
    requires config.Valid() && Safe(config, s) && !Requests(action) && !action.OperatorRetry?
    ensures Safe(config, Step(config, s, action))
  {
    match action
    case Finish(k, result) => StepFinish(config, s, k, result);
    case Fault(k) => StepFault(config, s, k);
    case Settle(k) => StepSettle(config, s, k);
    case FailAttempt(k) => StepFailAttempt(config, s, k);
    case FailCheck(k) => StepFailCheck(config, s, k);
    case FailRun(k) => StepFailRun(config, s, k);
    case Weigh(k) => StepWeigh(config, s, k);
    case Resume(k) => StepResume(config, s, k);
    case Lose(k) => StepLose(config, s, k);
    case SettleCancellation(k) => StepSettleCancellation(config, s, k);
    case Crash(k) => MoveKeeps(config, s, k, Done);
  }

  /** Safety over whole runs: every reachable state is safe. */
  lemma {:induction false} ReachableIsSafe(config: Config, actions: seq<Action>)
    requires config.Valid() && Unassisted(actions)
    ensures Safe(config, Run(config, START, actions))
  {
    if actions == [] {
      EmptyIsConsistent(config);
    } else {
      var before := actions[..|actions| - 1];
      ReachableIsSafe(config, before);
      StepKeepsSafe(config, Run(config, START, before), actions[|actions| - 1]);
    }
  }

  /** Safety includes what holds in every history. */
  lemma SafeIsPlaced(config: Config, s: State)
    requires config.Valid() && Safe(config, s)
    ensures MirroredRows.Placed(s)
  {
    forall k | 0 <= k < |s.actors| && !s.actors[k].Done? && !s.actors[k].Cancelling?
      ensures s.actors[k].attempt < |s.db.attempts|
      ensures s.actors[k].Settling? ==> s.actors[k].result.Valid()
    {
      assert PcOk(s.db, s.actors[k]);
    }
  }
}
