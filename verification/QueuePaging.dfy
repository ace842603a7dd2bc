/** Paging over a queue that one's own work shortens.  The worker reads the second page
    of the waiting queue after it has tried the first; which runs have left by then can
    be told beforehand, and as many others are skipped. */
module QueuePaging {
  import opened Contracts
  import opened Admission
  import opened Tables
  import opened Transactions
  import opened TableInvariant
  import opened RunProtocol
  import opened AtomicProtocol
  import opened WorkerCycle

  // ---- which runs leave the queue --------------------------------------------------

  /** The attempt would report a retryable failure with budget left. */
  predicate Requeues(db: Db, r: nat, fate: Fate)
    requires r < |db.runs|
  {
    fate.Reports? && ShouldRetry(fate.result, Made(db, r) + 1, db.runs[r].task.maxAttempts)
  }

  /** Told from the tables before the walk: the run cannot be resolved, or it can be
      started now and its attempt does not send it back. */
  ghost predicate Leaves(terms: Terms, db: Db, r: nat, chance: Chance)
    requires terms.config.Valid() && r < |db.runs|
  {
    chance.fate.Unresolvable? || (Claimable(terms.config, db, r) && !Requeues(db, r, chance.fate))
  }

  /** A waiting run that does not fit is left alone. */
  lemma BlockedTurn(terms: Terms, t: Tally, r: nat, chance: Chance)
    requires terms.config.Valid() && Sound(terms.config, t.db) && 0 < terms.leaseSeconds && WaitingRow(t.db, r)
    requires !Claimable(terms.config, t.db, r) && !chance.fate.Unresolvable?
    ensures Turn(terms, t, r, chance) == t
  {
  }

  /** What a started attempt makes of its run. */
  lemma PlayedStatus(db: Db, a: nat, fate: Fate, r: nat, db': Db)
    requires (fate.Reports? ==> fate.result.Valid()) && r < |db.runs| && r < |db.stages| && db' == Played(db, a, fate)
    requires LiveAt(db, r, a) && db.runs[r].status.Running? && db.stages[r].status.Running?
    ensures r < |db'.runs|
    ensures Unclaimed(db'.runs[r].status) <==>
            fate.Reports? && ShouldRetry(fate.result, db.attempts[a].number, db.runs[r].task.maxAttempts)
  {
    if fate.Reports? { ConcludedStatus(db, a, fate.result, r); } else { FailedStatus(db, a, r); }
  }

  lemma FailedStatus(db: Db, a: nat, r: nat)
    requires r < |db.runs| && a < |db.attempts| && db.attempts[a].stage == r && db.runs[r].status.Running?
    ensures |RecordFailure(db, a).runs| == |db.runs| && RecordFailure(db, a).runs[r].status.Failed?
  {
  }

  lemma ConcludedStatus(db: Db, a: nat, result: Result, r: nat)
    requires result.Valid() && r < |db.runs| && r < |db.stages|
    requires LiveAt(db, r, a) && db.runs[r].status.Running? && db.stages[r].status.Running?
    ensures var db' := Conclude(db, a, result);
            && r < |db'.runs|
            && (Unclaimed(db'.runs[r].status) <==>
                  ShouldRetry(result, db.attempts[a].number, db.runs[r].task.maxAttempts))
  {
    var ended := EndAttempt(db, a, AttemptStatusOf(result.status), result.failure);
    FailedStatus(ended, a, r);
    SettledStatus(ended, a, result, r);
  }

  lemma SettledStatus(db: Db, a: nat, result: Result, r: nat)
    requires result.Valid() && r < |db.runs| && r < |db.stages| && a < |db.attempts| && db.attempts[a].stage == r
    requires db.runs[r].status.Running? && db.stages[r].status.Running?
    ensures var t := SettleRun(db, a, result);
            if ShouldRetry(result, db.attempts[a].number, db.runs[r].task.maxAttempts)
            then t.Committed? && r < |t.db.runs| && t.db.runs[r].status.RetryWait?
            else t.Committed? ==> r < |t.db.runs| && t.db.runs[r].status == result.status
  {
  }

  lemma RefusedTurn(terms: Terms, t: Tally, r: nat, chance: Chance)
    requires terms.config.Valid() && WaitingRow(t.db, r) && chance.fate.Unresolvable? && !t.db.runs[r].status.Running?
    ensures !WaitingRow(Turn(terms, t, r, chance).db, r)
  {
  }

  lemma OwnTurn(terms: Terms, t: Tally, r: nat, chance: Chance, t': Tally)
    requires terms.config.Valid() && Sound(terms.config, t.db) && chance.Valid() && 0 < terms.leaseSeconds
    requires WaitingRow(t.db, r) && t' == Turn(terms, t, r, chance)
    ensures WaitingRow(t'.db, r) <==> !Leaves(terms, t.db, r, chance)
  {
    TurnDoes(terms, t, r, chance, t');
    WaitingIs(terms.config, t.db, r);
    WaitingIs(terms.config, t'.db, r);
    if chance.fate.Unresolvable? {
      RefusedTurn(terms, t, r, chance);
    } else if Claimable(terms.config, t.db, r) {
      var db1 := Claimed(terms.config, t.db, r, terms.worker, chance.now + terms.leaseSeconds);
      TurnStarts(terms, t, r, chance, db1);
      PlayedStatus(db1, |t.db.attempts|, chance.fate, r, t'.db);
    } else {
      BlockedTurn(terms, t, r, chance);
    }
  }

  // ---- what a turn leaves for the others ------------------------------------------------

  /** Everything that decides whether run `q` leaves. */
  ghost predicate Standing(db: Db, db': Db, q: nat) {
    && |db'.runs| == |db.runs| && |db'.stages| == |db.stages|
    && (q < |db.runs| ==> db'.runs[q] == db.runs[q]) && (q < |db.stages| ==> db'.stages[q] == db.stages[q])
    && Made(db', q) == Made(db, q)
    && db'.reservations == db.reservations
    && CpuSum(db'.reservations, |db'.attempts|) == CpuSum(db.reservations, |db.attempts|)
    && MemorySum(db'.reservations, |db'.attempts|) == MemorySum(db.reservations, |db.attempts|)
  }

  lemma SameStandingSameFate(terms: Terms, db: Db, db': Db, q: nat, chance: Chance)
    requires terms.config.Valid() && q < |db.runs| && Standing(db, db', q)
    ensures WaitingRow(db', q) <==> WaitingRow(db, q)
    ensures Leaves(terms, db', q, chance) <==> Leaves(terms, db, q, chance)
  {
  }

  /** Only the rows of run `r` differ. */
  ghost predicate MovesOwn(db: Db, db': Db, r: nat) {
    && |db'.runs| == |db.runs| && |db'.stages| == |db.stages|
    && db'.attempts == db.attempts && db'.reservations == db.reservations
    && (forall q :: 0 <= q < |db.runs| && q != r ==> db'.runs[q] == db.runs[q])
    && (forall q :: 0 <= q < |db.stages| && q != r ==> db'.stages[q] == db.stages[q])
  }

  lemma TransitionMovesOwn(db: Db, r: nat, target: RunStatus)
    ensures MovesOwn(db, After(db, TransitionRun(db, r, target)), r)
  {
  }

  lemma RequeueMovesOwn(db: Db, r: nat)
    ensures MovesOwn(db, After(db, ScheduleRetry(db, r)), r)
  {
  }

  function Ended(db: Db, a: nat, fate: Fate): Db
    requires a < |db.attempts|
  {
    if fate.Reports? then EndAttempt(db, a, AttemptStatusOf(fate.result.status), fate.result.failure)
    else EndAttempt(db, a, AttemptStatus.Failed, Some(false))
  }

  /** Once the attempt has ended, only its own run is moved. */
  lemma PlayedMovesOwn(db: Db, a: nat, fate: Fate, db': Db)
    requires a < |db.attempts| && db.attempts[a].status.Running? && db' == Played(db, a, fate)
    ensures MovesOwn(Ended(db, a, fate), db', db.attempts[a].stage)
  {
    var ended, r := Ended(db, a, fate), db.attempts[a].stage;
    TransitionMovesOwn(ended, r, RunStatus.Failed);
    RequeueMovesOwn(ended, r);
    if fate.Reports? { TransitionMovesOwn(ended, r, fate.result.status); }
  }

  lemma StartedKeepsStanding(config: Config, db: Db, r: nat, worker: string, lease: int, db1: Db, fate: Fate, db': Db, q: nat)
    requires config.Valid() && Shaped(db) && ReservedExactly(config, db) && r < |db.runs| && q != r
    requires db1 == Claimed(config, db, r, worker, lease) && db' == Played(db1, |db.attempts|, fate)
    ensures Standing(db, db', q)
  {
    var n := |db.attempts|;
    PlayedMovesOwn(db1, n, fate, db');
    CountAgrees(db.attempts, db'.attempts, q, n);
    StartedReleases(config, db, db1, Ended(db1, n, fate), Effective(config, db.runs[r].task));
  }

  /** What the claim reserved is released when its attempt ends. */
  lemma StartedReleases(config: Config, db: Db, db1: Db, ended: Db, want: Reservation)
    requires config.Valid() && Shaped(db) && ReservedExactly(config, db)
    requires db1.reservations == db.reservations[|db.attempts| := want]
    requires ended.reservations == db1.reservations - {|db.attempts|}
    ensures ended.reservations == db.reservations
    ensures CpuSum(db.reservations, |db.attempts| + 1) == CpuSum(db.reservations, |db.attempts|)
    ensures MemorySum(db.reservations, |db.attempts| + 1) == MemorySum(db.reservations, |db.attempts|)
  {
    assert |db.attempts| !in db.reservations;
  }

  lemma TurnKeepsStanding(terms: Terms, t: Tally, r: nat, chance: Chance, t': Tally, q: nat)
    requires terms.config.Valid() && Sound(terms.config, t.db) && chance.Valid() && 0 < terms.leaseSeconds
    requires t' == Turn(terms, t, r, chance) && q != r
    ensures Standing(t.db, t'.db, q)
  {
    if Claimable(terms.config, t.db, r) && !chance.fate.Unresolvable? {
      var lease := chance.now + terms.leaseSeconds;
      var db1 := Claimed(terms.config, t.db, r, terms.worker, lease);
      TurnStarts(terms, t, r, chance, db1);
      StartedKeepsStanding(terms.config, t.db, r, terms.worker, lease, db1, chance.fate, t'.db, q);
    } else {
      TurnSkips(terms, t, r, chance, t');
      SkippedKeepsStanding(t.db, t'.db, r, q);
    }
  }

  lemma SkippedKeepsStanding(db: Db, db': Db, r: nat, q: nat)
    requires q != r && (db' == db || db' == After(db, FailQueuedRun(db, r)))
    ensures Standing(db, db', q)
  {
  }

  lemma {:induction false} TurnsKeepStanding(terms: Terms, db: Db, tried: seq<nat>, chances: nat -> Chance, q: nat)
    requires terms.config.Valid() && Alone(terms, db, chances) && q !in tried
    ensures Standing(db, Turns(terms, db, tried, chances).db, q)
  {
    if tried != [] {
      var n := |tried| - 1;
      TurnsKeepStanding(terms, db, tried[..n], chances, q);
      TurnsDo(terms, db, tried[..n], chances);
      TurnKeepsStanding(terms, Turns(terms, db, tried[..n], chances), tried[n], chances(n), Turns(terms, db, tried, chances), q);
    }
  }

  /** The run whose turn it is, after any others had theirs. */
  lemma LastTurn(terms: Terms, db: Db, tried: seq<nat>, chances: nat -> Chance, t: Tally, r: nat, t': Tally)
    requires terms.config.Valid() && Alone(terms, db, chances) && r !in tried && WaitingRow(db, r)
    requires t == Turns(terms, db, tried, chances) && t' == Turn(terms, t, r, chances(|tried|))
    ensures WaitingRow(t'.db, r) <==> !Leaves(terms, db, r, chances(|tried|))
  {
    TurnsDo(terms, db, tried, chances);
    TurnsKeepStanding(terms, db, tried, chances, r);
    SameStandingSameFate(terms, db, t.db, r, chances(|tried|));
    OwnTurn(terms, t, r, chances(|tried|), t');
  }

  lemma OtherTurn(terms: Terms, db: Db, tried: seq<nat>, chances: nat -> Chance, t: Tally, r: nat, t': Tally, q: nat)
    requires terms.config.Valid() && Alone(terms, db, chances) && q != r
    requires t == Turns(terms, db, tried, chances) && t' == Turn(terms, t, r, chances(|tried|))
    ensures WaitingRow(t'.db, q) <==> WaitingRow(t.db, q)
  {
    TurnsDo(terms, db, tried, chances);
    TurnShrinksQueue(terms, t, r, chances(|tried|), q);
  }

  /** After the walk a tried run waits if and only if it was not bound to leave. */
  lemma {:induction false} WaitsAfter(terms: Terms, db: Db, tried: seq<nat>, chances: nat -> Chance, i: nat, t': Tally)
    requires terms.config.Valid() && Alone(terms, db, chances) && i < |tried|
    requires forall x, y :: 0 <= x < y < |tried| ==> tried[x] != tried[y]
    requires WaitingRow(db, tried[i]) && t' == Turns(terms, db, tried, chances)
    ensures WaitingRow(t'.db, tried[i]) <==> !Leaves(terms, db, tried[i], chances(i))
    decreases |tried|
  {
    var n := |tried| - 1;
    var t := Turns(terms, db, tried[..n], chances);
    if i < n {
      WaitsAfter(terms, db, tried[..n], chances, i, t);
      OtherTurn(terms, db, tried[..n], chances, t, tried[n], t', tried[i]);
    } else {
      LastTurn(terms, db, tried[..n], chances, t, tried[n], t');
    }
  }

  // ---- the queue after some tries ------------------------------------------------------

  lemma {:induction false} TurnsLeaveOthers(terms: Terms, db: Db, tried: seq<nat>, chances: nat -> Chance, q: nat)
    requires terms.config.Valid() && Alone(terms, db, chances) && q !in tried
    ensures WaitingRow(Turns(terms, db, tried, chances).db, q) <==> WaitingRow(db, q)
  {
    if tried != [] {
      var n := |tried| - 1;
      TurnsLeaveOthers(terms, db, tried[..n], chances, q);
      TurnsDo(terms, db, tried[..n], chances);
      TurnShrinksQueue(terms, Turns(terms, db, tried[..n], chances), tried[n], chances(n), q);
    }
  }

  /** The runs before a queue entry are the queue before it. */
  lemma {:induction false} QueueBefore(db: Db, n: nat, i: nat)
    requires i < |Queue(db, n)|
    ensures Queue(db, n)[i] < n && Queue(db, Queue(db, n)[i]) == Queue(db, n)[..i]
  {
    if i < |Queue(db, n - 1)| { QueueBefore(db, n - 1, i); }
  }

  /** Where two tables agree from run `k` on, so do their queues behind it. */
  lemma {:induction false} QueueTail(db: Db, db': Db, k: nat, n: nat)
    requires k <= n && forall r: nat :: k <= r < n ==> (WaitingRow(db', r) <==> WaitingRow(db, r))
    ensures |Queue(db, k)| <= |Queue(db, n)|
    ensures Queue(db', n) == Queue(db', k) + Queue(db, n)[|Queue(db, k)|..]
  {
    if k < n { QueueTail(db, db', k, n - 1); }
  }

  /** Which of the first `m` entries are bound to leave, each at its turn. */
  ghost function Leaving(terms: Terms, db: Db, queue: seq<nat>, chances: nat -> Chance, m: nat): (gone: seq<bool>)
    requires terms.config.Valid() && m <= |queue| && forall i :: 0 <= i < |queue| ==> queue[i] < |db.runs|
    ensures |gone| == m && forall i :: 0 <= i < m ==> gone[i] == Leaves(terms, db, queue[i], chances(i))
  {
    seq(m, i requires 0 <= i < m => Leaves(terms, db, queue[i], chances(i)))
  }

  function Trues(flags: seq<bool>, n: nat): (c: nat)
    requires n <= |flags|
    ensures c <= n && (c == 0 <==> forall i :: 0 <= i < n ==> !flags[i])
  {
    if n == 0 then 0 else Trues(flags, n - 1) + (if flags[n - 1] then 1 else 0)
  }

  ghost predicate SortedQueue(db: Db, queue: seq<nat>) {
    && queue == Queue(db, |db.runs|)
    && (forall i, j :: 0 <= i < j < |queue| ==> queue[i] < queue[j])
    && (forall i :: 0 <= i < |queue| ==> queue[i] < |db.runs|)
  }

  lemma QueueIsSorted(db: Db, queue: seq<nat>)
    requires queue == Queue(db, |db.runs|)
    ensures SortedQueue(db, queue)
  {
    QueueIsExact(db, |db.runs|);
    forall i | 0 <= i < |queue| ensures queue[i] < |db.runs| { assert queue[i] in queue; }
  }

  /** The tables once the first entries were tried and those marked in `gone` left. */
  ghost predicate AfterTrying(db: Db, queue: seq<nat>, gone: seq<bool>, db': Db) {
    && |gone| < |queue| && |db'.runs| == |db.runs| && SortedQueue(db, queue)
    && (forall i :: 0 <= i < |gone| ==> (WaitingRow(db', queue[i]) <==> !gone[i]))
    && (forall r: nat :: WaitingRow(db', r) ==> WaitingRow(db, r))
    && (forall r: nat :: r !in queue[..|gone|] ==> (WaitingRow(db', r) <==> WaitingRow(db, r)))
  }

  /** Trying the first `m` entries, in order, does just that. */
  lemma TriedLeave(terms: Terms, db: Db, chances: nat -> Chance, queue: seq<nat>, m: nat, gone: seq<bool>, db': Db)
    requires terms.config.Valid() && Alone(terms, db, chances) && SortedQueue(db, queue) && m < |queue|
    requires gone == Leaving(terms, db, queue, chances, m) && db' == Turns(terms, db, queue[..m], chances).db
    ensures AfterTrying(db, queue, gone, db')
  {
    TurnsKeepRuns(terms, db, queue[..m], chances);
    TriedWait(terms, db, chances, queue, m, gone, db');
    OthersWait(terms, db, queue[..m], chances, db');
  }

  lemma TriedWait(terms: Terms, db: Db, chances: nat -> Chance, queue: seq<nat>, m: nat, gone: seq<bool>, db': Db)
    requires terms.config.Valid() && Alone(terms, db, chances) && SortedQueue(db, queue) && m < |queue|
    requires gone == Leaving(terms, db, queue, chances, m) && db' == Turns(terms, db, queue[..m], chances).db
    ensures forall i :: 0 <= i < m ==> (WaitingRow(db', queue[i]) <==> !gone[i])
  {
    forall i | 0 <= i < m ensures WaitingRow(db', queue[i]) <==> !gone[i] {
      TriedWaitIs(terms, db, chances, queue, m, gone[i], db', i);
    }
  }

  lemma TriedWaitIs(terms: Terms, db: Db, chances: nat -> Chance, queue: seq<nat>, m: nat, gone: bool, db': Db, i: nat)
    requires terms.config.Valid() && Alone(terms, db, chances) && SortedQueue(db, queue) && i < m < |queue|
    requires gone == Leaves(terms, db, queue[i], chances(i)) && db' == Turns(terms, db, queue[..m], chances).db
    ensures WaitingRow(db', queue[i]) <==> !gone
  {
    EntryWaits(db, |db.runs|, i);
    assert queue[..m][i] == queue[i];
    TriedWaitAt(terms, db, chances, queue[..m], i, db');
  }

  lemma TriedWaitAt(terms: Terms, db: Db, chances: nat -> Chance, tried: seq<nat>, i: nat, db': Db)
    requires terms.config.Valid() && Alone(terms, db, chances) && db' == Turns(terms, db, tried, chances).db
    requires i < |tried| && WaitingRow(db, tried[i]) && forall x, y :: 0 <= x < y < |tried| ==> tried[x] < tried[y]
    ensures WaitingRow(db', tried[i]) <==> !Leaves(terms, db, tried[i], chances(i))
  {
    WaitsAfter(terms, db, tried, chances, i, Turns(terms, db, tried, chances));
  }

  /** Every entry of the queue waits. */
  lemma EntryWaits(db: Db, n: nat, i: nat)
    requires i < |Queue(db, n)|
    ensures WaitingRow(db, Queue(db, n)[i])
  {
    QueueIsExact(db, n);
    assert Queue(db, n)[i] in Queue(db, n);
  }

  lemma OthersWait(terms: Terms, db: Db, tried: seq<nat>, chances: nat -> Chance, db': Db)
    requires terms.config.Valid() && Alone(terms, db, chances) && db' == Turns(terms, db, tried, chances).db
    ensures forall r: nat :: WaitingRow(db', r) ==> WaitingRow(db, r)
    ensures forall r: nat :: r !in tried ==> (WaitingRow(db', r) <==> WaitingRow(db, r))
  {
    forall r: nat | WaitingRow(db', r) ensures WaitingRow(db, r) { TurnsShrinkQueue(terms, db, tried, chances, r); }
    forall r: nat | r !in tried ensures WaitingRow(db', r) <==> WaitingRow(db, r) {
      TurnsLeaveOthers(terms, db, tried, chances, r);
    }
  }

  lemma {:induction false} QueuePrefix(db: Db, m: nat, n: nat)
    requires m <= n
    ensures Queue(db, m) <= Queue(db, n)
  {
    if m < n { QueuePrefix(db, m, n - 1); }
  }

  /** Where run `r` stands in the queue, before entry `m`. */
  lemma PlaceInQueue(db: Db, queue: seq<nat>, m: nat, r: nat)
    requires queue == Queue(db, |db.runs|) && m < |queue| && r < queue[m] < |db.runs| && WaitingRow(db, r)
    ensures |Queue(db, r)| < m && queue[|Queue(db, r)|] == r
  {
    var i := |Queue(db, r)|;
    assert Queue(db, r + 1)[i] == r;
    QueuePrefix(db, r + 1, queue[m]);
    QueueBefore(db, |db.runs|, m);
  }

  /** Run `r` waits afterwards if it waited before and its entry is not gone. */
  ghost predicate Stays(db: Db, gone: seq<bool>, db': Db, r: nat) {
    if WaitingRow(db, r) then |Queue(db, r)| < |gone| && (WaitingRow(db', r) <==> !gone[|Queue(db, r)|])
    else !WaitingRow(db', r)
  }

  lemma StayedAt(db: Db, queue: seq<nat>, gone: seq<bool>, db': Db, r: nat)
    requires AfterTrying(db, queue, gone, db') && r < queue[|gone|]
    ensures Stays(db, gone, db', r)
  {
    if WaitingRow(db, r) { PlaceInQueue(db, queue, |gone|, r); }
  }

  /** Below run `n` as many wait after the walk as waited before, less those gone. */
  lemma {:induction false} StayedBelow(db: Db, gone: seq<bool>, db': Db, n: nat)
    requires forall r: nat :: r < n ==> Stays(db, gone, db', r)
    ensures |Queue(db, n)| <= |gone|
    ensures |Queue(db', n)| == |Queue(db, n)| - Trues(gone, |Queue(db, n)|)
  {
    if n > 0 {
      StayedBelow(db, gone, db', n - 1);
      assert Stays(db, gone, db', n - 1);
    }
  }

  lemma QueueAfter(db: Db, queue: seq<nat>, gone: seq<bool>, db': Db, k: nat)
    requires AfterTrying(db, queue, gone, db') && k == queue[|gone|]
    ensures |Queue(db', k)| == |gone| - Trues(gone, |gone|)
    ensures Queue(db', |db.runs|) == Queue(db', k) + queue[|gone|..]
  {
    QueueBefore(db, |db.runs|, |gone|);
    forall r: nat | r < k ensures Stays(db, gone, db', r) { StayedAt(db, queue, gone, db', r); }
    StayedBelow(db, gone, db', k);
    QueueTail(db, db', k, |db.runs|);
  }

  /** A page at offset `m` of a queue of which fewer than `m` entries precede `rest`. */
  lemma LatePage(kept: seq<nat>, rest: seq<nat>, k: nat, m: nat)
    requires |kept| <= m && rest != [] && rest[0] == k
    requires forall i, j :: 0 <= i < j < |rest| ==> rest[i] < rest[j]
    ensures PageOf(kept + rest, m) == PageOf(rest, m - |kept|)
    ensures k in PageOf(kept + rest, m) <==> |kept| == m
  {
    var xs, late := kept + rest, PageOf(rest, m - |kept|);
    var page := PageOf(xs, m);
    var from := if m - |kept| <= |rest| then m - |kept| else |rest|;
    assert |page| == |late|;
    forall i | 0 <= i < |page| ensures page[i] == late[i] {
      assert page[i] == xs[|kept| + from + i] && late[i] == rest[from + i];
    }
    if |kept| == m { assert late[0] == k; }
  }

  lemma PageAfter(db: Db, queue: seq<nat>, gone: seq<bool>, db': Db)
    requires AfterTrying(db, queue, gone, db')
    ensures PageOf(Queue(db', |db.runs|), |gone|) == PageOf(queue[|gone|..], Trues(gone, |gone|))
    ensures queue[|gone|] in PageOf(Queue(db', |db.runs|), |gone|) <==> Trues(gone, |gone|) == 0
  {
    QueueAfter(db, queue, gone, db', queue[|gone|]);
    LatePage(Queue(db', queue[|gone|]), queue[|gone|..], queue[|gone|], |gone|);
  }

  /** The page a worker reads after it has tried the first `m` entries of the queue, in
      order, starts as many runs too late as of those were bound to leave; it is complete
      -- its first run is there at all -- if and only if none was.  The condition is on the
      tables before the walk. */
  lemma LaterPageSkips(terms: Terms, db: Db, chances: nat -> Chance, queue: seq<nat>, m: nat, gone: seq<bool>, page: seq<nat>)
    requires terms.config.Valid() && Alone(terms, db, chances) && SortedQueue(db, queue) && m < |queue|
    requires gone == Leaving(terms, db, queue, chances, m) && page == NextPage(terms, db, queue[..m], chances)
    ensures page == PageOf(queue[m..], Trues(gone, m))
    ensures queue[m] in page <==> forall i :: 0 <= i < m ==> !Leaves(terms, db, queue[i], chances(i))
  {
    var db' := Turns(terms, db, queue[..m], chances).db;
    TriedLeave(terms, db, chances, queue, m, gone, db');
    PageAfter(db, queue, gone, db');
  }

  // ---- a queue whose last run is missed --------------------------------------------------------

  const SAMPLE_TERMS := Terms(Config(Capacity(8, 100, 1, 1), 1, 10), "w", 1)

  function Crowd(): Db {
    Db(seq(PAGE + 1, i => RunRow(None, TaskSpec("t", "", map[], [], None, None, 1), Queued)),
       seq(PAGE + 1, i => StageRow("1", false, Queued)), [], map[])
  }

  lemma {:induction false} CrowdWaits(n: nat)
    requires n <= PAGE + 1
    ensures |Queue(Crowd(), n)| == n && forall i :: 0 <= i < n ==> Queue(Crowd(), n)[i] == i
  {
    if n > 0 {
      CrowdWaits(n - 1);
      assert WaitingRow(Crowd(), n - 1);
    }
  }

  lemma CrowdIsAlone(chances: nat -> Chance)
    requires forall n :: chances(n).Valid()
    ensures SAMPLE_TERMS.config.Valid() && Alone(SAMPLE_TERMS, Crowd(), chances)
  {
    assert CeilShare(8, 1, 1) == 8 && CeilShare(100, 1, 1) == 100;
  }

  lemma {:induction false} NoneStarts(terms: Terms, db: Db, tried: seq<nat>, chances: nat -> Chance)
    requires terms.config.Valid() && forall n :: chances(n).fate.Unresolvable?
    ensures Turns(terms, db, tried, chances).advanced == 0
  {
    if tried != [] { NoneStarts(terms, db, tried[..|tried| - 1], chances); }
  }

  lemma {:induction false} AllTrue(flags: seq<bool>, n: nat)
    requires n <= |flags| && forall i :: 0 <= i < |flags| ==> flags[i]
    ensures Trues(flags, n) == n
  {
    if n > 0 { AllTrue(flags, n - 1); }
  }

  /** Where nothing can be resolved, the whole first page leaves, and a queue of one run
      more has no second page. */
  lemma UnresolvedPageLeaves(terms: Terms, db: Db, chances: nat -> Chance, queue: seq<nat>, db': Db)
    requires terms.config.Valid() && Alone(terms, db, chances) && forall n :: chances(n).fate.Unresolvable?
    requires queue == Queue(db, |db.runs|) && |queue| == PAGE + 1
    requires db' == Turns(terms, db, queue[..PAGE], chances).db
    ensures |db'.runs| == |db.runs| && PageOf(Queue(db', |db.runs|), PAGE) == [] && WaitingRow(db', queue[PAGE])
  {
    QueueIsSorted(db, queue);
    var gone := Leaving(terms, db, queue, chances, PAGE);
    TriedLeave(terms, db, chances, queue, PAGE, gone, db');
    PageAfter(db, queue, gone, db');
    AllTrue(gone, PAGE);
    QueueIsExact(db, |db.runs|);
    assert queue[PAGE] in queue && queue[PAGE] !in queue[..PAGE];
  }

  /** 1001 waiting runs of a plugin that cannot be resolved: the walk fails a thousand,
      starts none, finds no second page and never tries the last, which still waits. */
  lemma WalkCanMissARun() returns (terms: Terms, db: Db, chances: nat -> Chance, missed: nat)
    ensures terms.config.Valid() && Alone(terms, db, chances)
    ensures missed in Queue(db, |db.runs|) && missed !in WholeWalk(terms, db, [], chances)
    ensures Turns(terms, db, WholeWalk(terms, db, [], chances), chances).advanced == 0
    ensures WaitingRow(Turns(terms, db, WholeWalk(terms, db, [], chances), chances).db, missed)
  {
    terms, db, chances, missed := SAMPLE_TERMS, Crowd(), _ => Chance(0, Unresolvable), PAGE;
    CrowdIsAlone(chances);
    var queue, tried := Queue(db, |db.runs|), FirstPage(db);
    CrowdWaits(PAGE + 1);
    UnresolvedPageLeaves(terms, db, chances, queue, Turns(terms, db, tried, chances).db);
    NoneStarts(terms, db, tried, chances);
    WalkStarts(terms, db, chances);
    assert queue[PAGE] in queue;
  }
}
