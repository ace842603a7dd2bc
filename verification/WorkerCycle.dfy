/** One cycle of a worker: maintenance, then a walk over the waiting queue that starts
    up to a batch of runs and scans past everything it cannot start. */
module WorkerCycle {
  import opened Contracts
  import opened Admission
  import opened Tables
  import opened Transactions
  import opened TableInvariant
  import opened RunProtocol
  import opened RunSafety
  import opened AtomicProtocol
  import ReclaimPass
  import RuntimeStore

  /** What the world has in store for one try: the plugin cannot be resolved, the
      attempt raises somewhere, or the adapter reports. */
  datatype Fate = Unresolvable | Faulty | Reports(result: Result)

  datatype Chance = Chance(now: int, fate: Fate)
  {
    predicate Valid() { fate.Reports? ==> fate.result.Valid() }
  }

  datatype Tally = Tally(db: Db, advanced: nat, failed: nat)

  datatype Terms = Terms(config: Config, worker: string, leaseSeconds: int)

  /** What a started attempt leaves behind. */
  function Played(db: Db, a: nat, fate: Fate): Db {
    if fate.Reports? then Conclude(db, a, fate.result) else RecordFailure(db, a)
  }

  /** One candidate.  Losing a race and a full machine are not failures; everything else
      that prevents the start fails the waiting run. */
  function Turn(terms: Terms, t: Tally, r: nat, chance: Chance): Tally
    requires terms.config.Valid()
  {
    if |t.db.runs| <= r || |t.db.stages| <= r || Terminal(t.db.runs[r].status) || !Unclaimed(t.db.stages[r].status) then t
    else
      var refused := Tally(After(t.db, FailQueuedRun(t.db, r)), t.advanced, t.failed + 1);
      if chance.fate.Unresolvable? then refused
      else
        var claim := StartAttempt(t.db, WorkerClaim(terms.config, t.db, r, terms.worker, chance.now, terms.leaseSeconds));
        if claim.Committed? then Tally(Played(claim.db, claim.value, chance.fate), t.advanced + 1, t.failed)
        else if claim.error.NoCapacity? || claim.error.InvalidTransition? then t
        else refused
  }

  function Turns(terms: Terms, db: Db, tried: seq<nat>, chances: nat -> Chance): Tally
    requires terms.config.Valid()
  {
    if tried == [] then Tally(db, 0, 0)
    else
      var n := |tried| - 1;
      Turn(terms, Turns(terms, db, tried[..n], chances), tried[n], chances(n))
  }

  // ---- what one turn does --------------------------------------------------------------

  predicate NothingRuns(db: Db) {
    forall r :: 0 <= r < |db.runs| ==> !db.runs[r].status.Running?
  }

  /** A started attempt is concluded: the run it started is not running afterwards. */
  lemma PlayedSettles(config: Config, db: Db, a: nat, fate: Fate)
    requires config.Valid() && Sound(config, db) && (fate.Reports? ==> fate.result.Valid())
    requires a < |db.attempts| && db.attempts[a].status.Running?
    ensures var db' := Played(db, a, fate);
            && Sound(config, db') && Apart(db, db', db.attempts[a].stage)
            && !db'.runs[db.attempts[a].stage].status.Running?
            && |db'.attempts| == |db.attempts|
  {
    PlayedCounts(db, a, fate);
    if fate.Reports? {
      ConcludeKeeps(config, db, a, fate.result);
      ConcludeApart(config, db, a, fate.result);
    } else {
      RaiseKeeps(config, db, a);
      FailureSettles(config, db, a);
    }
  }

  lemma PlayedCounts(db: Db, a: nat, fate: Fate)
    ensures |Played(db, a, fate).attempts| == |db.attempts|
  {
  }

  lemma ConcludeApart(config: Config, db: Db, a: nat, result: Result)
    requires config.Valid() && Sound(config, db) && result.Valid()
    requires a < |db.attempts| && db.attempts[a].status.Running?
    ensures var db' := Conclude(db, a, result);
            Apart(db, db', db.attempts[a].stage) && !db'.runs[db.attempts[a].stage].status.Running?
  {
    var status, r := AttemptStatusOf(result.status), db.attempts[a].stage;
    var db1 := EndAttempt(db, a, status, result.failure);
    FinishKeeps(config, db, a, status, result.failure);
    EndApart(db, a, status, result.failure);
    RowUpdateKeepsCounts(db, db1, a);
    NoneLiveAfterEnd(config, db, a, db1);
    SettleEffect(config, db1, a, result);
    FailureSettles(config, db1, a);
  }

  /** A turn that starts its run. */
  lemma TurnStarts(terms: Terms, t: Tally, r: nat, chance: Chance, db1: Db)
    requires terms.config.Valid() && Sound(terms.config, t.db) && 0 < terms.leaseSeconds
    requires Claimable(terms.config, t.db, r) && !chance.fate.Unresolvable?
    requires db1 == Claimed(terms.config, t.db, r, terms.worker, chance.now + terms.leaseSeconds)
    ensures Turn(terms, t, r, chance) == Tally(Played(db1, |t.db.attempts|, chance.fate), t.advanced + 1, t.failed)
    ensures Sound(terms.config, db1)
  {
    StartEffect(terms.config, t.db, r, terms.worker, chance.now, terms.leaseSeconds);
    ClaimSound(terms.config, t.db, r, terms.worker, chance.now, terms.leaseSeconds);
  }

  /** Any other turn: nothing happens, or the waiting run is failed. */
  lemma TurnSkips(terms: Terms, t: Tally, r: nat, chance: Chance, t': Tally)
    requires terms.config.Valid() && Sound(terms.config, t.db) && 0 < terms.leaseSeconds
    requires !Claimable(terms.config, t.db, r) || chance.fate.Unresolvable?
    requires t' == Turn(terms, t, r, chance)
    ensures t'.advanced == t.advanced && t'.db.attempts == t.db.attempts && |t'.db.runs| == |t.db.runs|
    ensures t'.db == t.db || (t'.db == After(t.db, FailQueuedRun(t.db, r)) && WaitingRow(t.db, r))
    ensures Sound(terms.config, t'.db)
    ensures forall q :: 0 <= q < |t.db.runs| ==> t'.db.runs[q].status == t.db.runs[q].status || t'.db.runs[q].status.Failed?
  {
    StartEffect(terms.config, t.db, r, terms.worker, chance.now, terms.leaseSeconds);
    PreflightSound(terms.config, t.db, r);
  }

  /** A turn keeps the tables sound, starts its run if and only if that run could be
      claimed and resolved, and a lone worker leaves nothing running behind. */
  lemma TurnDoes(terms: Terms, t: Tally, r: nat, chance: Chance, t': Tally)
    requires terms.config.Valid() && Sound(terms.config, t.db) && chance.Valid() && 0 < terms.leaseSeconds
    requires t' == Turn(terms, t, r, chance)
    ensures Sound(terms.config, t'.db)
    ensures |t'.db.attempts| - |t.db.attempts| == t'.advanced - t.advanced
    ensures t'.advanced == t.advanced + (if Claimable(terms.config, t.db, r) && !chance.fate.Unresolvable? then 1 else 0)
    ensures NothingRuns(t.db) ==> NothingRuns(t'.db)
  {
    if Claimable(terms.config, t.db, r) && !chance.fate.Unresolvable? {
      var db1 := Claimed(terms.config, t.db, r, terms.worker, chance.now + terms.leaseSeconds);
      TurnStarts(terms, t, r, chance, db1);
      PlayedSettles(terms.config, db1, |t.db.attempts|, chance.fate);
    } else {
      TurnSkips(terms, t, r, chance, t');
    }
  }

  // ---- the walk ------------------------------------------------------------------------

  /** Whatever was tried, in whatever order: the tables stay sound, one attempt was
      made for each run counted as advanced, and nothing is left running that was not. */
  lemma {:induction false} TurnsDo(terms: Terms, db: Db, tried: seq<nat>, chances: nat -> Chance)
    requires terms.config.Valid() && Sound(terms.config, db) && 0 < terms.leaseSeconds
    requires forall n :: chances(n).Valid()
    ensures var t := Turns(terms, db, tried, chances);
            && Sound(terms.config, t.db)
            && |t.db.attempts| == |db.attempts| + t.advanced
            && (NothingRuns(db) ==> NothingRuns(t.db))
  {
    if tried != [] {
      var n := |tried| - 1;
      TurnsDo(terms, db, tried[..n], chances);
      TurnDoes(terms, Turns(terms, db, tried[..n], chances), tried[n], chances(n), Turns(terms, db, tried, chances));
    }
  }

  predicate WaitingRow(db: Db, r: nat) {
    && r < |db.runs| && r < |db.stages| && Unclaimed(db.stages[r].status)
    && (db.runs[r].status.Queued? || db.runs[r].status.Preparing? || db.runs[r].status.Running? || db.runs[r].status.RetryWait?)
  }

  /** The waiting queue, oldest first: those of the first `n` runs a worker may claim. */
  function Queue(db: Db, n: nat): (q: seq<nat>)
    ensures |q| <= n
  {
    if n == 0 then [] else Queue(db, n - 1) + (if WaitingRow(db, n - 1) then [n - 1] else [])
  }

  /** It holds exactly the waiting runs, each once, in the order they were created. */
  lemma {:induction false} QueueIsExact(db: Db, n: nat)
    ensures forall r: nat :: r in Queue(db, n) <==> r < n && WaitingRow(db, r)
    ensures forall i, j :: 0 <= i < j < |Queue(db, n)| ==> Queue(db, n)[i] < Queue(db, n)[j]
  {
    if n > 0 {
      QueueIsExact(db, n - 1);
      var before := Queue(db, n - 1);
      assert forall i :: 0 <= i < |before| ==> before[i] in before;
    }
  }

  const PAGE := 1000

  /** LIMIT 1000 OFFSET offset. */
  function PageOf(queue: seq<nat>, offset: nat): seq<nat> {
    var from := if offset <= |queue| then offset else |queue|;
    queue[from..if from + PAGE <= |queue| then from + PAGE else |queue|]
  }

  /** No turn adds a run, and only the run whose turn it is may change its place. */
  lemma {:induction false} TurnsKeepRuns(terms: Terms, db: Db, tried: seq<nat>, chances: nat -> Chance)
    requires terms.config.Valid()
    ensures |Turns(terms, db, tried, chances).db.runs| == |db.runs|
  {
    if tried != [] {
      var n := |tried| - 1;
      TurnsKeepRuns(terms, db, tried[..n], chances);
      TurnKeepsRuns(terms, Turns(terms, db, tried[..n], chances), tried[n], chances(n));
    }
  }

  lemma TurnKeepsRuns(terms: Terms, t: Tally, r: nat, chance: Chance)
    requires terms.config.Valid()
    ensures |Turn(terms, t, r, chance).db.runs| == |t.db.runs|
  {
    if r < |t.db.stages| {
      var claim := StartAttempt(t.db, WorkerClaim(terms.config, t.db, r, terms.worker, chance.now, terms.leaseSeconds));
      if claim.Committed? { PlayedKeepsRuns(claim.db, claim.value, chance.fate); }
    }
  }

  lemma PlayedKeepsRuns(db: Db, a: nat, fate: Fate)
    ensures |Played(db, a, fate).runs| == |db.runs|
  {
  }

  lemma TurnsOneMore(terms: Terms, db: Db, tried: seq<nat>, chances: nat -> Chance, r: nat)
    requires terms.config.Valid()
    ensures Turns(terms, db, tried + [r], chances) == Turn(terms, Turns(terms, db, tried, chances), r, chances(|tried|))
  {
    assert (tried + [r])[..|tried|] == tried;
  }

  /** In sound tables the queue's four-way condition is a claimable status. */
  lemma WaitingIs(config: Config, db: Db, r: nat)
    requires config.Valid() && Consistent(config, db)
    ensures WaitingRow(db, r) <==> r < |db.runs| && Unclaimed(db.runs[r].status)
  {
  }

  /** A turn touches no run but its own, and that one only if it waited. */
  lemma TurnTouchesOwn(terms: Terms, t: Tally, r: nat, chance: Chance, t': Tally)
    requires terms.config.Valid() && Sound(terms.config, t.db) && chance.Valid() && 0 < terms.leaseSeconds
    requires t' == Turn(terms, t, r, chance)
    ensures |t'.db.runs| == |t.db.runs|
    ensures forall q :: 0 <= q < |t.db.runs| && q != r ==> t'.db.runs[q].status == t.db.runs[q].status
    ensures t'.db != t.db ==> r < |t.db.runs| && Unclaimed(t.db.runs[r].status)
  {
    if Claimable(terms.config, t.db, r) && !chance.fate.Unresolvable? {
      var db1 := Claimed(terms.config, t.db, r, terms.worker, chance.now + terms.leaseSeconds);
      TurnStarts(terms, t, r, chance, db1);
      PlayedSettles(terms.config, db1, |t.db.attempts|, chance.fate);
    } else {
      TurnSkips(terms, t, r, chance, t');
      WaitingIs(terms.config, t.db, r);
    }
  }

  /** A run that waits after a turn waited before it, and every other keeps its place. */
  lemma TurnShrinksQueue(terms: Terms, t: Tally, r: nat, chance: Chance, q: nat)
    requires terms.config.Valid() && Sound(terms.config, t.db) && chance.Valid() && 0 < terms.leaseSeconds
    ensures WaitingRow(Turn(terms, t, r, chance).db, q) ==> WaitingRow(t.db, q)
    ensures q != r ==> (WaitingRow(Turn(terms, t, r, chance).db, q) <==> WaitingRow(t.db, q))
  {
    var t' := Turn(terms, t, r, chance);
    TurnDoes(terms, t, r, chance, t');
    TurnTouchesOwn(terms, t, r, chance, t');
    WaitingIs(terms.config, t.db, q);
    WaitingIs(terms.config, t'.db, q);
  }

  lemma {:induction false} TurnsShrinkQueue(terms: Terms, db: Db, tried: seq<nat>, chances: nat -> Chance, q: nat)
    requires terms.config.Valid() && Sound(terms.config, db) && 0 < terms.leaseSeconds
    requires forall n :: chances(n).Valid()
    requires WaitingRow(Turns(terms, db, tried, chances).db, q)
    ensures WaitingRow(db, q)
  {
    if tried != [] {
      var n := |tried| - 1;
      TurnsDo(terms, db, tried[..n], chances);
      TurnShrinksQueue(terms, Turns(terms, db, tried[..n], chances), tried[n], chances(n), q);
      TurnsShrinkQueue(terms, db, tried[..n], chances, q);
    }
  }

  lemma {:induction false} ShorterQueue(db: Db, db': Db, n: nat)
    requires forall r: nat :: r < n && WaitingRow(db', r) ==> WaitingRow(db, r)
    ensures |Queue(db', n)| <= |Queue(db, n)|
  {
    if n > 0 { ShorterQueue(db, db', n - 1); }
  }

  /** The lone worker's setting: sound tables, a positive lease, proper reports. */
  ghost predicate Alone(terms: Terms, db: Db, chances: nat -> Chance)
    requires terms.config.Valid()
  {
    Sound(terms.config, db) && 0 < terms.leaseSeconds && forall n :: chances(n).Valid()
  }

  function FirstPage(db: Db): seq<nat> { PageOf(Queue(db, |db.runs|), 0) }

  /** Once the first page was tried, there is nothing behind it. */
  predicate OnePage(terms: Terms, db: Db, chances: nat -> Chance)
    requires terms.config.Valid()
  {
    var db' := Turns(terms, db, FirstPage(db), chances).db;
    PageOf(Queue(db', |db'.runs|), |FirstPage(db)|) == []
  }

  /** A queue that fits one page is that page, and trying it leaves no second page:
      runs only leave the queue. */
  lemma ShortQueueIsOnePage(terms: Terms, db: Db, chances: nat -> Chance)
    requires terms.config.Valid() && Alone(terms, db, chances) && |Queue(db, |db.runs|)| <= PAGE
    ensures FirstPage(db) == Queue(db, |db.runs|) && OnePage(terms, db, chances)
  {
    var tried := FirstPage(db);
    var db' := Turns(terms, db, tried, chances).db;
    TurnsKeepRuns(terms, db, tried, chances);
    forall r: nat | r < |db.runs| && WaitingRow(db', r) ensures WaitingRow(db, r) {
      TurnsShrinkQueue(terms, db, tried, chances, r);
    }
    ShorterQueue(db, db', |db.runs|);
  }

  // ---- a whole cycle ---------------------------------------------------------------------

  /** Settling the covered cancellations keeps the tables sound. */
  lemma MaintenanceKeeps(config: Config, db: Db, limit: nat, db': Db)
    requires config.Valid() && Sound(config, db) && Maintained(db, limit, db')
    ensures Sound(config, db') && (NothingRuns(db) ==> NothingRuns(db'))
  {
    SameAttemptFacts(db, db');
  }

  /** A whole cycle keeps the tables sound and makes exactly as many attempts as it
      reports; if nothing runs behind the reclaim pass, nothing runs behind the cycle. */
  lemma CycleKeeps(terms: Terms, db: Db, reference: int, gone: set<nat>, limit: nat, middle: Db,
                   tried: seq<nat>, chances: nat -> Chance)
    requires terms.config.Valid() && Alone(terms, db, chances)
    requires Maintained(ReclaimPass.Pass(db, reference, gone), limit, middle)
    ensures var t := Turns(terms, middle, tried, chances);
            && Sound(terms.config, t.db)
            && |t.db.attempts| == |db.attempts| + t.advanced
            && (NothingRuns(ReclaimPass.Pass(db, reference, gone)) ==> NothingRuns(t.db))
  {
    var passed := ReclaimPass.Pass(db, reference, gone);
    ReclaimPass.PassSettlesEveryRun(terms.config, db, reference, gone);
    ReclaimPass.PassKeepsAttempts(db, reference, gone);
    MaintenanceKeeps(terms.config, passed, limit, middle);
    TurnsDo(terms, middle, tried, chances);
  }

  // ---- the whole walk ----------------------------------------------------------------------

  /** The page the worker reads after it has tried `tried`. */
  function NextPage(terms: Terms, db: Db, tried: seq<nat>, chances: nat -> Chance): seq<nat>
    requires terms.config.Valid()
  {
    var now := Turns(terms, db, tried, chances).db;
    PageOf(Queue(now, |now.runs|), |tried|)
  }

  lemma PageIsAhead(terms: Terms, db: Db, tried: seq<nat>, chances: nat -> Chance)
    requires terms.config.Valid()
    ensures NextPage(terms, db, tried, chances) != [] ==> |tried| < |db.runs|
  {
    TurnsKeepRuns(terms, db, tried, chances);
  }

  /** What a worker tries from here on that its batch does not stop: page after page,
      each read when it is reached, until one comes back empty. */
  ghost function WholeWalk(terms: Terms, db: Db, tried: seq<nat>, chances: nat -> Chance): seq<nat>
    requires terms.config.Valid()
    decreases if |tried| <= |db.runs| then |db.runs| - |tried| else 0
  {
    var page := NextPage(terms, db, tried, chances);
    if page == [] then tried
    else
      PageIsAhead(terms, db, tried, chances);
      WholeWalk(terms, db, tried + page, chances)
  }

  lemma {:induction false} WalkExtends(terms: Terms, db: Db, tried: seq<nat>, chances: nat -> Chance)
    requires terms.config.Valid()
    ensures tried <= WholeWalk(terms, db, tried, chances)
    decreases if |tried| <= |db.runs| then |db.runs| - |tried| else 0
  {
    var page := NextPage(terms, db, tried, chances);
    if page != [] {
      PageIsAhead(terms, db, tried, chances);
      WalkExtends(terms, db, tried + page, chances);
    }
  }

  lemma WalkNext(terms: Terms, db: Db, tried: seq<nat>, chances: nat -> Chance, page: seq<nat>)
    requires terms.config.Valid() && page == NextPage(terms, db, tried, chances) && page != []
    ensures WholeWalk(terms, db, tried, chances) == WholeWalk(terms, db, tried + page, chances)
    ensures tried + page <= WholeWalk(terms, db, tried, chances)
  {
    WalkExtends(terms, db, tried + page, chances);
  }

  /** The walk starts with the first page, and ends with it if it is the only one. */
  lemma WalkStarts(terms: Terms, db: Db, chances: nat -> Chance)
    requires terms.config.Valid()
    ensures FirstPage(db) <= WholeWalk(terms, db, [], chances)
    ensures OnePage(terms, db, chances) ==> WholeWalk(terms, db, [], chances) == FirstPage(db)
  {
    var page := FirstPage(db);
    assert NextPage(terms, db, [], chances) == page && [] + page == page;
    if page != [] { WalkNext(terms, db, [], chances, page); }
  }

  /** The tables once exactly the covered cancellations were settled. */
  ghost predicate Maintained(db: Db, limit: nat, db': Db) {
    && db'.attempts == db.attempts && db'.reservations == db.reservations
    && |db'.runs| == |db.runs| && |db'.stages| == |db.stages|
    && (forall r :: 0 <= r < |db.runs| ==>
          db'.runs[r] == if ReclaimPass.Covered(db, limit, r) then db.runs[r].(status := Cancelled) else db.runs[r])
    && (forall r :: 0 <= r < |db.stages| ==>
          db'.stages[r] == if ReclaimPass.Covered(db, limit, r) && !Terminal(db.stages[r].status)
                           then db.stages[r].(status := Cancelled) else db.stages[r])
  }

  function ExpiredAttempts(db: Db, reference: int, gone: set<nat>): set<nat> {
    set a | 0 <= a < |db.attempts| && ReclaimPass.Reclaimable(db.attempts[a], a, reference, gone)
  }

  function CoveredRuns(db: Db, limit: nat): set<nat> {
    set r | 0 <= r < |db.runs| && ReclaimPass.Covered(db, limit, r)
  }

  datatype Report = Report(reclaimed: nat, cancelled: nat, advanced: nat, failed: nat)

  class Worker {
    const store: RuntimeStore.Store
    const runtime: RuntimeStore.WorkflowRuntime
    const terms: Terms
    const batch: nat

    ghost predicate Valid() {
      runtime.store == store && terms.config.Valid() && 1 <= batch
    }

    constructor (store: RuntimeStore.Store, runtime: RuntimeStore.WorkflowRuntime, terms: Terms, batch: nat)
      requires runtime.store == store && terms.config.Valid() && 1 <= batch
      ensures Valid() && this.store == store && this.terms == terms && this.batch == batch
    {
      this.store, this.runtime, this.terms, this.batch := store, runtime, terms, batch;
    }

    /** Try one run and say whether this call did the work. */
    method ExecuteOnce(r: nat, chance: Chance) returns (executed: bool, raised: bool)
      requires Valid()
      modifies store
      ensures forall t: Tally :: t.db == old(store.View()) ==>
                Turn(terms, t, r, chance) ==
                Tally(store.View(), t.advanced + (if executed then 1 else 0), t.failed + (if raised then 1 else 0))
    {
      if |store.runs| <= r || |store.stages| <= r || Terminal(store.runs[r].status) || !Unclaimed(store.stages[r].status) {
        return false, false;
      }
      if !chance.fate.Unresolvable? {
        var claim := store.StartAttempt(WorkerClaim(terms.config, store.View(), r, terms.worker, chance.now, terms.leaseSeconds));
        if claim.Returned? {
          var a := claim.value;
          if chance.fate.Reports? {
            runtime.ConcludeAttempt(r, a, store.attempts[a].number, store.runs[r].task.maxAttempts, chance.fate.result);
          } else {
            runtime.RecordRuntimeFailure(r, a);
          }
          return true, false;
        }
        if claim.error.NoCapacity? || claim.error.InvalidTransition? { return false, false; }
      }
      var _ := store.FailQueuedRun(r);
      return false, true;
    }

    method TryNext(r: nat, chances: nat -> Chance, n: nat, ghost start: Db, ghost tried: seq<nat>,
                   advanced0: nat, failed0: nat) returns (advanced: nat, failed: nat)
      requires Valid() && n == |tried|
      requires Turns(terms, start, tried, chances) == Tally(store.View(), advanced0, failed0)
      modifies store
      ensures Turns(terms, start, tried + [r], chances) == Tally(store.View(), advanced, failed)
      ensures advanced <= advanced0 + 1
    {
      TurnsOneMore(terms, start, tried, chances, r);
      var executed, raised := ExecuteOnce(r, chances(n));
      advanced := if executed then advanced0 + 1 else advanced0;
      failed := if raised then failed0 + 1 else failed0;
    }

    /** Try the runs of one page until the batch is full. */
    method WalkPage(page: seq<nat>, chances: nat -> Chance, ghost start: Db, ghost tried0: seq<nat>, n0: nat,
                    advanced0: nat, failed0: nat) returns (advanced: nat, failed: nat, ghost tried: seq<nat>)
      requires Valid() && advanced0 < batch && n0 == |tried0|
      requires Turns(terms, start, tried0, chances) == Tally(store.View(), advanced0, failed0)
      modifies store
      ensures Turns(terms, start, tried, chances) == Tally(store.View(), advanced, failed)
      ensures advanced <= batch && tried0 <= tried <= tried0 + page
      ensures advanced < batch ==> tried == tried0 + page
    {
      advanced, failed, tried := advanced0, failed0, tried0;
      for i := 0 to |page|
        invariant Turns(terms, start, tried, chances) == Tally(store.View(), advanced, failed)
        invariant advanced <= batch && tried == tried0 + page[..i]
      {
        if advanced >= batch { break; }
        advanced, failed := TryNext(page[i], chances, n0 + i, start, tried, advanced, failed);
        assert tried + [page[i]] == tried0 + page[..i + 1];
        tried := tried0 + page[..i + 1];
      }
      assert page[..|page|] == page;
    }

    /** Walk the waiting queue, reading each page when it is reached, until the batch is
        full or a page comes back empty. */
    method Walk(chances: nat -> Chance) returns (advanced: nat, failed: nat, ghost tried: seq<nat>)
      requires Valid()
      modifies store
      ensures Turns(terms, old(store.View()), tried, chances) == Tally(store.View(), advanced, failed)
      ensures advanced <= batch && tried <= WholeWalk(terms, old(store.View()), [], chances)
      ensures advanced < batch ==> tried == WholeWalk(terms, old(store.View()), [], chances)
    {
      ghost var start := store.View();
      ghost var whole := WholeWalk(terms, start, [], chances);
      advanced, failed, tried := 0, 0, [];
      var offset := 0;
      var page := PageOf(Queue(store.View(), |store.runs|), offset);
      while page != []
        invariant Turns(terms, start, tried, chances) == Tally(store.View(), advanced, failed) && advanced < batch
        invariant offset == |tried| && |store.runs| == |start.runs|
        invariant page == PageOf(Queue(store.View(), |store.runs|), offset)
        invariant whole == WholeWalk(terms, start, tried, chances)
        decreases |start.runs| - offset
      {
        WalkNext(terms, start, tried, chances, page);
        advanced, failed, tried := WalkPage(page, chances, start, tried, offset, advanced, failed);
        if advanced >= batch { return; }
        TurnsKeepRuns(terms, start, tried, chances);
        offset := offset + |page|;
        page := PageOf(Queue(store.View(), |store.runs|), offset);
      }
    }

    /** One cycle: reclaim, settle abandoned cancellations, walk the queue.  A batch the
        cancellation listing does not accept ends the cycle there. */
    method Cycle(reference: int, gone: set<nat>, chances: nat -> Chance)
      returns (report: Reply<Report>, ghost tried: seq<nat>, ghost middle: Db)
      requires Valid()
      modifies store
      ensures report.Raised? <==> 1000 < batch
      ensures report.Raised? ==> store.View() == ReclaimPass.Pass(old(store.View()), reference, gone)
      ensures report.Returned? ==>
                Turns(terms, middle, tried, chances) == Tally(store.View(), report.value.advanced, report.value.failed)
      ensures report.Returned? ==> Maintained(ReclaimPass.Pass(old(store.View()), reference, gone), batch, middle)
      ensures report.Returned? ==> report.value.advanced <= batch
      ensures report.Returned? ==> report.value.reclaimed == |ExpiredAttempts(old(store.View()), reference, gone)|
      ensures report.Returned? ==>
                report.value.cancelled == |CoveredRuns(ReclaimPass.Pass(old(store.View()), reference, gone), batch)|
      ensures report.Returned? ==> tried <= WholeWalk(terms, middle, [], chances)
      ensures report.Returned? && report.value.advanced < batch ==> tried == WholeWalk(terms, middle, [], chances)
    {
      ghost var start := store.View();
      var ids := store.ReclaimExpiredAttempts(reference, gone);
      ReclaimPass.DistinctSize(ids, ExpiredAttempts(start, reference, gone));
      ghost var passed := store.View();
      var cancelled := store.FinishAbandonedCancellations(batch);
      if cancelled.Raised? {
        tried, middle := [], passed;
        return Reply.Raised(cancelled.error), tried, middle;
      }
      middle := store.View();
      var advanced, failed;
      advanced, failed, tried := Walk(chances);
      return Returned(Report(|ids|, cancelled.value, advanced, failed)), tried, middle;
    }
  }
}
