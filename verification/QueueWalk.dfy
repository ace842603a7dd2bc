/** The walk over the whole waiting queue, page by page.  It tries runs oldest first, none
    twice and none that it has passed over; and it tries all of them if and only if no
    entry that has a page behind it is bound to leave. */
module QueueWalk {
  import opened Contracts
  import opened Admission
  import opened Tables
  import opened Transactions
  import opened TableInvariant
  import opened AtomicProtocol
  import opened WorkerCycle
  import opened QueuePaging

  // ---- in order ------------------------------------------------------------------------

  predicate Increasing(xs: seq<nat>) { forall i, j :: 0 <= i < j < |xs| ==> xs[i] < xs[j] }

  /** Runs only leave the queue. */
  lemma {:induction false} MoreTriesShrinkQueue(terms: Terms, db: Db, tried: seq<nat>, more: seq<nat>, chances: nat -> Chance, q: nat)
    requires terms.config.Valid() && Alone(terms, db, chances)
    requires WaitingRow(Turns(terms, db, tried + more, chances).db, q)
    ensures WaitingRow(Turns(terms, db, tried, chances).db, q)
    decreases |more|
  {
    if more == [] {
      assert tried + more == tried;
    } else {
      var n := |more| - 1;
      var before, r := tried + more[..n], more[n];
      assert tried + more == before + [r];
      TurnsOneMore(terms, db, before, chances, r);
      TurnsDo(terms, db, before, chances);
      TurnShrinksQueue(terms, Turns(terms, db, before, chances), r, chances(|before|), q);
      MoreTriesShrinkQueue(terms, db, tried, more[..n], chances, q);
    }
  }

  /** What a walk has tried so far: increasing, all from the queue, and of the runs up to
      the last one tried no more still wait than were tried. */
  ghost predicate WalkedInOrder(db: Db, tried: seq<nat>, now: Db) {
    && Increasing(tried)
    && (forall i :: 0 <= i < |tried| ==> WaitingRow(db, tried[i]))
    && (tried != [] ==> |Queue(now, tried[|tried| - 1] + 1)| <= |tried|)
  }

  /** The queue up to its own entry `i`. */
  lemma QueueThrough(db: Db, n: nat, i: nat)
    requires i < |Queue(db, n)|
    ensures |Queue(db, Queue(db, n)[i] + 1)| == i + 1
  {
    QueueIsExact(db, n);
    QueueBefore(db, n, i);
    assert Queue(db, n)[i] in Queue(db, n);
  }

  /** A later entry of the queue is a later run. */
  lemma EntryIsAhead(db: Db, n: nat, last: nat, offset: nat)
    requires offset < |Queue(db, n)| && |Queue(db, last + 1)| <= offset
    ensures last < Queue(db, n)[offset]
  {
    QueueThrough(db, n, offset);
    if Queue(db, n)[offset] <= last { QueuePrefix(db, Queue(db, n)[offset] + 1, last + 1); }
  }

  lemma PageIsSlice(queue: seq<nat>, offset: nat, page: seq<nat>)
    requires page == PageOf(queue, offset) && page != []
    ensures offset < |queue| && |page| <= PAGE && offset + |page| <= |queue|
    ensures page == queue[offset..offset + |page|]
    ensures |page| < PAGE ==> offset + |page| == |queue|
  {
  }

  /** A page holds waiting runs in order, and ends as deep in the queue as it reaches. */
  lemma PageRuns(now: Db, queue: seq<nat>, offset: nat, page: seq<nat>)
    requires queue == Queue(now, |now.runs|) && page == PageOf(queue, offset) && page != []
    ensures Increasing(page) && forall i :: 0 <= i < |page| ==> WaitingRow(now, page[i])
    ensures |Queue(now, page[|page| - 1] + 1)| == offset + |page|
    ensures offset < |queue| && page[0] == queue[offset]
  {
    PageIsSlice(queue, offset, page);
    SliceIsSorted(now, queue, offset, page);
    forall i | 0 <= i < |page| ensures WaitingRow(now, page[i]) { EntryWaits(now, |now.runs|, offset + i); }
    QueueThrough(now, |now.runs|, offset + |page| - 1);
  }

  lemma SliceIsSorted(now: Db, queue: seq<nat>, offset: nat, page: seq<nat>)
    requires queue == Queue(now, |now.runs|) && offset + |page| <= |queue| && page == queue[offset..offset + |page|]
    ensures Increasing(page)
  {
    QueueIsSorted(now, queue);
  }

  /** The next page lies ahead of everything tried. */
  lemma PageAhead(now: Db, tried: seq<nat>, page: seq<nat>)
    requires Increasing(tried) && (tried != [] ==> |Queue(now, tried[|tried| - 1] + 1)| <= |tried|)
    requires page == PageOf(Queue(now, |now.runs|), |tried|) && page != []
    ensures Increasing(tried + page)
  {
    PageRuns(now, Queue(now, |now.runs|), |tried|, page);
    if tried != [] { EntryIsAhead(now, |now.runs|, tried[|tried| - 1], |tried|); }
    InOrderAppend(tried, page);
  }

  lemma StillInOrder(db: Db, now': Db, tried: seq<nat>, page: seq<nat>)
    requires Increasing(tried + page) && page != []
    requires forall i :: 0 <= i < |tried| ==> WaitingRow(db, tried[i])
    requires forall i :: 0 <= i < |page| ==> WaitingRow(db, page[i])
    requires |Queue(now', page[|page| - 1] + 1)| <= |tried| + |page|
    ensures WalkedInOrder(db, tried + page, now')
  {
  }

  /** Up to the last run of the page no more wait afterwards than were tried by then. */
  lemma PageDepth(terms: Terms, db: Db, tried: seq<nat>, chances: nat -> Chance, now: Db, page: seq<nat>, now': Db)
    requires terms.config.Valid() && Alone(terms, db, chances)
    requires now == Turns(terms, db, tried, chances).db && now' == Turns(terms, db, tried + page, chances).db
    requires page == PageOf(Queue(now, |now.runs|), |tried|) && page != []
    ensures |Queue(now', page[|page| - 1] + 1)| <= |tried| + |page|
    ensures forall i :: 0 <= i < |page| ==> WaitingRow(db, page[i])
  {
    PageRuns(now, Queue(now, |now.runs|), |tried|, page);
    WaitedBefore(terms, db, tried, chances, now, page);
    QueueShrank(terms, db, tried, page, chances, now, now', page[|page| - 1] + 1);
  }

  /** Reading the next page keeps the walk in order. */
  lemma NextPageInOrder(terms: Terms, db: Db, tried: seq<nat>, chances: nat -> Chance, now: Db, page: seq<nat>, now': Db)
    requires terms.config.Valid() && Alone(terms, db, chances)
    requires now == Turns(terms, db, tried, chances).db && WalkedInOrder(db, tried, now)
    requires page == PageOf(Queue(now, |now.runs|), |tried|) && page != []
    requires now' == Turns(terms, db, tried + page, chances).db
    ensures WalkedInOrder(db, tried + page, now')
  {
    PageAhead(now, tried, page);
    PageDepth(terms, db, tried, chances, now, page, now');
    StillInOrder(db, now', tried, page);
  }

  lemma WaitedBefore(terms: Terms, db: Db, tried: seq<nat>, chances: nat -> Chance, now: Db, page: seq<nat>)
    requires terms.config.Valid() && Alone(terms, db, chances) && now == Turns(terms, db, tried, chances).db
    requires forall i :: 0 <= i < |page| ==> WaitingRow(now, page[i])
    ensures forall i :: 0 <= i < |page| ==> WaitingRow(db, page[i])
  {
    forall i | 0 <= i < |page| ensures WaitingRow(db, page[i]) { TurnsShrinkQueue(terms, db, tried, chances, page[i]); }
  }

  lemma QueueShrank(terms: Terms, db: Db, tried: seq<nat>, more: seq<nat>, chances: nat -> Chance, now: Db, now': Db, n: nat)
    requires terms.config.Valid() && Alone(terms, db, chances)
    requires now == Turns(terms, db, tried, chances).db && now' == Turns(terms, db, tried + more, chances).db
    ensures |Queue(now', n)| <= |Queue(now, n)|
  {
    forall r: nat | r < n && WaitingRow(now', r) ensures WaitingRow(now, r) {
      MoreTriesShrinkQueue(terms, db, tried, more, chances, r);
    }
    ShorterQueue(now, now', n);
  }

  lemma InOrderAppend(xs: seq<nat>, ys: seq<nat>)
    requires Increasing(xs) && Increasing(ys) && (xs != [] && ys != [] ==> xs[|xs| - 1] < ys[0])
    ensures Increasing(xs + ys)
  {
    forall i, j | 0 <= i < j < |xs + ys| ensures (xs + ys)[i] < (xs + ys)[j] {
      if i < |xs| <= j {
        assert xs[i] <= xs[|xs| - 1] && ys[0] <= ys[j - |xs|];
      }
    }
  }

  lemma {:induction false} WalkStaysInOrder(terms: Terms, db: Db, tried: seq<nat>, chances: nat -> Chance, now: Db)
    requires terms.config.Valid() && Alone(terms, db, chances)
    requires now == Turns(terms, db, tried, chances).db && WalkedInOrder(db, tried, now)
    ensures Increasing(WholeWalk(terms, db, tried, chances))
    ensures forall r :: r in WholeWalk(terms, db, tried, chances) ==> WaitingRow(db, r)
    decreases if |tried| <= |db.runs| then |db.runs| - |tried| else 0
  {
    var page := NextPage(terms, db, tried, chances);
    if page != [] {
      PageIsAhead(terms, db, tried, chances);
      var now' := Turns(terms, db, tried + page, chances).db;
      NextPageInOrder(terms, db, tried, chances, now, page, now');
      WalkStaysInOrder(terms, db, tried + page, chances, now');
    }
  }

  /** A worker tries runs of the queue only, oldest first: each at most once, and none that
      it has passed over. */
  lemma WalkIsInOrder(terms: Terms, db: Db, chances: nat -> Chance)
    requires terms.config.Valid() && Alone(terms, db, chances)
    ensures var tried := WholeWalk(terms, db, [], chances);
            Increasing(tried) && forall r :: r in tried ==> r in Queue(db, |db.runs|)
  {
    WalkStaysInOrder(terms, db, [], chances, db);
    QueueIsExact(db, |db.runs|);
  }

  // ---- completely ----------------------------------------------------------------------

  /** Some entry opens a page behind entry `i`. */
  predicate HasLaterPage(queue: seq<nat>, i: nat) { (i / PAGE + 1) * PAGE < |queue| }

  /** No entry that has a page behind it is bound to leave. */
  ghost predicate NoEarlyLeaver(terms: Terms, db: Db, queue: seq<nat>, chances: nat -> Chance)
    requires terms.config.Valid() && SortedQueue(db, queue)
  {
    forall i :: 0 <= i < |queue| && HasLaterPage(queue, i) ==> !Leaves(terms, db, queue[i], chances(i))
  }

  /** Behind entries none of which left, the next page is the next of the queue. */
  lemma NextPageIsNext(terms: Terms, db: Db, chances: nat -> Chance, queue: seq<nat>, m: nat, end: nat, page: seq<nat>)
    requires terms.config.Valid() && Alone(terms, db, chances) && SortedQueue(db, queue) && m < |queue|
    requires forall i :: 0 <= i < m ==> !Leaves(terms, db, queue[i], chances(i))
    requires end == (if m + PAGE <= |queue| then m + PAGE else |queue|) && page == NextPage(terms, db, queue[..m], chances)
    ensures page == queue[m..end]
  {
    var gone := Leaving(terms, db, queue, chances, m);
    LaterPageSkips(terms, db, chances, queue, m, gone, page);
    assert Trues(gone, m) == 0;
    FirstOf(queue, m, end);
  }

  lemma FirstOf(queue: seq<nat>, m: nat, end: nat)
    requires m < |queue| && end == if m + PAGE <= |queue| then m + PAGE else |queue|
    ensures PageOf(queue[m..], 0) == queue[m..end] && queue[..m] + queue[m..end] == queue[..end]
  {
  }

  lemma WalkMovesOn(terms: Terms, db: Db, chances: nat -> Chance, queue: seq<nat>, m: nat, end: nat)
    requires terms.config.Valid() && Alone(terms, db, chances) && SortedQueue(db, queue) && m < |queue|
    requires forall i :: 0 <= i < m ==> !Leaves(terms, db, queue[i], chances(i))
    requires end == if m + PAGE <= |queue| then m + PAGE else |queue|
    ensures WholeWalk(terms, db, queue[..m], chances) == WholeWalk(terms, db, queue[..end], chances)
  {
    var page := NextPage(terms, db, queue[..m], chances);
    NextPageIsNext(terms, db, chances, queue, m, end, page);
    FirstOf(queue, m, end);
    WalkNext(terms, db, queue[..m], chances, page);
  }

  /** Once the whole queue was tried there is no further page. */
  lemma NoPageBehindTheQueue(terms: Terms, db: Db, chances: nat -> Chance, queue: seq<nat>)
    requires terms.config.Valid() && Alone(terms, db, chances) && SortedQueue(db, queue)
    ensures WholeWalk(terms, db, queue, chances) == queue
  {
    var db' := Turns(terms, db, queue, chances).db;
    TurnsKeepRuns(terms, db, queue, chances);
    OthersWait(terms, db, queue, chances, db');
    ShorterQueue(db, db', |db.runs|);
    assert NextPage(terms, db, queue, chances) == [];
  }

  /** An entry before a page boundary has that page behind it. */
  lemma BoundaryIsBehind(queue: seq<nat>, i: nat, m: nat)
    requires i < m < |queue| && m % PAGE == 0
    ensures HasLaterPage(queue, i)
  {
  }

  predicate Boundary(m: nat) { m % PAGE == 0 }

  lemma NextBoundary(m: nat)
    requires Boundary(m)
    ensures Boundary(m + PAGE)
  {
  }

  /** None of the first `m` entries is bound to leave. */
  ghost predicate CleanBefore(terms: Terms, db: Db, queue: seq<nat>, chances: nat -> Chance, m: nat)
    requires terms.config.Valid() && SortedQueue(db, queue) && m <= |queue|
  {
    forall i :: 0 <= i < m ==> !Leaves(terms, db, queue[i], chances(i))
  }

  lemma CleanAtBoundary(terms: Terms, db: Db, queue: seq<nat>, chances: nat -> Chance, m: nat)
    requires terms.config.Valid() && SortedQueue(db, queue) && m < |queue| && Boundary(m)
    requires NoEarlyLeaver(terms, db, queue, chances)
    ensures CleanBefore(terms, db, queue, chances, m)
  {
    forall i | 0 <= i < m ensures !Leaves(terms, db, queue[i], chances(i)) { BoundaryIsBehind(queue, i, m); }
  }

  lemma {:induction false} CleanWalkGoesOn(terms: Terms, db: Db, chances: nat -> Chance, queue: seq<nat>, m: nat, walk: seq<nat>)
    requires terms.config.Valid() && Alone(terms, db, chances) && SortedQueue(db, queue) && m < |queue| && Boundary(m)
    requires forall b: nat :: b < |queue| && Boundary(b) ==> CleanBefore(terms, db, queue, chances, b)
    requires walk == WholeWalk(terms, db, queue[..m], chances)
    ensures walk == queue
    decreases |queue| - m
  {
    var end := if m + PAGE <= |queue| then m + PAGE else |queue|;
    assert CleanBefore(terms, db, queue, chances, m);
    WalkMovesOn(terms, db, chances, queue, m, end);
    if end < |queue| {
      NextBoundary(m);
      CleanWalkGoesOn(terms, db, chances, queue, end, walk);
    } else {
      assert queue[..end] == queue;
      NoPageBehindTheQueue(terms, db, chances, queue);
    }
  }

  /** The walk reaches the page behind the first leaver's having tried everything before. */
  lemma {:induction false} WalkReaches(terms: Terms, db: Db, chances: nat -> Chance, queue: seq<nat>, p: nat)
    requires terms.config.Valid() && Alone(terms, db, chances) && SortedQueue(db, queue) && p * PAGE < |queue|
    requires forall i :: 0 <= i < (p - 1) * PAGE ==> !Leaves(terms, db, queue[i], chances(i))
    ensures WholeWalk(terms, db, [], chances) == WholeWalk(terms, db, queue[..p * PAGE], chances)
  {
    if p == 0 {
      assert queue[..0] == [];
    } else {
      WalkReaches(terms, db, chances, queue, p - 1);
      var m := (p - 1) * PAGE;
      WalkMovesOn(terms, db, chances, queue, m, m + PAGE);
      assert m + PAGE == p * PAGE;
    }
  }

  /** A page that starts late passes its first run over for good. */
  lemma PassedOver(terms: Terms, db: Db, chances: nat -> Chance, queue: seq<nat>, m: nat)
    requires terms.config.Valid() && Alone(terms, db, chances) && SortedQueue(db, queue) && m < |queue|
    requires exists i :: 0 <= i < m && Leaves(terms, db, queue[i], chances(i))
    requires WholeWalk(terms, db, [], chances) == WholeWalk(terms, db, queue[..m], chances)
    ensures queue[m] !in WholeWalk(terms, db, [], chances)
  {
    var tried, walk := queue[..m], WholeWalk(terms, db, queue[..m], chances);
    var gone, page := Leaving(terms, db, queue, chances, m), NextPage(terms, db, tried, chances);
    LaterPageSkips(terms, db, chances, queue, m, gone, page);
    WalkIsInOrder(terms, db, chances);
    if page == [] {
      assert walk == tried;
    } else {
      WalkNext(terms, db, tried, chances, page);
      LatePageIsLater(queue, m, Trues(gone, m), page);
      NotBetween(walk, tried, page, queue[m]);
    }
  }

  lemma LatePageIsLater(queue: seq<nat>, m: nat, late: nat, page: seq<nat>)
    requires Increasing(queue) && m < |queue| && 0 < late && page == PageOf(queue[m..], late) && page != []
    ensures queue[m] < page[0]
  {
    assert page[0] == queue[m + late];
  }

  /** Nothing lies between two neighbours of an increasing sequence. */
  lemma NotBetween(walk: seq<nat>, tried: seq<nat>, page: seq<nat>, r: nat)
    requires Increasing(walk) && tried + page <= walk && page != [] && r < page[0]
    requires forall i :: 0 <= i < |tried| ==> tried[i] < r
    ensures r !in walk
  {
    forall i | 0 <= i < |walk| ensures walk[i] != r {
      if i < |tried| {
        assert walk[i] == (tried + page)[i];
      } else {
        assert walk[|tried|] == (tried + page)[|tried|];
      }
    }
  }

  /** A worker that its batch does not stop tries the whole queue if and only if no entry
      that has a page behind it is bound to leave -- told from the tables before the walk. */
  lemma WalkIsCompleteIff(terms: Terms, db: Db, chances: nat -> Chance, queue: seq<nat>)
    requires terms.config.Valid() && Alone(terms, db, chances) && SortedQueue(db, queue)
    ensures WholeWalk(terms, db, [], chances) == queue <==> NoEarlyLeaver(terms, db, queue, chances)
  {
    if NoEarlyLeaver(terms, db, queue, chances) {
      if queue == [] {
        NoPageBehindTheQueue(terms, db, chances, queue);
      } else {
        forall b: nat | b < |queue| && Boundary(b) ensures CleanBefore(terms, db, queue, chances, b) {
          CleanAtBoundary(terms, db, queue, chances, b);
        }
        assert queue[..0] == [];
        CleanWalkGoesOn(terms, db, chances, queue, 0, WholeWalk(terms, db, [], chances));
      }
    } else {
      var i :| 0 <= i < |queue| && HasLaterPage(queue, i) && Leaves(terms, db, queue[i], chances(i));
      EarlyLeaverHidesARun(terms, db, chances, queue, i);
    }
  }

  /** The first page with a leaver hides the run that opens the next. */
  lemma {:induction false} EarlyLeaverHidesARun(terms: Terms, db: Db, chances: nat -> Chance, queue: seq<nat>, i: nat)
    requires terms.config.Valid() && Alone(terms, db, chances) && SortedQueue(db, queue)
    requires i < |queue| && HasLaterPage(queue, i) && Leaves(terms, db, queue[i], chances(i))
    ensures WholeWalk(terms, db, [], chances) != queue
    decreases i
  {
    var p := i / PAGE;
    if j :| 0 <= j < p * PAGE && Leaves(terms, db, queue[j], chances(j)) {
      EarlyLeaverHidesARun(terms, db, chances, queue, j);
    } else {
      WalkReaches(terms, db, chances, queue, p + 1);
      PassedOver(terms, db, chances, queue, (p + 1) * PAGE);
    }
  }
}
