/** A whole maintenance pass over the tables: reclaiming every expired lease, and
    settling every abandoned cancellation within the pass's limit. */
module ReclaimPass {
  import opened Contracts
  import opened Admission
  import opened Tables
  import opened Transactions
  import opened TableInvariant
  import opened RunProtocol
  import opened RunSafety
  import opened AtomicProtocol

  /** Expired, still running, and its process is gone. */
  predicate Reclaimable(row: AttemptRow, a: nat, reference: int, gone: set<nat>) {
    row.status.Running? && row.lease.Some? && row.lease.value < reference && a in gone
  }

  /** The tables after the first `n` attempts were considered. */
  function MarkAll(db: Db, reference: int, gone: set<nat>, n: nat): (r: Db)
    requires n <= |db.attempts|
    ensures |r.attempts| == |db.attempts| && r.runs == db.runs && r.stages == db.stages
  {
    if n == 0 then db
    else
      var before := MarkAll(db, reference, gone, n - 1);
      if Reclaimable(before.attempts[n - 1], n - 1, reference, gone)
      then EndAttempt(before, n - 1, AttemptStatus.Lost, Some(true)) else before
  }

  /** The pass marks exactly the reclaimable attempts and leaves every other row alone. */
  lemma {:induction false} MarkedRow(db: Db, reference: int, gone: set<nat>, n: nat, a: nat)
    requires n <= |db.attempts| && a < |db.attempts|
    ensures MarkAll(db, reference, gone, n).attempts[a] ==
            if a < n && Reclaimable(db.attempts[a], a, reference, gone)
            then db.attempts[a].(status := AttemptStatus.Lost, lease := None, failure := Some(true))
            else db.attempts[a]
  {
    if n > 0 {
      MarkedRow(db, reference, gone, n - 1, a);
      MarkedRow(db, reference, gone, n - 1, n - 1);
    }
  }

  /** The runs whose attempt the pass marks. */
  function MarkedRuns(attempts: seq<AttemptRow>, reference: int, gone: set<nat>, n: nat): set<nat>
    requires n <= |attempts|
  {
    if n == 0 then {}
    else MarkedRuns(attempts, reference, gone, n - 1) +
         (if Reclaimable(attempts[n - 1], n - 1, reference, gone) then {attempts[n - 1].stage} else {})
  }

  /** The identifiers a pass reports: its marked attempts below `n`, in order. */
  ghost predicate Lists(attempts: seq<AttemptRow>, reference: int, gone: set<nat>, n: nat, ids: seq<nat>)
    requires n <= |attempts|
  {
    && (forall a :: a in ids <==> 0 <= a < n && Reclaimable(attempts[a], a, reference, gone))
    && (forall i, j :: 0 <= i < j < |ids| ==> ids[i] < ids[j])
  }

  lemma ListsOneMore(attempts: seq<AttemptRow>, reference: int, gone: set<nat>, n: nat, ids: seq<nat>)
    requires n < |attempts| && Lists(attempts, reference, gone, n, ids)
    ensures Lists(attempts, reference, gone, n + 1,
                  if Reclaimable(attempts[n], n, reference, gone) then ids + [n] else ids)
  {
    assert forall i :: 0 <= i < |ids| ==> ids[i] in ids;
  }

  /** Settle the marked runs below `n`, in order. */
  function SettleAll(db: Db, marked: set<nat>, n: nat): Db {
    if n == 0 then db
    else
      var before := SettleAll(db, marked, n - 1);
      if n - 1 in marked then SettleLost(before, n - 1) else before
  }

  function Pass(db: Db, reference: int, gone: set<nat>): Db {
    SettleAll(MarkAll(db, reference, gone, |db.attempts|),
              MarkedRuns(db.attempts, reference, gone, |db.attempts|), |db.runs|)
  }

  /** Between marking and settling: a running run has a running attempt, or it is a
      marked run at or above `n` that awaits its settlement. */
  ghost predicate Awaiting(config: Config, db: Db, marked: set<nat>, n: nat)
    requires config.Valid()
  {
    && Consistent(config, db)
    && (forall r :: r in marked && n <= r ==> r < |db.runs| && !HasLive(db, r))
    && (forall r :: 0 <= r < |db.runs| ==>
          && (db.runs[r].status.Running? ==> HasLive(db, r) || (r in marked && n <= r))
          && (Closed(db.runs[r].status) ==> !HasLive(db, r)))
  }

  lemma {:induction false} MarkAllAwaits(config: Config, db: Db, reference: int, gone: set<nat>, n: nat,
                                         db': Db, marked: set<nat>)
    requires config.Valid() && Awaiting(config, db, {}, 0) && n <= |db.attempts|
    requires db' == MarkAll(db, reference, gone, n) && marked == MarkedRuns(db.attempts, reference, gone, n)
    ensures Awaiting(config, db', marked, 0)
  {
    if n != 0 {
      var before, marked0 := MarkAll(db, reference, gone, n - 1), MarkedRuns(db.attempts, reference, gone, n - 1);
      MarkAllAwaits(config, db, reference, gone, n - 1, before, marked0);
      MarkNext(db, reference, gone, n);
      if Reclaimable(db.attempts[n - 1], n - 1, reference, gone) {
        MarkOneAwaits(config, before, db', n - 1, marked0, marked);
      }
    }
  }

  lemma SoundAwaits(config: Config, db: Db)
    requires config.Valid()
    ensures Sound(config, db) <==> Awaiting(config, db, {}, 0)
  {
  }

  /** Marking one more attempt, by its row before the pass. */
  lemma MarkNext(db: Db, reference: int, gone: set<nat>, n: nat)
    requires 0 < n <= |db.attempts|
    ensures var before, row := MarkAll(db, reference, gone, n - 1), db.attempts[n - 1];
            && before.attempts[n - 1] == row
            && if Reclaimable(row, n - 1, reference, gone) then
                 && row.status.Running?
                 && MarkAll(db, reference, gone, n) == EndAttempt(before, n - 1, AttemptStatus.Lost, Some(true))
                 && MarkedRuns(db.attempts, reference, gone, n) ==
                    MarkedRuns(db.attempts, reference, gone, n - 1) + {row.stage}
               else
                 && MarkAll(db, reference, gone, n) == before
                 && MarkedRuns(db.attempts, reference, gone, n) == MarkedRuns(db.attempts, reference, gone, n - 1)
  {
    MarkedRow(db, reference, gone, n - 1, n - 1);
  }

  lemma MarkOneAwaits(config: Config, db: Db, db': Db, a: nat, marked: set<nat>, marked': set<nat>)
    requires config.Valid() && Awaiting(config, db, marked, 0)
    requires a < |db.attempts| && db.attempts[a].status.Running?
    requires db' == EndAttempt(db, a, AttemptStatus.Lost, Some(true)) && marked' == marked + {db.attempts[a].stage}
    ensures Awaiting(config, db', marked', 0)
  {
    EndKeeps(config, db, a, AttemptStatus.Lost, Some(true));
    EndApart(db, a, AttemptStatus.Lost, Some(true));
    assert LiveAt(db, db.attempts[a].stage, a);
  }

  lemma {:induction false} SettleAllAwaits(config: Config, db: Db, marked: set<nat>, n: nat, db': Db)
    requires config.Valid() && Awaiting(config, db, marked, 0) && n <= |db.runs| && db' == SettleAll(db, marked, n)
    ensures Awaiting(config, db', marked, n) && |db'.runs| == |db.runs|
    ensures forall r :: 0 <= r < n && r in marked ==> !db'.runs[r].status.Running?
  {
    if n != 0 {
      var before := SettleAll(db, marked, n - 1);
      SettleAllAwaits(config, db, marked, n - 1, before);
      SettleNextAwaits(config, before, db', marked, n - 1);
    }
  }

  lemma SettleNextAwaits(config: Config, db: Db, db': Db, marked: set<nat>, r: nat)
    requires config.Valid() && Awaiting(config, db, marked, r) && db' == if r in marked then SettleLost(db, r) else db
    ensures Awaiting(config, db', marked, r + 1) && |db'.runs| == |db.runs|
    ensures r in marked ==> !db'.runs[r].status.Running?
    ensures forall q :: 0 <= q < |db.runs| && q != r ==> db'.runs[q].status == db.runs[q].status
  {
    if r in marked { SettleOneAwaits(config, db, marked, r); }
  }

  lemma SettleOneAwaits(config: Config, db: Db, marked: set<nat>, r: nat)
    requires config.Valid() && Awaiting(config, db, marked, r) && r in marked
    ensures var db' := SettleLost(db, r);
            && Awaiting(config, db', marked, r + 1) && |db'.runs| == |db.runs|
            && !db'.runs[r].status.Running?
            && (forall q :: 0 <= q < |db.runs| && q != r ==> db'.runs[q].status == db.runs[q].status)
  {
    SettleLostEffect(config, db, r);
  }

  /** A pass marks exactly the expired, fenced attempts, keeps the tables sound and
      leaves none of their runs running: nobody is left in a run nothing will finish. */
  lemma PassSettlesEveryRun(config: Config, db: Db, reference: int, gone: set<nat>)
    requires config.Valid() && Sound(config, db)
    ensures var db' := Pass(db, reference, gone);
            && Sound(config, db') && |db'.runs| == |db.runs|
            && (forall a :: 0 <= a < |db.attempts| && Reclaimable(db.attempts[a], a, reference, gone) ==>
                  !db'.runs[db.attempts[a].stage].status.Running?)
  {
    var n := |db.attempts|;
    SoundAwaits(config, db);
    var db1, marked := MarkAll(db, reference, gone, n), MarkedRuns(db.attempts, reference, gone, n);
    MarkAllAwaits(config, db, reference, gone, n, db1, marked);
    var db2 := SettleAll(db1, marked, |db.runs|);
    SettleAllAwaits(config, db1, marked, |db.runs|, db2);
    AllSettled(config, db2, marked);
    forall a | 0 <= a < n && Reclaimable(db.attempts[a], a, reference, gone) ensures db.attempts[a].stage in marked {
      MarkedContains(db.attempts, reference, gone, n, a);
    }
  }

  lemma PassKeepsAttempts(db: Db, reference: int, gone: set<nat>)
    ensures Pass(db, reference, gone).attempts == MarkAll(db, reference, gone, |db.attempts|).attempts
  {
    SettleKeepsAttempts(MarkAll(db, reference, gone, |db.attempts|),
                        MarkedRuns(db.attempts, reference, gone, |db.attempts|), |db.runs|);
  }

  lemma {:induction false} SettleKeepsAttempts(db: Db, marked: set<nat>, n: nat)
    ensures SettleAll(db, marked, n).attempts == db.attempts
  {
    if n > 0 { SettleKeepsAttempts(db, marked, n - 1); }
  }

  lemma AllSettled(config: Config, db: Db, marked: set<nat>)
    requires config.Valid() && Awaiting(config, db, marked, |db.runs|)
    ensures Sound(config, db)
  {
  }

  lemma {:induction false} MarkedContains(attempts: seq<AttemptRow>, reference: int, gone: set<nat>, n: nat, a: nat)
    requires a < n <= |attempts| && Reclaimable(attempts[a], a, reference, gone)
    ensures attempts[a].stage in MarkedRuns(attempts, reference, gone, n)
  {
    if a < n - 1 { MarkedContains(attempts, reference, gone, n - 1, a); }
  }

  // ---- abandoned cancellations -----------------------------------------------------

  /** How many cancel requests are older than run `r`. */
  function OlderRequests(runs: seq<RunRow>, r: nat): nat
    requires r <= |runs|
  {
    if r == 0 then 0
    else OlderRequests(runs, r - 1) + (if runs[r - 1].status.CancelRequested? then 1 else 0)
  }

  /** A pass with this limit covers the run and nothing of it runs. */
  predicate Covered(db: Db, limit: nat, r: nat) {
    Abandoned(db, r) && OlderRequests(db.runs, r) < limit
  }

  /** The tables once the listed runs, and no others, were cancelled. */
  ghost predicate Cancels(was: Db, db: Db, listed: seq<nat>) {
    && db.attempts == was.attempts && db.reservations == was.reservations
    && |db.runs| == |was.runs| && |db.stages| == |was.stages|
    && (forall r :: 0 <= r < |db.runs| ==>
          db.runs[r] == if r in listed then was.runs[r].(status := Cancelled) else was.runs[r])
    && (forall r :: 0 <= r < |db.stages| ==>
          db.stages[r] == if r in listed && !Terminal(was.stages[r].status)
                          then was.stages[r].(status := Cancelled) else was.stages[r])
  }

  lemma CancelsOneMore(was: Db, db: Db, listed: seq<nat>, r: nat)
    requires Cancels(was, db, listed) && r !in listed
    requires r < |was.runs| && was.runs[r].status.CancelRequested?
    ensures Cancels(was, After(db, TransitionRun(db, r, Cancelled)), listed + [r])
  {
  }

  lemma {:induction false} DistinctSize(ids: seq<nat>, all: set<nat>)
    requires forall i, j :: 0 <= i < j < |ids| ==> ids[i] != ids[j]
    requires forall r :: r in ids <==> r in all
    ensures |all| == |ids|
    decreases |ids|
  {
    if ids == [] {
      assert all == {};
    } else {
      var last := ids[|ids| - 1];
      DistinctSize(ids[..|ids| - 1], all - {last});
    }
  }
}
