/** Listing and counting runs: an early-exit loop that skips, collects and stops is a
    slice of the filtered, newest-first list. */
module EvidencePaging {
  import opened Contracts

  const MAX_RUN_LIMIT := 500

  datatype RunView = RunView(runId: string, project: string, design: string, plugin: string, status: RunStatus)

  /** An empty name filters nothing; `owners` restricts to a caller's own runs. */
  datatype Filter = Filter(
    project: string, design: string, plugin: string, status: Option<RunStatus>, owners: Option<set<string>>)

  predicate Passes(f: Filter, run: RunView) {
    && (f.owners.Some? ==> run.runId in f.owners.value)
    && (f.project != "" ==> run.project == f.project)
    && (f.design != "" ==> run.design == f.design)
    && (f.plugin != "" ==> run.plugin == f.plugin)
    && (f.status.Some? ==> run.status == f.status.value)
  }

  /** Those of the first `n` runs that pass, in their order. */
  function Passing(f: Filter, rows: seq<RunView>, n: nat): seq<RunView>
    requires n <= |rows|
  {
    if n == 0 then []
    else Passing(f, rows, n - 1) + (if Passes(f, rows[n - 1]) then [rows[n - 1]] else [])
  }

  function Filtered(f: Filter, rows: seq<RunView>): seq<RunView> { Passing(f, rows, |rows|) }

  /** How often `run` occurs among the first `n`. */
  function Times(xs: seq<RunView>, run: RunView, n: nat): nat
    requires n <= |xs|
  {
    if n == 0 then 0 else Times(xs, run, n - 1) + (if xs[n - 1] == run then 1 else 0)
  }

  lemma {:induction false} TimesPrefix(xs: seq<RunView>, ys: seq<RunView>, run: RunView, n: nat)
    requires n <= |xs| && xs <= ys
    ensures Times(xs, run, n) == Times(ys, run, n)
  {
    if n > 0 { TimesPrefix(xs, ys, run, n - 1); }
  }

  /** Filtering keeps exactly the runs that pass, each as often as it occurs. */
  lemma {:induction false} FilteredExactly(f: Filter, rows: seq<RunView>, n: nat, run: RunView)
    requires n <= |rows|
    ensures Times(Passing(f, rows, n), run, |Passing(f, rows, n)|) == if Passes(f, run) then Times(rows, run, n) else 0
  {
    if n > 0 {
      FilteredExactly(f, rows, n - 1, run);
      var before := Passing(f, rows, n - 1);
      TimesPrefix(before, Passing(f, rows, n), run, |before|);
    }
  }

  /** A run is listed if and only if it exists and every filter that is set names it. */
  lemma ListedIff(f: Filter, rows: seq<RunView>, run: RunView)
    ensures run in Filtered(f, rows) <==>
            && run in rows
            && (f.owners.None? || run.runId in f.owners.value) && (f.status.None? || run.status == f.status.value)
            && (f.project == "" || run.project == f.project) && (f.design == "" || run.design == f.design)
            && (f.plugin == "" || run.plugin == f.plugin)
  {
    FilteredExactly(f, rows, |rows|, run);
    OccursIff(rows, run, |rows|);
    OccursIff(Filtered(f, rows), run, |Filtered(f, rows)|);
    assert rows[..|rows|] == rows && Filtered(f, rows)[..|Filtered(f, rows)|] == Filtered(f, rows);
  }

  lemma {:induction false} OccursIff(xs: seq<RunView>, run: RunView, n: nat)
    requires n <= |xs|
    ensures 0 < Times(xs, run, n) <==> run in xs[..n]
  {
    if n > 0 {
      OccursIff(xs, run, n - 1);
      assert xs[..n] == xs[..n - 1] + [xs[n - 1]];
    }
  }

  /** More rows only append. */
  lemma {:induction false} PassingGrows(f: Filter, rows: seq<RunView>, m: nat, n: nat)
    requires m <= n <= |rows|
    ensures Passing(f, rows, m) <= Passing(f, rows, n)
  {
    if m < n { PassingGrows(f, rows, m, n - 1); }
  }

  function AtMost(a: nat, b: nat): nat { if a <= b then a else b }

  /** At most `limit` elements from position `offset` on. */
  function Slice(xs: seq<RunView>, limit: nat, offset: nat): seq<RunView> {
    xs[AtMost(offset, |xs|)..AtMost(offset + limit, |xs|)]
  }

  datatype Listing = Listing(page: seq<RunView>) | BadLimit | BadOffset

  /** An element below the offset is skipped, one from there on is collected. */
  lemma SliceNext(xs: seq<RunView>, x: RunView, limit: nat, offset: nat)
    requires |xs| < offset + limit
    ensures Slice(xs + [x], limit, offset) == Slice(xs, limit, offset) + if |xs| < offset then [] else [x]
    ensures |Slice(xs, limit, offset)| == |xs| - AtMost(|xs|, offset)
  {
  }

  /** Once the slice is full, further rows cannot change it. */
  lemma FullSliceStays(xs: seq<RunView>, ys: seq<RunView>, limit: nat, offset: nat)
    requires xs <= ys && |xs| == offset + limit
    ensures Slice(ys, limit, offset) == Slice(xs, limit, offset)
  {
  }

  /** `rows` are newest first; a bad limit is reported before a bad offset. */
  method Runs(f: Filter, rows: seq<RunView>, limit: int, offset: int) returns (r: Listing)
    ensures r == if !(1 <= limit <= MAX_RUN_LIMIT) then BadLimit
                 else if offset < 0 then BadOffset
                 else Listing(Slice(Filtered(f, rows), limit, offset))
  {
    if !(1 <= limit <= MAX_RUN_LIMIT) { return BadLimit; }
    if offset < 0 { return BadOffset; }
    var page := Page(f, rows, limit, offset);
    return Listing(page);
  }

  /** The loop's variables once it has met the matches `passed` and is not done. */
  predicate Met(passed: seq<RunView>, limit: nat, offset: nat, matched: nat, summaries: seq<RunView>) {
    |passed| < offset + limit && matched == AtMost(|passed|, offset) && summaries == Slice(passed, limit, offset)
  }

  lemma MetNext(passed: seq<RunView>, x: RunView, limit: nat, offset: nat, matched: nat, summaries: seq<RunView>)
    requires Met(passed, limit, offset, matched, summaries)
    ensures matched < offset && 1 <= limit ==> Met(passed + [x], limit, offset, matched + 1, summaries)
    ensures offset <= matched ==> summaries + [x] == Slice(passed + [x], limit, offset)
    ensures offset <= matched ==>
            if |summaries + [x]| < limit then Met(passed + [x], limit, offset, matched, summaries + [x])
            else |passed + [x]| == offset + limit
  {
    SliceNext(passed, x, limit, offset);
  }

  /** The loop stops early with what the whole list would have given. */
  lemma FullPage(f: Filter, rows: seq<RunView>, n: nat, limit: nat, offset: nat)
    requires n <= |rows| && |Passing(f, rows, n)| == offset + limit
    ensures Slice(Filtered(f, rows), limit, offset) == Slice(Passing(f, rows, n), limit, offset)
  {
    PassingGrows(f, rows, n, |rows|);
    FullSliceStays(Passing(f, rows, n), Filtered(f, rows), limit, offset);
  }

  /** Skip `offset` matches, then collect up to `limit`, and stop. */
  method Page(f: Filter, rows: seq<RunView>, limit: nat, offset: nat) returns (summaries: seq<RunView>)
    requires 1 <= limit
    ensures summaries == Slice(Filtered(f, rows), limit, offset)
  {
    summaries := [];
    var matched := 0;
    ghost var passed: seq<RunView> := [];
    for i := 0 to |rows|
      invariant passed == Passing(f, rows, i) && Met(passed, limit, offset, matched, summaries)
    {
      if Passes(f, rows[i]) {
        MetNext(passed, rows[i], limit, offset, matched, summaries);
        passed := passed + [rows[i]];
        assert passed == Passing(f, rows, i + 1);
        if matched < offset {
          matched := matched + 1;
          continue;
        }
        summaries := summaries + [rows[i]];
        if |summaries| >= limit {
          FullPage(f, rows, i + 1, limit, offset);
          return;
        }
      }
    }
  }

  /** The first `k` pages, one after the other. */
  function Pages(xs: seq<RunView>, limit: nat, k: nat): seq<RunView> {
    if k == 0 then [] else Pages(xs, limit, k - 1) + Slice(xs, limit, (k - 1) * limit)
  }

  /** Pages tile the list: nothing is skipped, repeated or reordered. */
  lemma {:induction false} PagesConcatenate(xs: seq<RunView>, limit: nat, k: nat)
    ensures Pages(xs, limit, k) == xs[..AtMost(k * limit, |xs|)]
  {
    if k > 0 {
      PagesConcatenate(xs, limit, k - 1);
      assert (k - 1) * limit + limit == k * limit;
    }
  }

  /** Enough pages give the whole list. */
  lemma PagesCoverAll(xs: seq<RunView>, limit: nat, k: nat)
    requires |xs| <= k * limit
    ensures Pages(xs, limit, k) == xs
  {
    PagesConcatenate(xs, limit, k);
  }

  /** Count by paging until a page comes back short; a last page that is exactly full
      costs one more, empty, page. */
  method CountRuns(f: Filter, rows: seq<RunView>) returns (total: nat)
    ensures total == |Filtered(f, rows)|
  {
    ghost var all := Filtered(f, rows);
    total := 0;
    var offset := 0;
    while true
      invariant offset == total && total <= |all|
      decreases |all| - offset
    {
      var r := Runs(f, rows, MAX_RUN_LIMIT, offset);
      total := total + |r.page|;
      if |r.page| < MAX_RUN_LIMIT { return; }
      offset := offset + |r.page|;
    }
  }
}
