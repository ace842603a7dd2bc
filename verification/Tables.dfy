/** The durable tables.  Run and attempt rows are never deleted, so a row's
    identifier is its position: identifiers are fresh when issued and
    `created_at` order is position order.  Every run has exactly one stage,
    stored under the run's identifier. */
module Tables {
  import opened Contracts
  import opened Admission

  datatype RunRow = RunRow(key: Option<string>, task: TaskSpec, status: RunStatus)

  datatype StageRow = StageRow(pluginVersion: string, resumable: bool, status: RunStatus)

  /** `failure` is absent, or present with its `retryable` flag. */
  datatype AttemptRow = AttemptRow(
    stage: nat, number: nat, status: AttemptStatus, worker: string, lease: Option<int>, failure: Option<bool>)

  datatype Db = Db(
    runs: seq<RunRow>, stages: seq<StageRow>, attempts: seq<AttemptRow>, reservations: map<nat, Reservation>)

  const EMPTY := Db([], [], [], map[])

  /** How many of the first `n` attempts belong to a stage. */
  function Count(attempts: seq<AttemptRow>, stage: nat, n: nat): nat
    requires n <= |attempts|
  {
    if n == 0 then 0
    else Count(attempts, stage, n - 1) + (if attempts[n - 1].stage == stage then 1 else 0)
  }

  function Made(db: Db, stage: nat): nat { Count(db.attempts, stage, |db.attempts|) }

  /** COALESCE(MAX(attempt_number), 0) over the first `n` attempts of a stage. */
  function MaxNumber(attempts: seq<AttemptRow>, stage: nat, n: nat): nat
    requires n <= |attempts|
  {
    if n == 0 then 0
    else
      var before := MaxNumber(attempts, stage, n - 1);
      if attempts[n - 1].stage == stage then Max(before, attempts[n - 1].number) else before
  }

  /** The attempt of a stage with the largest number, among the first `n`. */
  function Latest(attempts: seq<AttemptRow>, stage: nat, n: nat): (r: Option<nat>)
    requires n <= |attempts|
    ensures r.Some? ==> r.value < n && attempts[r.value].stage == stage
  {
    if n == 0 then None
    else
      var before := Latest(attempts, stage, n - 1);
      if attempts[n - 1].stage == stage
         && (before.None? || attempts[before.value].number < attempts[n - 1].number)
      then Some(n - 1) else before
  }

  /** SUM(cpu_cores) and SUM(memory_bytes) over the reservations of attempts below `n`. */
  function CpuSum(reservations: map<nat, Reservation>, n: nat): nat {
    if n == 0 then 0
    else CpuSum(reservations, n - 1) + (if n - 1 in reservations then reservations[n - 1].cpu else 0)
  }

  function MemorySum(reservations: map<nat, Reservation>, n: nat): nat {
    if n == 0 then 0
    else MemorySum(reservations, n - 1) + (if n - 1 in reservations then reservations[n - 1].memory else 0)
  }

  predicate LiveAt(db: Db, stage: nat, a: nat) {
    a < |db.attempts| && db.attempts[a].stage == stage && db.attempts[a].status.Running?
  }

  predicate HasLive(db: Db, stage: nat) {
    exists a :: 0 <= a < |db.attempts| && LiveAt(db, stage, a)
  }

  /** Counting, maxima and sums depend only on what they read. */
  lemma CountAgrees(a: seq<AttemptRow>, b: seq<AttemptRow>, stage: nat, n: nat)
    requires n <= |a| && n <= |b|
    requires forall i :: 0 <= i < n ==> a[i].stage == b[i].stage
    ensures Count(a, stage, n) == Count(b, stage, n)
  {
  }

  lemma CountMonotone(a: seq<AttemptRow>, stage: nat, m: nat, n: nat)
    requires m <= n <= |a|
    ensures Count(a, stage, m) <= Count(a, stage, n)
    ensures forall i :: m <= i < n && a[i].stage == stage ==> Count(a, stage, m) < Count(a, stage, n)
  {
  }

  lemma SumsAgree(a: map<nat, Reservation>, b: map<nat, Reservation>, n: nat)
    requires forall i: nat :: i < n ==> (i in a <==> i in b) && (i in a ==> a[i] == b[i])
    ensures CpuSum(a, n) == CpuSum(b, n) && MemorySum(a, n) == MemorySum(b, n)
  {
  }

  /** Releasing a reservation never increases what is held. */
  lemma SumsRelease(a: map<nat, Reservation>, k: nat, n: nat)
    ensures CpuSum(a - {k}, n) <= CpuSum(a, n) && MemorySum(a - {k}, n) <= MemorySum(a, n)
  {
  }
}
