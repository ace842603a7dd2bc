/** One pure function per store transaction: what it commits, or why it refuses.
    A refusal rolls back, so it carries no tables. */
module Transactions {
  import opened Contracts
  import opened Admission
  import opened Tables

  datatype Error =
    | UnknownRun | UnknownStage | UnknownAttempt | UnknownReference
    | InvalidTransition | InvalidArgument
    | DifferentTask | DifferentVersion
    | NoCapacity | MemoryRequired | NotRetryable | BudgetExhausted | WrongWorker

  datatype Txn<T> = Committed(db: Db, value: T) | Refused(error: Error)

  /** What the caller of a store method sees: a value, or the exception raised.
      A claim the budget refuses returns nothing; it is reported as `NoCapacity`. */
  datatype Reply<T> = Returned(value: T) | Raised(error: Error)

  function ReplyOf<T>(txn: Txn<T>): Reply<T> {
    if txn.Committed? then Returned(txn.value) else Raised(txn.error)
  }

  function After<T>(db: Db, txn: Txn<T>): Db {
    if txn.Committed? then txn.db else db
  }

  // ---- submission ----------------------------------------------------------

  /** Recorded digests of uploaded inputs and of artifacts. */
  datatype Catalog = Catalog(uploads: map<string, Digest>, artifacts: map<string, Digest>)

  datatype NormalOrigin = Host(path: string) | ArtifactBytes(d: Digest) | UploadBytes(d: Digest)

  datatype NormalInput = NormalInput(destination: string, origin: NormalOrigin, required: bool)

  const HOST_SOURCE_PREFIX := "__platform_host_source_"

  function VisibleLabels(labels: map<string, string>): map<string, string> {
    map k | k in labels && !(HOST_SOURCE_PREFIX <= k) :: labels[k]
  }

  predicate ReferencesKnown(c: Catalog, inputs: seq<InputFile>) {
    forall i :: 0 <= i < |inputs| ==>
      match inputs[i].origin
      case HostPath(_) => true
      case ArtifactRef(a) => a in c.artifacts
      case UploadRef(u) => u in c.uploads
  }

  function NormalInputs(c: Catalog, inputs: seq<InputFile>): seq<NormalInput>
    requires ReferencesKnown(c, inputs)
  {
    seq(|inputs|, i requires 0 <= i < |inputs| =>
      NormalInput(
        inputs[i].destination,
        (match inputs[i].origin
         case HostPath(p) => Host(p)
         case ArtifactRef(a) => ArtifactBytes(c.artifacts[a])
         case UploadRef(u) => UploadBytes(c.uploads[u])),
        inputs[i].required))
  }

  /** Tasks are compared by input bytes, not by generated object identifiers. */
  predicate Equivalent(c: Catalog, x: TaskSpec, y: TaskSpec)
    requires ReferencesKnown(c, x.stagedInputs) && ReferencesKnown(c, y.stagedInputs)
  {
    && x.taskId == y.taskId && x.body == y.body
    && VisibleLabels(x.labels) == VisibleLabels(y.labels)
    && NormalInputs(c, x.stagedInputs) == NormalInputs(c, y.stagedInputs)
    && x.inputManifest == y.inputManifest
    && x.resources == y.resources && x.maxAttempts == y.maxAttempts
  }

  /** The first run that matches, in creation order. */
  function FirstRun(runs: seq<RunRow>, wanted: RunRow -> bool): (r: Option<nat>)
    ensures r.Some? ==> r.value < |runs| && wanted(runs[r.value])
    ensures r.Some? ==> forall i :: 0 <= i < r.value ==> !wanted(runs[i])
    ensures r.None? ==> forall i :: 0 <= i < |runs| ==> !wanted(runs[i])
  {
    if runs == [] then None
    else
      var before := FirstRun(runs[..|runs| - 1], wanted);
      if before.Some? then before
      else if wanted(runs[|runs| - 1]) then Some(|runs| - 1) else None
  }

  datatype Submission = Submission(
    task: TaskSpec, pluginVersion: string, idempotent: bool, key: Option<string>, resumable: bool)

  /** The run an earlier submission already created, if this one names it. */
  function Existing(db: Db, s: Submission): (r: Option<nat>)
    ensures r.Some? ==> r.value < |db.runs|
  {
    if s.key.Some? then FirstRun(db.runs, (row: RunRow) => row.key == s.key)
    else if s.idempotent then FirstRun(db.runs, (row: RunRow) => row.task.taskId == s.task.taskId)
    else None
  }

  function SubmitRun(db: Db, c: Catalog, s: Submission): Txn<nat> {
    if !s.task.Valid() || s.key == Some("") then Refused(InvalidArgument)
    else
      var existing := Existing(db, s);
      if existing.None? then
        Committed(
          db.(runs := db.runs + [RunRow(s.key, s.task, Queued)],
              stages := db.stages + [StageRow(s.pluginVersion, s.resumable, Queued)]),
          |db.runs|)
      else
        var r := existing.value;
        if !ReferencesKnown(c, db.runs[r].task.stagedInputs) || !ReferencesKnown(c, s.task.stagedInputs) then
          Refused(UnknownReference)
        else if !Equivalent(c, db.runs[r].task, s.task) then Refused(DifferentTask)
        else if |db.stages| <= r then Refused(UnknownStage)
        else if db.stages[r].pluginVersion != s.pluginVersion then Refused(DifferentVersion)
        else Committed(db, r)
  }

  // ---- the run state machine -----------------------------------------------

  function SetRun(db: Db, r: nat, status: RunStatus): Db
    requires r < |db.runs|
  {
    db.(runs := db.runs[r := db.runs[r].(status := status)])
  }

  function SetStage(db: Db, r: nat, status: RunStatus): Db
    requires r < |db.stages|
  {
    db.(stages := db.stages[r := db.stages[r].(status := status)])
  }

  /** "UPDATE stages ... WHERE status NOT IN (terminal statuses)". */
  function SetOpenStage(db: Db, r: nat, status: RunStatus): Db {
    if r < |db.stages| && !Terminal(db.stages[r].status) then SetStage(db, r, status) else db
  }

  function TransitionRun(db: Db, r: nat, target: RunStatus): Txn<()> {
    if |db.runs| <= r then Refused(UnknownRun)
    else
      var current := db.runs[r].status;
      if current == target then Committed(db, ())
      else if !RunTransitionAllowed(current, target) then Refused(InvalidTransition)
      else Committed(SetOpenStage(SetRun(db, r, target), r, target), ())
  }

  function RequestCancel(db: Db, r: nat): Txn<()> {
    if |db.runs| <= r then Refused(UnknownRun)
    else if Terminal(db.runs[r].status) || db.runs[r].status.CancelRequested? then Committed(db, ())
    else TransitionRun(db, r, CancelRequested)
  }

  function FailQueuedRun(db: Db, r: nat): Txn<bool> {
    if |db.runs| <= r then Refused(UnknownRun)
    else
      var current := db.runs[r].status;
      if !current.Queued? && !current.Preparing? && !current.RetryWait? then Committed(db, false)
      else Committed(SetOpenStage(SetRun(db, r, RunStatus.Failed), r, RunStatus.Failed), true)
  }

  // ---- attempts --------------------------------------------------------------

  datatype Claim = Claim(
    stage: nat, worker: string, now: int, leaseSeconds: int,
    resources: Option<ResourceRequest>, capacity: Option<Capacity>)

  /** The reservation a claim asks for: `None` when admission does not apply. */
  function ClaimWant(c: Claim): Option<Reservation> {
    if c.resources.Some? && c.resources.value.Declared() && c.capacity.Some? then
      var q := c.resources.value;
      Some(Reservation(
             if q.cpuCores.Some? && q.cpuCores.value != 0 then q.cpuCores.value else 1,
             if q.memoryBytes.Some? then q.memoryBytes.value else 0))
    else None
  }

  function StartAttempt(db: Db, c: Claim): Txn<nat>
    requires c.capacity.Some? ==> 0 < c.capacity.value.den
  {
    var a := |db.attempts|;
    if c.leaseSeconds <= 0 then Refused(InvalidArgument)
    else if |db.stages| <= c.stage then Refused(UnknownStage)
    else if !Unclaimed(db.stages[c.stage].status) then Refused(InvalidTransition)
    else
      var want := ClaimWant(c);
      if want.Some? && want.value.memory == 0 then Refused(MemoryRequired)
      else if want.Some? &&
              !Fits(c.capacity.value, CpuSum(db.reservations, a), MemorySum(db.reservations, a), want.value)
      then Refused(NoCapacity)
      else
        var number := MaxNumber(db.attempts, c.stage, a) + 1;
        var row := AttemptRow(c.stage, number, AttemptStatus.Running, c.worker, Some(c.now + c.leaseSeconds), None);
        var db1 := db.(attempts := db.attempts + [row]);
        var db2 := if want.Some? then db1.(reservations := db1.reservations[a := want.value]) else db1;
        var db3 := SetStage(db2, c.stage, RunStatus.Running);
        Committed(ClaimRun(db3, c.stage), a)
  }

  /** "UPDATE runs SET status = 'running' ... WHERE status IN (...)". */
  function ClaimRun(db: Db, r: nat): Db {
    if r < |db.runs| &&
       (db.runs[r].status.Queued? || db.runs[r].status.Preparing? || db.runs[r].status.RetryWait?)
    then SetRun(db, r, RunStatus.Running) else db
  }

  function Heartbeat(db: Db, a: nat, worker: string, now: int, leaseSeconds: int): Txn<()> {
    if |db.attempts| <= a then Refused(UnknownAttempt)
    else if db.attempts[a].worker != worker then Refused(WrongWorker)
    else if !db.attempts[a].status.Running? then Refused(InvalidTransition)
    else Committed(db.(attempts := db.attempts[a := db.attempts[a].(lease := Some(now + leaseSeconds))]), ())
  }

  function EndAttempt(db: Db, a: nat, status: AttemptStatus, failure: Option<bool>): Db
    requires a < |db.attempts|
  {
    db.(attempts := db.attempts[a := db.attempts[a].(status := status, lease := None, failure := failure)],
        reservations := db.reservations - {a})
  }

  function FinishAttempt(db: Db, a: nat, status: AttemptStatus, failure: Option<bool>): Txn<()> {
    if |db.attempts| <= a then Refused(UnknownAttempt)
    else if !AttemptTransitionAllowed(db.attempts[a].status, status) then Refused(InvalidTransition)
    else Committed(EndAttempt(db, a, status, failure), ())
  }

  // ---- retry and reclaim -----------------------------------------------------

  function ScheduleRetry(db: Db, r: nat): Txn<()> {
    if |db.stages| <= r then Refused(UnknownStage)
    else if !db.stages[r].status.Running? then Refused(InvalidTransition)
    else if |db.runs| <= r then Refused(UnknownRun)
    else if !RunTransitionAllowed(db.runs[r].status, RetryWait) then Refused(InvalidTransition)
    else Committed(SetRun(SetStage(db, r, RetryWait), r, RetryWait), ())
  }

  function RequestRetry(db: Db, r: nat): Txn<()> {
    if |db.runs| <= r then Refused(UnknownRun)
    else
      var latest := if r < |db.stages| then Latest(db.attempts, r, |db.attempts|) else None;
      if !db.runs[r].status.Failed? then Refused(InvalidTransition)
      else if latest.None? || db.attempts[latest.value].failure != Some(true) then Refused(NotRetryable)
      else if db.runs[r].task.maxAttempts <= db.attempts[latest.value].number then Refused(BudgetExhausted)
      else Committed(SetStage(SetRun(db, r, RetryWait), r, RetryWait), ())
  }

  /** The guarded UPDATE and DELETE that reclaim applies to one expired attempt. */
  function MarkLost(db: Db, a: nat, reference: int): Txn<()> {
    if |db.attempts| <= a then Refused(UnknownAttempt)
    else
      var row := db.attempts[a];
      if row.status.Running? && row.lease.Some? && row.lease.value < reference
      then Committed(EndAttempt(db, a, AttemptStatus.Lost, Some(true)), ())
      else Refused(InvalidTransition)
  }

  /** May a lease-lost run go back to the queue?  Capability and budget. */
  predicate HasRoomToResume(db: Db, r: nat) {
    && r < |db.runs| && r < |db.stages|
    && db.stages[r].resumable
    && Made(db, r) < db.runs[r].task.maxAttempts
  }

  /** A cancellation nobody is left to observe. */
  predicate Abandoned(db: Db, r: nat) {
    r < |db.runs| && db.runs[r].status.CancelRequested? && !HasLive(db, r)
  }
}
