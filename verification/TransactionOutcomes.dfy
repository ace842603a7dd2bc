/** What each store transaction answers, in the platform's own words: statuses, rows and
    fields written out, so that every acceptance and every refusal is fixed. */
module TransactionOutcomes {
  import opened Contracts
  import opened Admission
  import opened Tables
  import opened Transactions
  import opened TableInvariant
  import opened Submissions

  // ---- transitions ------------------------------------------------------------------

  /** The moves a run may make, as pairs. */
  predicate LegalMove(from: RunStatus, to: RunStatus) {
    || (from.Queued? && (to.Preparing? || to.CancelRequested? || to.Cancelled? || to.Failed?))
    || (from.Preparing? && (to.Running? || to.CancelRequested? || to.Failed? || to.Lost?))
    || (from.Running? && (to.RetryWait? || to.CancelRequested? || to.Succeeded? || to.Failed? || to.TimedOut? || to.Lost?))
    || (from.RetryWait? && (to.Queued? || to.CancelRequested? || to.Failed? || to.Lost?))
    || (from.CancelRequested? && (to.Cancelled? || to.Failed? || to.Lost?))
  }

  /** A run exists and a move is legal or idle: then, and only then, the run says so. */
  lemma TransitionOutcome(db: Db, r: nat, target: RunStatus)
    ensures TransitionRun(db, r, target).Committed? <==>
            r < |db.runs| && (db.runs[r].status == target || LegalMove(db.runs[r].status, target))
    ensures TransitionRun(db, r, target).Committed? ==>
            var db' := TransitionRun(db, r, target).db;
            && |db'.runs| == |db.runs| && db'.runs[r] == db.runs[r].(status := target)
            && (forall q :: 0 <= q < |db.runs| && q != r ==> db'.runs[q] == db.runs[q])
            && db'.attempts == db.attempts && db'.reservations == db.reservations
  {
  }

  /** The stage moves with the run unless it has ended; a move to the same status is idle. */
  lemma TransitionStages(db: Db, r: nat, target: RunStatus)
    requires r < |db.runs| && LegalMove(db.runs[r].status, target)
    ensures TransitionRun(db, r, target).Committed?
    ensures var db' := TransitionRun(db, r, target).db;
            && |db'.stages| == |db.stages|
            && (forall q :: 0 <= q < |db.stages| && q != r ==> db'.stages[q] == db.stages[q])
            && (r < |db.stages| ==>
                  db'.stages[r] == if Terminal(db.stages[r].status) then db.stages[r] else db.stages[r].(status := target))
  {
  }

  /** A running attempt ends once, with success, failure or loss; one that never ran can
      only start or be lost. */
  lemma FinishOutcome(db: Db, a: nat, status: AttemptStatus, failure: Option<bool>)
    ensures FinishAttempt(db, a, status, failure).Committed? <==>
            && a < |db.attempts|
            && (|| (db.attempts[a].status.Running? && (status.Succeeded? || status.Failed? || status.Lost?))
                || (db.attempts[a].status.Pending? && (status.Running? || status.Lost?)))
    ensures FinishAttempt(db, a, status, failure).Committed? ==>
            var db' := FinishAttempt(db, a, status, failure).db;
            && |db'.attempts| == |db.attempts|
            && db'.attempts[a] == db.attempts[a].(status := status, lease := None, failure := failure)
            && (forall b :: 0 <= b < |db.attempts| && b != a ==> db'.attempts[b] == db.attempts[b])
            && db'.reservations == db.reservations - {a}
            && db'.runs == db.runs && db'.stages == db.stages
  {
  }

  /** A cancel request is recorded on every run that has not ended, whatever it is doing;
      one that has ended or was asked before stays as it is. */
  lemma CancelOutcome(db: Db, r: nat)
    requires Shaped(db) && Mirrored(db) && r < |db.runs|
    ensures var db' := After(db, RequestCancel(db, r));
            var st := db.runs[r].status;
            if st.Queued? || st.Running? || st.RetryWait?
            then |db'.stages| == |db'.runs| == |db.runs| &&
                 db'.runs[r].status.CancelRequested? && db'.stages[r].status.CancelRequested? &&
                 db'.attempts == db.attempts && db'.reservations == db.reservations &&
                 (forall q :: 0 <= q < |db.runs| && q != r ==> db'.runs[q] == db.runs[q] && db'.stages[q] == db.stages[q])
            else db' == db
    ensures RequestCancel(db, r).Committed?
  {
    TransitionMovesBoth(db, r, CancelRequested);
    TransitionOutcome(db, r, CancelRequested);
    if LegalMove(db.runs[r].status, CancelRequested) { TransitionStages(db, r, CancelRequested); }
  }

  /** A preflight failure fails a waiting run and says so; it touches no other. */
  lemma FailQueuedOutcome(db: Db, r: nat)
    requires Shaped(db) && Mirrored(db) && r < |db.runs|
    ensures FailQueuedRun(db, r).Committed?
    ensures var t := FailQueuedRun(db, r);
            && t.value == (db.runs[r].status.Queued? || db.runs[r].status.RetryWait?)
            && (if t.value then
                  && |t.db.stages| == |t.db.runs| == |db.runs|
                  && t.db.runs[r].status.Failed? && t.db.stages[r].status.Failed?
                  && t.db.attempts == db.attempts && t.db.reservations == db.reservations
                  && (forall q :: 0 <= q < |db.runs| && q != r ==>
                        t.db.runs[q] == db.runs[q] && t.db.stages[q] == db.stages[q])
                else t.db == db)
  {
  }

  // ---- leases ------------------------------------------------------------------------

  /** A heartbeat counts if and only if it comes from the attempt's worker while the
      attempt is running; it then sets the lease from its own time, and nothing else. */
  lemma HeartbeatOutcome(db: Db, a: nat, worker: string, now: int, leaseSeconds: int)
    ensures Heartbeat(db, a, worker, now, leaseSeconds).Committed? <==>
            a < |db.attempts| && db.attempts[a].worker == worker && db.attempts[a].status.Running?
    ensures Heartbeat(db, a, worker, now, leaseSeconds).Committed? ==>
            var db' := Heartbeat(db, a, worker, now, leaseSeconds).db;
            && |db'.attempts| == |db.attempts|
            && db'.attempts[a] == db.attempts[a].(lease := Some(now + leaseSeconds))
            && (forall b :: 0 <= b < |db.attempts| && b != a ==> db'.attempts[b] == db.attempts[b])
            && db'.runs == db.runs && db'.stages == db.stages && db'.reservations == db.reservations
  {
  }

  /** An admitted claim makes the next attempt of a waiting run: running, owned by the
      worker, leased from now on, and with nothing reported. */
  lemma ClaimOutcome(config: Config, db: Db, r: nat, worker: string, now: int, lease: int)
    requires config.Valid() && Consistent(config, db)
    requires StartAttempt(db, WorkerClaim(config, db, r, worker, now, lease)).Committed?
    ensures var t := StartAttempt(db, WorkerClaim(config, db, r, worker, now, lease));
            && t.value == |db.attempts| && |t.db.attempts| == |db.attempts| + 1
            && (forall b :: 0 <= b < |db.attempts| ==> t.db.attempts[b] == db.attempts[b])
            && t.db.attempts[t.value] ==
               AttemptRow(r, Made(db, r) + 1, AttemptStatus.Running, worker, Some(now + lease), None)
            && r < |db.runs| && (db.runs[r].status.Queued? || db.runs[r].status.RetryWait?)
            && |t.db.runs| == |db.runs| && t.db.runs[r] == db.runs[r].(status := RunStatus.Running)
  {
    StartEffect(config, db, r, worker, now, lease);
  }

  // ---- operator retry -----------------------------------------------------------------

  /** The last attempt of a run reported a failure that may be retried. */
  predicate LastFailureRetryable(db: Db, r: nat) {
    exists a :: 0 <= a < |db.attempts| && db.attempts[a].stage == r && db.attempts[a].number == Made(db, r) &&
                db.attempts[a].failure == Some(true)
  }

  /** An operator retry is accepted if and only if the run failed, its budget has room and
      its last attempt reported a retryable failure; the run then waits, and nothing else
      changes. */
  lemma RetryOutcome(config: Config, db: Db, r: nat)
    requires config.Valid() && Consistent(config, db)
    ensures RequestRetry(db, r).Committed? <==>
            && r < |db.runs| && db.runs[r].status.Failed? && Made(db, r) < db.runs[r].task.maxAttempts
            && LastFailureRetryable(db, r)
    ensures RequestRetry(db, r).Committed? ==>
            var db' := RequestRetry(db, r).db;
            && |db'.runs| == |db.runs| && |db'.stages| == |db.stages|
            && db'.runs[r] == db.runs[r].(status := RetryWait) && db'.stages[r] == db.stages[r].(status := RetryWait)
            && (forall q :: 0 <= q < |db.runs| && q != r ==> db'.runs[q] == db.runs[q] && db'.stages[q] == db.stages[q])
            && db'.attempts == db.attempts && db'.reservations == db.reservations
  {
    if r < |db.runs| {
      LatestFindsLast(db, r, |db.attempts|);
      var latest := Latest(db.attempts, r, |db.attempts|);
      if LastFailureRetryable(db, r) {
        var a :| 0 <= a < |db.attempts| && db.attempts[a].stage == r && db.attempts[a].number == Made(db, r) &&
                 db.attempts[a].failure == Some(true);
        CountMonotone(db.attempts, r, a, |db.attempts|);
        LatestIsUnique(db, a, latest.value);
      }
    }
  }

  // ---- submission ------------------------------------------------------------------------

  /** Two inputs that are the same to a resubmission: placed alike, required alike, and
      from the same path or from recorded bytes of the same digest. */
  predicate SameInput(c: Catalog, x: InputFile, y: InputFile) {
    && x.destination == y.destination && x.required == y.required
    && match x.origin
       case HostPath(p) => y.origin == HostPath(p)
       case ArtifactRef(a) =>
         y.origin.ArtifactRef? && a in c.artifacts && y.origin.artifactId in c.artifacts &&
         c.artifacts[a] == c.artifacts[y.origin.artifactId]
       case UploadRef(u) =>
         y.origin.UploadRef? && u in c.uploads && y.origin.inputId in c.uploads &&
         c.uploads[u] == c.uploads[y.origin.inputId]
  }

  predicate SameLabel(x: TaskSpec, y: TaskSpec, k: string) {
    (k in x.labels <==> k in y.labels) && (k in x.labels ==> x.labels[k] == y.labels[k])
  }

  /** Two tasks that are the same to a resubmission, field by field. */
  ghost predicate SameTask(c: Catalog, x: TaskSpec, y: TaskSpec) {
    && x.taskId == y.taskId && x.body == y.body && x.inputManifest == y.inputManifest
    && x.resources == y.resources && x.maxAttempts == y.maxAttempts
    && (forall k :: !("__platform_host_source_" <= k) ==> SameLabel(x, y, k))
    && |x.stagedInputs| == |y.stagedInputs|
    && (forall i :: 0 <= i < |x.stagedInputs| ==> SameInput(c, x.stagedInputs[i], y.stagedInputs[i]))
  }

  lemma SameInputsIff(c: Catalog, xs: seq<InputFile>, ys: seq<InputFile>)
    ensures (ReferencesKnown(c, xs) && ReferencesKnown(c, ys) && NormalInputs(c, xs) == NormalInputs(c, ys)) <==>
            |xs| == |ys| && forall i :: 0 <= i < |xs| ==> SameInput(c, xs[i], ys[i])
  {
    if ReferencesKnown(c, xs) && ReferencesKnown(c, ys) && NormalInputs(c, xs) == NormalInputs(c, ys) {
      assert |xs| == |NormalInputs(c, xs)| == |ys|;
      forall i | 0 <= i < |xs| ensures SameInput(c, xs[i], ys[i]) {
        assert NormalInputs(c, xs)[i] == NormalInputs(c, ys)[i];
      }
    }
    if |xs| == |ys| && forall i :: 0 <= i < |xs| ==> SameInput(c, xs[i], ys[i]) {
      forall i | 0 <= i < |xs|
        ensures ReferencesKnown(c, [xs[i]]) && ReferencesKnown(c, [ys[i]])
      {
        assert SameInput(c, xs[i], ys[i]);
      }
      KnownEach(c, xs);
      KnownEach(c, ys);
      forall i | 0 <= i < |xs| ensures NormalInputs(c, xs)[i] == NormalInputs(c, ys)[i] {
        assert SameInput(c, xs[i], ys[i]);
      }
    }
  }

  lemma KnownEach(c: Catalog, xs: seq<InputFile>)
    requires forall i :: 0 <= i < |xs| ==> ReferencesKnown(c, [xs[i]])
    ensures ReferencesKnown(c, xs)
  {
    forall i | 0 <= i < |xs| ensures ReferencesKnown(c, [xs[i]]) && [xs[i]][0] == xs[i] { }
  }

  lemma SameLabelsIff(x: TaskSpec, y: TaskSpec)
    ensures VisibleLabels(x.labels) == VisibleLabels(y.labels) <==>
            forall k :: !("__platform_host_source_" <= k) ==> SameLabel(x, y, k)
  {
    var vx, vy := VisibleLabels(x.labels), VisibleLabels(y.labels);
    if vx == vy {
      forall k | !("__platform_host_source_" <= k) ensures SameLabel(x, y, k) {
        assert k in vx <==> k in vy;
      }
    }
    if forall k :: !("__platform_host_source_" <= k) ==> SameLabel(x, y, k) {
      forall k ensures k in vx <==> k in vy { assert SameLabel(x, y, k) || "__platform_host_source_" <= k; }
      forall k | k in vx ensures vx[k] == vy[k] { assert SameLabel(x, y, k); }
      assert vx == vy;
    }
  }

  lemma EquivalentIff(c: Catalog, x: TaskSpec, y: TaskSpec)
    ensures (ReferencesKnown(c, x.stagedInputs) && ReferencesKnown(c, y.stagedInputs) && Equivalent(c, x, y)) <==>
            SameTask(c, x, y)
  {
    SameInputsIff(c, x.stagedInputs, y.stagedInputs);
    SameLabelsIff(x, y);
  }

  /** A submission under a key that a run already carries is accepted if and only if it
      describes the same task, field by field, at the same plugin version; it returns that
      run, and accepted or not it changes nothing. */
  lemma ResubmissionOutcome(db: Db, c: Catalog, s: Submission, r: nat)
    requires KeysUnique(db) && |db.runs| == |db.stages| && s.task.Valid() && s.key.Some? && s.key != Some("")
    requires r < |db.runs| && db.runs[r].key == s.key
    ensures SubmitRun(db, c, s).Committed? <==>
            SameTask(c, db.runs[r].task, s.task) && db.stages[r].pluginVersion == s.pluginVersion
    ensures SubmitRun(db, c, s).Committed? ==> SubmitRun(db, c, s).value == r
    ensures After(db, SubmitRun(db, c, s)) == db
  {
    EquivalentIff(c, db.runs[r].task, s.task);
  }

  /** Nothing that an earlier submission created answers this one. */
  ghost predicate IsNew(db: Db, s: Submission) {
    if s.key.Some? then forall i :: 0 <= i < |db.runs| ==> db.runs[i].key != s.key
    else s.idempotent ==> forall i :: 0 <= i < |db.runs| ==> db.runs[i].task.taskId != s.task.taskId
  }

  /** A valid submission that is new creates one queued run with its stage; any other
      creates nothing; without a key, the oldest run of the same task identifier answers. */
  lemma SubmissionOutcome(db: Db, c: Catalog, s: Submission)
    requires |db.runs| == |db.stages| && s.task.Valid() && s.key != Some("")
    ensures IsNew(db, s) ==>
            var t := SubmitRun(db, c, s);
            && t.Committed? && t.value == |db.runs|
            && t.db.runs == db.runs + [RunRow(s.key, s.task, Queued)]
            && t.db.stages == db.stages + [StageRow(s.pluginVersion, s.resumable, Queued)]
            && t.db.attempts == db.attempts && t.db.reservations == db.reservations
    ensures !IsNew(db, s) ==> After(db, SubmitRun(db, c, s)) == db
    ensures !IsNew(db, s) && s.key.None? && SubmitRun(db, c, s).Committed? ==>
            var r := SubmitRun(db, c, s).value;
            && r < |db.runs| && db.runs[r].task.taskId == s.task.taskId && SameTask(c, db.runs[r].task, s.task)
            && forall i :: 0 <= i < r ==> db.runs[i].task.taskId != s.task.taskId
  {
    var existing := Existing(db, s);
    if existing.Some? { EquivalentIff(c, db.runs[existing.value].task, s.task); }
  }

  /** An invalid task or an empty key is refused. */
  lemma InvalidSubmissionRefused(db: Db, c: Catalog, s: Submission)
    requires !s.task.Valid() || s.key == Some("")
    ensures SubmitRun(db, c, s).Refused?
  {
  }
}
