/** Idempotent submission: what a key or a task identifier names, over whole
    histories of the run protocol. */
module Submissions {
  import opened Contracts
  import opened Admission
  import opened Tables
  import opened Transactions
  import opened TableInvariant
  import opened RunProtocol

  ghost predicate KeysUnique(db: Db) {
    forall i, j :: 0 <= i < j < |db.runs| && db.runs[i].key.Some? ==> db.runs[i].key != db.runs[j].key
  }

  /** What no transaction ever rewrites, and how much a submission may add. */
  ghost predicate Remembers(db: Db, db': Db) {
    && |db.runs| <= |db'.runs| && |db.stages| <= |db'.stages|
    && (forall i :: 0 <= i < |db.runs| ==> db'.runs[i].key == db.runs[i].key && db'.runs[i].task == db.runs[i].task)
    && (forall i :: 0 <= i < |db.stages| ==> db'.stages[i].pluginVersion == db.stages[i].pluginVersion)
  }

  /** No transaction but a submission adds a run. */
  ghost predicate Keeps(db: Db, db': Db) {
    Remembers(db, db') && |db'.runs| == |db.runs|
  }

  lemma SetRemembers(db: Db, r: nat, status: RunStatus)
    requires r < |db.runs|
    ensures Keeps(db, SetOpenStage(SetRun(db, r, status), r, status))
  {
  }

  lemma TransitionRemembers(db: Db, r: nat, target: RunStatus)
    ensures Keeps(db, After(db, TransitionRun(db, r, target)))
  {
    if r < |db.runs| { SetRemembers(db, r, target); }
  }

  lemma CancelRemembers(db: Db, r: nat)
    ensures Keeps(db, After(db, RequestCancel(db, r)))
  {
    TransitionRemembers(db, r, CancelRequested);
  }

  lemma FailQueuedRemembers(db: Db, r: nat)
    ensures Keeps(db, After(db, FailQueuedRun(db, r)))
  {
    if r < |db.runs| { SetRemembers(db, r, RunStatus.Failed); }
  }

  lemma RequeueRemembers(db: Db, r: nat)
    ensures Keeps(db, After(db, ScheduleRetry(db, r)))
    ensures Keeps(db, After(db, RequestRetry(db, r)))
  {
  }

  lemma ClaimRemembers(db: Db, c: Claim)
    requires c.capacity.Some? ==> 0 < c.capacity.value.den
    ensures Keeps(db, After(db, StartAttempt(db, c)))
  {
  }

  lemma StepRemembers(config: Config, s: State, action: Action)
    requires config.Valid()
    ensures Remembers(s.db, Step(config, s, action).db)
    ensures !action.Submit? ==> Keeps(s.db, Step(config, s, action).db)
  {
    match action
    case Submit(c, submission) =>
    case Cancel(r) => CancelRemembers(s.db, r);
    case FailQueued(r) => FailQueuedRemembers(s.db, r);
    case OperatorRetry(r) => RequeueRemembers(s.db, r);
    case ClaimRun(r, worker, now, lease) => ClaimRemembers(s.db, WorkerClaim(config, s.db, r, worker, now, lease));
    case _ => if MovesRuns(action) { MoverRemembers(config, s, action); }
  }

  /** The steps of an actor that may move a run; no other step but those above does. */
  predicate MovesRuns(action: Action) {
    action.Settle? || action.FailRun? || action.Lose? || action.Resume? || action.SettleCancellation?
  }

  lemma MoverRemembers(config: Config, s: State, action: Action)
    requires config.Valid() && MovesRuns(action)
    ensures Keeps(s.db, Step(config, s, action).db)
  {
    match action
    case Settle(k) =>
      if At(s, k).Settling? {
        var Settling(a, result) := At(s, k);
        RequeueRemembers(s.db, RunOf(s.db, a));
        TransitionRemembers(s.db, RunOf(s.db, a), result.status);
      }
    case FailRun(k) => if At(s, k).FailSettling? { TransitionRemembers(s.db, RunOf(s.db, At(s, k).attempt), RunStatus.Failed); }
    case Lose(k) => if At(s, k).Losing? { TransitionRemembers(s.db, RunOf(s.db, At(s, k).attempt), RunStatus.Lost); }
    case Resume(k) => if At(s, k).Resuming? { RequeueRemembers(s.db, RunOf(s.db, At(s, k).attempt)); }
    case SettleCancellation(k) => if At(s, k).Cancelling? { TransitionRemembers(s.db, At(s, k).run, Cancelled); }
  }

  lemma SubmitKeepsKeysUnique(db: Db, c: Catalog, s: Submission)
    requires KeysUnique(db)
    ensures KeysUnique(After(db, SubmitRun(db, c, s)))
  {
  }

  lemma StepKeepsKeysUnique(config: Config, s: State, action: Action)
    requires config.Valid() && KeysUnique(s.db)
    ensures KeysUnique(Step(config, s, action).db)
  {
    StepRemembers(config, s, action);
    if action.Submit? { SubmitKeepsKeysUnique(s.db, action.catalog, action.submission); }
  }

  lemma {:induction false} RunRemembers(config: Config, s: State, actions: seq<Action>)
    requires config.Valid() && KeysUnique(s.db)
    ensures KeysUnique(Run(config, s, actions).db)
    ensures Remembers(s.db, Run(config, s, actions).db)
  {
    if actions != [] {
      var before := actions[..|actions| - 1];
      RunRemembers(config, s, before);
      StepRemembers(config, Run(config, s, before), actions[|actions| - 1]);
      StepKeepsKeysUnique(config, Run(config, s, before), actions[|actions| - 1]);
    }
  }

  /** In every history -- crashes and operator retries included -- each key names at
      most one run. */
  lemma EachKeyNamesOneRun(config: Config, actions: seq<Action>, i: nat, j: nat)
    requires config.Valid()
    ensures var db := Run(config, START, actions).db;
            i < |db.runs| && j < |db.runs| && db.runs[i].key.Some? && db.runs[i].key == db.runs[j].key ==> i == j
  {
    RunRemembers(config, START, actions);
  }

  /** An accepted keyed submission returns the one run that carries the key. */
  lemma KeyedSubmissionReturnsItsRun(db: Db, c: Catalog, s: Submission)
    requires KeysUnique(db) && s.key.Some? && SubmitRun(db, c, s).Committed?
    ensures var t := SubmitRun(db, c, s);
            && t.value < |t.db.runs| && t.db.runs[t.value].key == s.key
            && (forall i :: 0 <= i < |t.db.runs| && t.db.runs[i].key == s.key ==> i == t.value)
  {
  }

  /** Two submissions under one key, with anything at all in between, return the
      same run. */
  lemma SameKeySameRun(config: Config, s: State, c: Catalog, first: Submission,
                       actions: seq<Action>, d: Catalog, second: Submission)
    requires config.Valid() && KeysUnique(s.db)
    requires first.key.Some? && second.key == first.key
    requires SubmitRun(s.db, c, first).Committed?
    requires SubmitRun(Run(config, Step(config, s, Submit(c, first)), actions).db, d, second).Committed?
    ensures SubmitRun(Run(config, Step(config, s, Submit(c, first)), actions).db, d, second).value
         == SubmitRun(s.db, c, first).value
  {
    var s1 := Step(config, s, Submit(c, first));
    var s2 := Run(config, s1, actions);
    KeyedSubmissionReturnsItsRun(s.db, c, first);
    StepKeepsKeysUnique(config, s, Submit(c, first));
    RunRemembers(config, s1, actions);
    KeyedSubmissionReturnsItsRun(s2.db, d, second);
    assert s2.db.runs[SubmitRun(s.db, c, first).value].key == first.key;
    assert SubmitRun(s2.db, d, second).db == s2.db;
  }

  /** A repeated submission is accepted exactly when its references resolve, its
      normalised task is the recorded one and its plugin version agrees; accepted or
      not, it changes nothing. */
  lemma RepeatedSubmission(db: Db, c: Catalog, s: Submission, r: nat)
    requires |db.runs| == |db.stages| && s.task.Valid() && s.key != Some("")
    requires Existing(db, s) == Some(r)
    ensures After(db, SubmitRun(db, c, s)) == db
    ensures SubmitRun(db, c, s).Committed? <==>
            && ReferencesKnown(c, db.runs[r].task.stagedInputs) && ReferencesKnown(c, s.task.stagedInputs)
            && Equivalent(c, db.runs[r].task, s.task) && db.stages[r].pluginVersion == s.pluginVersion
    ensures SubmitRun(db, c, s).Committed? ==> SubmitRun(db, c, s).value == r
  {
  }

  /** The comparison sees bytes, not identifiers: re-uploading the same bytes under a
      new identifier, with a different recorded host source, is the same task. */
  lemma ReuploadIsEquivalent(c: Catalog, t: TaskSpec, i: nat, again: string, mark: string, path: string)
    requires ReferencesKnown(c, t.stagedInputs) && i < |t.stagedInputs| && t.stagedInputs[i].origin.UploadRef?
    requires again in c.uploads && c.uploads[again] == c.uploads[t.stagedInputs[i].origin.inputId]
    requires HOST_SOURCE_PREFIX <= mark
    ensures var u := t.(stagedInputs := t.stagedInputs[i := t.stagedInputs[i].(origin := UploadRef(again))],
                        labels := t.labels[mark := path]);
            ReferencesKnown(c, u.stagedInputs) && Equivalent(c, t, u)
  {
    var u := t.(stagedInputs := t.stagedInputs[i := t.stagedInputs[i].(origin := UploadRef(again))],
                labels := t.labels[mark := path]);
    assert VisibleLabels(t.labels) == VisibleLabels(u.labels);
    var x, y := NormalInputs(c, t.stagedInputs), NormalInputs(c, u.stagedInputs);
    assert forall k :: 0 <= k < |x| ==> x[k] == y[k];
  }

  /** And it tells different bytes apart. */
  lemma DifferentBytesDiffer(c: Catalog, t: TaskSpec, u: TaskSpec, i: nat)
    requires ReferencesKnown(c, t.stagedInputs) && ReferencesKnown(c, u.stagedInputs)
    requires i < |t.stagedInputs| && i < |u.stagedInputs|
    requires t.stagedInputs[i].origin.UploadRef? && u.stagedInputs[i].origin.UploadRef?
    requires c.uploads[t.stagedInputs[i].origin.inputId] != c.uploads[u.stagedInputs[i].origin.inputId]
    ensures !Equivalent(c, t, u)
  {
    assert NormalInputs(c, t.stagedInputs)[i] != NormalInputs(c, u.stagedInputs)[i];
  }

  /** Comparing normal forms is an equivalence on tasks whose references resolve. */
  lemma EquivalenceRelation(c: Catalog, t: TaskSpec, u: TaskSpec, v: TaskSpec)
    requires ReferencesKnown(c, t.stagedInputs) && ReferencesKnown(c, u.stagedInputs) && ReferencesKnown(c, v.stagedInputs)
    ensures Equivalent(c, t, t)
    ensures Equivalent(c, t, u) <==> Equivalent(c, u, t)
    ensures Equivalent(c, t, u) && Equivalent(c, u, v) ==> Equivalent(c, t, v)
  {
  }
}
