/** What submission accepts and records about a task's inputs, and what an attempt finds,
    told from the files and tables themselves. */
module StagingOutcomes {
  import opened Contracts
  import opened Transactions
  import opened InputManifest

  // ---- submission ------------------------------------------------------------------------

  /** The platform can name the bytes of the input, or may do without. */
  predicate Known(w: World, d: InputFile) {
    match d.origin
    case HostPath(path) => path in w.files || !d.required
    case UploadRef(u) => u in w.uploads
    case ArtifactRef(a) => a in w.artifacts
  }

  /** No object lies under the digest of the host file with other bytes. */
  predicate Publishable(w: World, d: InputFile) {
    d.origin.HostPath? && d.origin.path in w.files && Sha256(w.files[d.origin.path]) in w.objects ==>
      w.objects[Sha256(w.files[d.origin.path])] == w.files[d.origin.path]
  }

  /** The freeze of the first `n` inputs is refused if and only if one of them cannot be
      published. */
  lemma {:induction false} FreezeAcceptsIff(w: World, task: TaskSpec, ids: seq<string>, n: nat)
    requires n <= |task.stagedInputs| == |ids| && FreshIds(w, ids)
    ensures Freeze(w, task, ids, n).ok <==> forall i :: 0 <= i < n ==> Publishable(w, task.stagedInputs[i])
  {
    if n > 0 {
      FreezeAcceptsIff(w, task, ids, n - 1);
      var before, d := Freeze(w, task, ids, n - 1), task.stagedInputs[n - 1];
      FreezeDoes(w, task, ids, n - 1);
      if before.ok && Freezable(w, d) { PublishNext(w, task, ids, n, before); }
    }
  }

  lemma PublishNext(w: World, task: TaskSpec, ids: seq<string>, n: nat, before: Frozen)
    requires 0 < n <= |task.stagedInputs| == |ids| && FrozenBelow(w, task, ids, n - 1, before)
    requires Freezable(w, task.stagedInputs[n - 1])
    ensures Ingest(before.w, w.files[task.stagedInputs[n - 1].origin.path], ids[n - 1]).Some? <==>
            Publishable(w, task.stagedInputs[n - 1])
  {
    var b := w.files[task.stagedInputs[n - 1].origin.path];
    if Sha256(b) in before.w.objects && Sha256(b) !in w.objects {
      assert IngestedBelow(w, task, n - 1, Sha256(b));
    }
  }

  /** Submission accepts a task's inputs if and only if each is known, and each host file
      can be published. */
  lemma SubmissionAcceptsIff(w: World, task: TaskSpec, ids: seq<string>)
    requires |ids| == |task.stagedInputs| && FreshIds(w, ids)
    ensures Submitted(w, task, ids).1.Some? <==>
            forall i :: 0 <= i < |ids| ==> Known(w, task.stagedInputs[i]) && Publishable(w, task.stagedInputs[i])
  {
    FreezeAcceptsIff(w, task, ids, |ids|);
    assert forall d :: InputOk(w, d) <==> Known(w, d);
    if InputsOk(w, task.stagedInputs) && Freeze(w, task, ids, |ids|).ok { FreezingKeepsManifest(w, task, ids); }
  }

  /** What the accepted task carries for each input: a readable host file became an upload
      of its bytes under the identifier drawn for it; everything else is as declared. */
  lemma SubmittedInput(w: World, task: TaskSpec, ids: seq<string>, i: nat)
    requires |ids| == |task.stagedInputs| && FreshIds(w, ids) && i < |ids| && Submitted(w, task, ids).1.Some?
    ensures var (w', t) := Submitted(w, task, ids);
            var d := task.stagedInputs[i];
            && t.value == task.(stagedInputs := t.value.stagedInputs, labels := t.value.labels, inputManifest := t.value.inputManifest)
            && |t.value.stagedInputs| == |ids|
            && if d.origin.HostPath? && d.origin.path in w.files then
                 var b := w.files[d.origin.path];
                 && t.value.stagedInputs[i] == InputFile(d.destination, UploadRef(ids[i]), d.required)
                 && ids[i] in w'.uploads && w'.uploads[ids[i]] == Recorded(|b|, Sha256(b))
                 && Sha256(b) in w'.objects && w'.objects[Sha256(b)] == b
               else t.value.stagedInputs[i] == d
  {
    var f := Freeze(w, task, ids, |ids|);
    FreezeDoes(w, task, ids, |ids|);
    if Freezable(w, task.stagedInputs[i]) {
      assert IngestedAt(w, task, i, Sha256(w.files[task.stagedInputs[i].origin.path]));
    }
  }

  /** The manifest line of each input, by where its bytes come from. */
  lemma SubmittedLine(w: World, task: TaskSpec, ids: seq<string>, i: nat)
    requires |ids| == |task.stagedInputs| && FreshIds(w, ids) && i < |ids| && Submitted(w, task, ids).1.Some?
    ensures var (w', t) := Submitted(w, task, ids);
            var d := task.stagedInputs[i];
            && t.value.inputManifest.Some? && |t.value.inputManifest.value.entries| == |ids|
            && var line := t.value.inputManifest.value.entries[i];
            match d.origin
            case HostPath(path) =>
              line == if path in w.files
                      then ManifestEntry(d.destination, true, |w.files[path]|, Some(Sha256(w.files[path])))
                      else ManifestEntry(d.destination, false, 0, None)
            case UploadRef(u) =>
              u in w.uploads && line == ManifestEntry(d.destination, true, w.uploads[u].size, Some(w.uploads[u].digest))
            case ArtifactRef(a) =>
              && a in w.artifacts
              && line == if d.required || SourceOf(w', d.origin).bytes.Some?
                         then ManifestEntry(d.destination, true, w.artifacts[a].record.size, Some(w.artifacts[a].record.digest))
                         else ManifestEntry(d.destination, false, 0, None)
  {
    var f := Freeze(w, task, ids, |ids|);
    FreezeDoes(w, task, ids, |ids|);
    EntriesPointwise(f.w, f.inputs, |ids|);
    assert InputOk(w, task.stagedInputs[i]);
    if task.stagedInputs[i].origin.HostPath? { HostLine(w, task, ids, f, i); }
  }

  // ---- labels ----------------------------------------------------------------------------

  lemma {:induction false} DecimalIsInjective(i: nat, j: nat)
    requires Decimal(i) == Decimal(j)
    ensures i == j
  {
    LastDigit(i);
    LastDigit(j);
    if 10 <= i && 10 <= j {
      assert Decimal(i)[..|Decimal(i)| - 1] == Decimal(i / 10) && Decimal(j)[..|Decimal(j)| - 1] == Decimal(j / 10);
      DecimalIsInjective(i / 10, j / 10);
    }
  }

  lemma LastDigit(n: nat)
    ensures |Decimal(n)| >= 1 && (n < 10 <==> |Decimal(n)| == 1)
    ensures Decimal(n)[|Decimal(n)| - 1] as int == n % 10 + '0' as int
  {
    if 10 <= n { LastDigit(n / 10); }
  }

  lemma HostLabelIsInjective(i: nat, j: nat)
    requires HostLabel(i) == HostLabel(j)
    ensures i == j
  {
    assert HostLabel(i)[|HOST_SOURCE_PREFIX|..] == Decimal(i) && HostLabel(j)[|HOST_SOURCE_PREFIX|..] == Decimal(j);
    DecimalIsInjective(i, j);
  }

  /** The task remembers the path of every file it froze under that input's label. */
  lemma {:induction false} FrozenLabels(w: World, task: TaskSpec, ids: seq<string>, n: nat, i: nat)
    requires i < n <= |task.stagedInputs| == |ids| && Freeze(w, task, ids, n).ok
    requires task.stagedInputs[i].origin.HostPath? && task.stagedInputs[i].origin.path in w.files
    ensures HostLabel(i) in Freeze(w, task, ids, n).labels
    ensures Freeze(w, task, ids, n).labels[HostLabel(i)] == task.stagedInputs[i].origin.path
  {
    if i < n - 1 {
      FrozenLabels(w, task, ids, n - 1, i);
      if HostLabel(n - 1) == HostLabel(i) { HostLabelIsInjective(n - 1, i); }
    }
  }

  // ---- staging ---------------------------------------------------------------------------

  /** The bytes of the input lie where its origin says, and are what was recorded of them. */
  predicate Found(w: World, d: InputFile, bytes: Option<Bytes>) {
    match d.origin
    case HostPath(path) => path in w.files
    case UploadRef(u) =>
      u in w.uploads && bytes.Some? && w.uploads[u] == Recorded(|bytes.value|, Sha256(bytes.value))
    case ArtifactRef(a) =>
      a in w.artifacts && bytes.Some? && w.artifacts[a].record == Recorded(|bytes.value|, Sha256(bytes.value))
  }

  /** One input at the attempt, whatever became of its source: bytes that are still what
      was recorded are staged.  Otherwise a required input is refused and an optional one
      counts as absent, except that an artifact with other bytes than its record is
      refused either way. */
  lemma StageOutcome(w: World, d: InputFile, s: Source, p: Option<Placed>)
    requires s == SourceOf(w, d.origin) && p == StageOne(s, d)
    ensures Found(w, d, s.bytes) ==>
            && s.bytes.Some?
            && p == Some(Placed(ManifestEntry(d.destination, true, |s.bytes.value|, Some(Sha256(s.bytes.value))), s.bytes))
    ensures !Found(w, d, s.bytes) && (d.required || (d.origin.ArtifactRef? && s.bytes.Some?)) ==> p.None?
    ensures !Found(w, d, s.bytes) && !d.required && !(d.origin.ArtifactRef? && s.bytes.Some?) ==>
            p == Some(Placed(ManifestEntry(d.destination, false, 0, None), None))
  {
  }
}
