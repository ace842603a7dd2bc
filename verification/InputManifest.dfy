/** The agreement between submission and staging about a run's input bytes.

    Submission freezes host files into the object store and fixes a manifest of
    (destination, presence, size, digest); an attempt stages the inputs again, from
    whatever the disk then holds, and compares. */
module InputManifest {
  import opened Contracts
  import opened Transactions

  datatype Recorded = Recorded(size: nat, digest: Digest)

  /** Where an artifact's bytes are kept; `Unknown` covers a storage the store does
      not know and a key that escapes its workspace. */
  datatype Place = ObjectStore | Workspace(path: string) | Unknown

  datatype ArtifactEntry = ArtifactEntry(record: Recorded, place: Place)

  /** The disk and the tables that inputs are read from. */
  datatype World = World(
    files: map<string, Bytes>, uploads: map<string, Recorded>,
    artifacts: map<string, ArtifactEntry>, objects: map<Digest, Bytes>)

  /** What a read of one origin finds: the platform's record and the bytes on disk. */
  datatype Source = Source(record: Option<Recorded>, bytes: Option<Bytes>)

  function Lookup<K, V>(m: map<K, V>, k: K): Option<V> {
    if k in m then Some(m[k]) else None
  }

  function SourceOf(w: World, origin: Origin): Source {
    match origin
    case HostPath(path) => Source(None, Lookup(w.files, path))
    case UploadRef(u) =>
      if u in w.uploads then Source(Some(w.uploads[u]), Lookup(w.objects, w.uploads[u].digest)) else Source(None, None)
    case ArtifactRef(a) =>
      if a !in w.artifacts then Source(None, None)
      else
        var row := w.artifacts[a];
        Source(Some(row.record),
               (match row.place
                case ObjectStore => Lookup(w.objects, row.record.digest)
                case Workspace(path) => Lookup(w.files, path)
                case Unknown => None))
  }

  function Present(destination: string, r: Recorded): ManifestEntry {
    ManifestEntry(destination, true, r.size, Some(r.digest))
  }

  function Absent(destination: string): ManifestEntry { ManifestEntry(destination, false, 0, None) }

  function Measure(b: Bytes): Recorded { Recorded(|b|, Sha256(b)) }

  // ---- submission ------------------------------------------------------------------

  predicate InputOk(w: World, d: InputFile) {
    match d.origin
    case HostPath(path) => d.required ==> path in w.files
    case _ => SourceOf(w, d.origin).record.Some?
  }

  predicate InputsOk(w: World, inputs: seq<InputFile>) {
    forall i :: 0 <= i < |inputs| ==> InputOk(w, inputs[i])
  }

  /** The manifest line of one declaration; `None` where the computation raises. */
  function EntryFor(s: Source, d: InputFile): Option<ManifestEntry> {
    match d.origin
    case UploadRef(_) => if s.record.None? then None else Some(Present(d.destination, s.record.value))
    case ArtifactRef(_) =>
      if s.record.None? then None
      else if s.bytes.None? && !d.required then Some(Absent(d.destination))
      else Some(Present(d.destination, s.record.value))
    case HostPath(_) =>
      if s.bytes.Some? then Some(Present(d.destination, Measure(s.bytes.value)))
      else if d.required then None else Some(Absent(d.destination))
  }

  function Entries(w: World, inputs: seq<InputFile>, n: nat): Option<seq<ManifestEntry>>
    requires n <= |inputs|
  {
    if n == 0 then Some([])
    else
      var before, entry := Entries(w, inputs, n - 1), EntryFor(SourceOf(w, inputs[n - 1].origin), inputs[n - 1]);
      if before.None? || entry.None? then None else Some(before.value + [entry.value])
  }

  function ManifestFor(w: World, inputs: seq<InputFile>): Option<seq<ManifestEntry>> {
    Entries(w, inputs, |inputs|)
  }

  function Decimal(n: nat): string {
    (if n < 10 then "" else Decimal(n / 10)) + [(n % 10) as char + '0']
  }

  function HostLabel(i: nat): string { HOST_SOURCE_PREFIX + Decimal(i) }

  predicate Freezable(w: World, d: InputFile) { d.origin.HostPath? && d.origin.path in w.files }

  datatype Frozen = Frozen(ok: bool, w: World, inputs: seq<InputFile>, labels: map<string, string>)

  /** Publish a file under its digest; an object already there must hold the bytes. */
  function Ingest(w: World, b: Bytes, id: string): Option<World> {
    if Sha256(b) in w.objects && Measure(w.objects[Sha256(b)]) != Measure(b) then None
    else Some(w.(objects := w.objects[Sha256(b) := b], uploads := w.uploads[id := Measure(b)]))
  }

  /** Freeze the first `n` inputs; `ids[i]` is the identifier drawn for input `i`. */
  function Freeze(w: World, task: TaskSpec, ids: seq<string>, n: nat): (f: Frozen)
    requires n <= |task.stagedInputs| == |ids|
    ensures f.w.files == w.files && f.w.artifacts == w.artifacts
  {
    if n == 0 then Frozen(true, w, [], task.labels)
    else
      var before, d := Freeze(w, task, ids, n - 1), task.stagedInputs[n - 1];
      if !before.ok then before
      else if !Freezable(w, d) then before.(inputs := before.inputs + [d])
      else
        var w' := Ingest(before.w, w.files[d.origin.path], ids[n - 1]);
        if w'.None? then before.(ok := false)
        else
          Frozen(true, w'.value, before.inputs + [d.(origin := UploadRef(ids[n - 1]))],
                 before.labels[HostLabel(n - 1) := d.origin.path])
  }

  predicate FreshIds(w: World, ids: seq<string>) {
    && (forall i :: 0 <= i < |ids| ==> ids[i] !in w.uploads)
    && (forall i, j :: 0 <= i < j < |ids| ==> ids[i] != ids[j])
  }

  /** The world and the task a submission leaves: checked, frozen, and carrying the
      digest of its manifest. */
  function Submitted(w: World, task: TaskSpec, ids: seq<string>): (World, Option<TaskSpec>)
    requires |ids| == |task.stagedInputs|
  {
    if !InputsOk(w, task.stagedInputs) then (w, None)
    else
      var f := Freeze(w, task, ids, |ids|);
      if !f.ok then (f.w, None)
      else
        var entries := ManifestFor(f.w, f.inputs);
        (f.w, if entries.None? then None
              else Some(task.(stagedInputs := f.inputs, labels := f.labels,
                              inputManifest := Some(ManifestOf(entries.value)))))
  }

  // ---- staging ---------------------------------------------------------------------

  datatype Placed = Placed(entry: ManifestEntry, bytes: Option<Bytes>)

  /** Stage one input; `None` where staging raises.  An upload whose object is missing
      or does not match counts as missing; an artifact that does not match its record
      is an error even when it is optional. */
  function StageOne(s: Source, d: InputFile): Option<Placed> {
    var missing := if d.required then None else Some(Placed(Absent(d.destination), None));
    match d.origin
    case UploadRef(_) =>
      if s.record.None? || s.bytes.None? || Measure(s.bytes.value) != s.record.value then missing
      else Some(Placed(Present(d.destination, Measure(s.bytes.value)), s.bytes))
    case ArtifactRef(_) =>
      if s.record.None? || s.bytes.None? then missing
      else if Measure(s.bytes.value) != s.record.value then None
      else Some(Placed(Present(d.destination, Measure(s.bytes.value)), s.bytes))
    case HostPath(_) =>
      if s.bytes.None? then missing else Some(Placed(Present(d.destination, Measure(s.bytes.value)), s.bytes))
  }

  datatype Staging = Staging(staged: seq<ManifestEntry>, workspace: map<string, Bytes>)

  /** Stage the first `n` inputs into a workspace that holds `start`: nothing is removed
      from it, since a resumed attempt works on in its predecessor's workspace. */
  function Stage(w: World, inputs: seq<InputFile>, start: map<string, Bytes>, n: nat): Option<Staging>
    requires n <= |inputs|
  {
    if n == 0 then Some(Staging([], start))
    else
      var before, p := Stage(w, inputs, start, n - 1), StageOne(SourceOf(w, inputs[n - 1].origin), inputs[n - 1]);
      if before.None? || p.None? then None
      else
        Some(Staging(
               before.value.staged + [p.value.entry],
               if p.value.bytes.None? then before.value.workspace
               else before.value.workspace[inputs[n - 1].destination := p.value.bytes.value]))
  }

  predicate ManifestAgrees(task: TaskSpec, staged: seq<ManifestEntry>) {
    task.inputManifest.Some? ==> task.inputManifest.value == ManifestOf(staged)
  }

  /** What an attempt starts from, or nothing when it is refused. */
  function Prepared(w: World, task: TaskSpec, start: map<string, Bytes>): Option<Staging> {
    var s := Stage(w, task.stagedInputs, start, |task.stagedInputs|);
    if s.None? || !ManifestAgrees(task, s.value.staged) then None else s
  }

  // ---- what the folds compute --------------------------------------------------------

  lemma {:induction false} EntriesPointwise(w: World, inputs: seq<InputFile>, n: nat)
    requires n <= |inputs|
    ensures Entries(w, inputs, n).Some? <==>
            forall i :: 0 <= i < n ==> EntryFor(SourceOf(w, inputs[i].origin), inputs[i]).Some?
    ensures Entries(w, inputs, n).Some? ==>
            && |Entries(w, inputs, n).value| == n
            && forall i :: 0 <= i < n ==>
                 Some(Entries(w, inputs, n).value[i]) == EntryFor(SourceOf(w, inputs[i].origin), inputs[i])
  {
    if n > 0 { EntriesPointwise(w, inputs, n - 1); }
  }

  lemma {:induction false} StagePointwise(w: World, inputs: seq<InputFile>, start: map<string, Bytes>, n: nat)
    requires n <= |inputs|
    ensures Stage(w, inputs, start, n).Some? <==>
            forall i :: 0 <= i < n ==> StageOne(SourceOf(w, inputs[i].origin), inputs[i]).Some?
    ensures Stage(w, inputs, start, n).Some? ==>
            && |Stage(w, inputs, start, n).value.staged| == n
            && forall i :: 0 <= i < n ==>
                 Stage(w, inputs, start, n).value.staged[i] == StageOne(SourceOf(w, inputs[i].origin), inputs[i]).value.entry
  {
    if n > 0 { StagePointwise(w, inputs, start, n - 1); }
  }

  predicate DistinctDestinations(inputs: seq<InputFile>) {
    forall i, j :: 0 <= i < j < |inputs| ==> inputs[i].destination != inputs[j].destination
  }

  /** What lies at a destination afterwards: the bytes placed there, or what was there. */
  function AtDestination(placed: Option<Bytes>, before: Option<Bytes>): Option<Bytes> {
    if placed.Some? then placed else before
  }

  /** The workspace holds at each destination what was placed there, and everywhere else
      what it held before. */
  lemma {:induction false} WorkspaceHolds(w: World, inputs: seq<InputFile>, start: map<string, Bytes>, n: nat)
    requires n <= |inputs| && DistinctDestinations(inputs) && Stage(w, inputs, start, n).Some?
    ensures forall i :: 0 <= i < n ==>
              && StageOne(SourceOf(w, inputs[i].origin), inputs[i]).Some?
              && Lookup(Stage(w, inputs, start, n).value.workspace, inputs[i].destination) ==
                 AtDestination(StageOne(SourceOf(w, inputs[i].origin), inputs[i]).value.bytes,
                               Lookup(start, inputs[i].destination))
    ensures forall x :: (forall i :: 0 <= i < n ==> inputs[i].destination != x) ==>
              Lookup(Stage(w, inputs, start, n).value.workspace, x) == Lookup(start, x)
  {
    if n > 0 {
      WorkspaceHolds(w, inputs, start, n - 1);
      var before, after := Stage(w, inputs, start, n - 1).value.workspace, Stage(w, inputs, start, n).value.workspace;
      var d, p := inputs[n - 1], StageOne(SourceOf(w, inputs[n - 1].origin), inputs[n - 1]).value;
      assert after == if p.bytes.None? then before else before[d.destination := p.bytes.value];
      assert Lookup(before, d.destination) == Lookup(start, d.destination);
      forall i | 0 <= i < n
        ensures Lookup(after, inputs[i].destination) ==
                AtDestination(StageOne(SourceOf(w, inputs[i].origin), inputs[i]).value.bytes,
                              Lookup(start, inputs[i].destination))
      {
        if i < n - 1 { assert inputs[i].destination != d.destination; }
      }
    }
  }

  /** Bytes are placed exactly when the entry says present, and they measure to it. */
  lemma PlacedBytesMatch(s: Source, d: InputFile)
    requires StageOne(s, d).Some?
    ensures var p := StageOne(s, d).value;
            && p.entry.destination == d.destination
            && p.entry == (if p.bytes.Some? then Present(d.destination, Measure(p.bytes.value)) else Absent(d.destination))
  {
  }

  // ---- freezing --------------------------------------------------------------------

  function FrozenInput(w: World, d: InputFile, id: string): InputFile {
    if Freezable(w, d) then d.(origin := UploadRef(id)) else d
  }

  predicate IngestedAt(w: World, task: TaskSpec, i: nat, digest: Digest)
    requires i < |task.stagedInputs|
  {
    Freezable(w, task.stagedInputs[i]) && digest == Sha256(w.files[task.stagedInputs[i].origin.path])
  }

  predicate IngestedBelow(w: World, task: TaskSpec, n: nat, digest: Digest)
    requires n <= |task.stagedInputs|
  {
    exists i :: 0 <= i < n && IngestedAt(w, task, i, digest)
  }

  /** Everything a successful freeze of the first `n` inputs did. */
  ghost predicate FrozenBelow(w: World, task: TaskSpec, ids: seq<string>, n: nat, f: Frozen)
    requires n <= |task.stagedInputs| == |ids|
  {
    && |f.inputs| == n
    && (forall i :: 0 <= i < n ==> f.inputs[i] == FrozenInput(w, task.stagedInputs[i], ids[i]))
    && (forall i :: 0 <= i < n && Freezable(w, task.stagedInputs[i]) ==>
          Lookup(f.w.uploads, ids[i]) == Some(Measure(w.files[task.stagedInputs[i].origin.path])))
    && (forall u :: u in w.uploads ==> u in f.w.uploads && f.w.uploads[u] == w.uploads[u])
    && (forall d :: d in f.w.objects <==> d in w.objects || IngestedBelow(w, task, n, d))
    && (forall d :: d in w.objects ==> f.w.objects[d] == w.objects[d])
    && (forall d :: d in f.w.objects && IngestedBelow(w, task, n, d) ==> Sha256(f.w.objects[d]) == d)
  }

  lemma {:induction false} FreezeDoes(w: World, task: TaskSpec, ids: seq<string>, n: nat)
    requires n <= |task.stagedInputs| == |ids| && FreshIds(w, ids)
    ensures Freeze(w, task, ids, n).ok ==> FrozenBelow(w, task, ids, n, Freeze(w, task, ids, n))
    ensures VisibleLabels(Freeze(w, task, ids, n).labels) == VisibleLabels(task.labels)
  {
    if n > 0 {
      FreezeDoes(w, task, ids, n - 1);
      var before, f := Freeze(w, task, ids, n - 1), Freeze(w, task, ids, n);
      if f.ok {
        if Freezable(w, task.stagedInputs[n - 1]) {
          IngestOneMore(w, task, ids, n, before, f);
        } else {
          assert forall d :: IngestedBelow(w, task, n, d) <==> IngestedBelow(w, task, n - 1, d);
        }
      }
      assert HOST_SOURCE_PREFIX <= HostLabel(n - 1);
    }
  }

  lemma IngestOneMore(w: World, task: TaskSpec, ids: seq<string>, n: nat, before: Frozen, f: Frozen)
    requires 0 < n <= |task.stagedInputs| == |ids| && FreshIds(w, ids) && Freezable(w, task.stagedInputs[n - 1])
    requires before.ok && f.ok && FrozenBelow(w, task, ids, n - 1, before)
    requires var d := task.stagedInputs[n - 1];
             var b := w.files[d.origin.path];
             && Ingest(before.w, b, ids[n - 1]) == Some(f.w)
             && f.inputs == before.inputs + [d.(origin := UploadRef(ids[n - 1]))]
    ensures FrozenBelow(w, task, ids, n, f)
  {
    var b := w.files[task.stagedInputs[n - 1].origin.path];
    forall d ensures IngestedBelow(w, task, n, d) <==> IngestedBelow(w, task, n - 1, d) || d == Sha256(b) {
      if d == Sha256(b) { assert IngestedAt(w, task, n - 1, d); }
    }
  }

  // ---- freezing and the manifest -----------------------------------------------------

  /** An optional artifact whose object is missing, while a host input of the same
      task holds the very bytes: publishing them brings the artifact back. */
  predicate Revives(w: World, task: TaskSpec, d: InputFile) {
    && d.origin.ArtifactRef? && !d.required && d.origin.artifactId in w.artifacts
    && var row := w.artifacts[d.origin.artifactId];
    && row.place.ObjectStore? && row.record.digest !in w.objects
    && IngestedBelow(w, task, |task.stagedInputs|, row.record.digest)
  }

  /** One declaration, before and after the freeze. */
  lemma FrozenEntry(w: World, task: TaskSpec, ids: seq<string>, f: Frozen, i: nat)
    requires |ids| == |task.stagedInputs| && f.w.files == w.files && f.w.artifacts == w.artifacts
    requires FrozenBelow(w, task, ids, |ids|, f) && i < |ids| && InputOk(w, task.stagedInputs[i])
    ensures var d := task.stagedInputs[i];
            var before, after := EntryFor(SourceOf(w, d.origin), d), EntryFor(SourceOf(f.w, f.inputs[i].origin), f.inputs[i]);
            && before.Some? && after.Some?
            && (before == after <==> !Revives(w, task, d))
  {
  }

  /** Freezing preserves the manifest if and only if it revives no missing artifact. */
  lemma FreezingKeepsManifest(w: World, task: TaskSpec, ids: seq<string>)
    requires |ids| == |task.stagedInputs| && FreshIds(w, ids) && InputsOk(w, task.stagedInputs)
    requires Freeze(w, task, ids, |ids|).ok
    ensures var f := Freeze(w, task, ids, |ids|);
            && ManifestFor(w, task.stagedInputs).Some? && ManifestFor(f.w, f.inputs).Some?
            && (ManifestFor(w, task.stagedInputs) == ManifestFor(f.w, f.inputs) <==>
                  forall i :: 0 <= i < |ids| ==> !Revives(w, task, task.stagedInputs[i]))
  {
    var f := Freeze(w, task, ids, |ids|);
    FreezeDoes(w, task, ids, |ids|);
    EntriesPointwise(w, task.stagedInputs, |ids|);
    EntriesPointwise(f.w, f.inputs, |ids|);
    forall i | 0 <= i < |ids|
      ensures var d := task.stagedInputs[i];
              var before, after := EntryFor(SourceOf(w, d.origin), d), EntryFor(SourceOf(f.w, f.inputs[i].origin), f.inputs[i]);
              before.Some? && after.Some? && (before == after <==> !Revives(w, task, d))
    {
      FrozenEntry(w, task, ids, f, i);
    }
    SameManifestIff(w, task, f);
  }

  lemma SameManifestIff(w: World, task: TaskSpec, f: Frozen)
    requires |f.inputs| == |task.stagedInputs|
    requires ManifestFor(w, task.stagedInputs).Some? && ManifestFor(f.w, f.inputs).Some?
    ensures ManifestFor(w, task.stagedInputs) == ManifestFor(f.w, f.inputs) <==>
            forall i :: 0 <= i < |f.inputs| ==>
              EntryFor(SourceOf(w, task.stagedInputs[i].origin), task.stagedInputs[i]) ==
              EntryFor(SourceOf(f.w, f.inputs[i].origin), f.inputs[i])
  {
    EntriesPointwise(w, task.stagedInputs, |f.inputs|);
    EntriesPointwise(f.w, f.inputs, |f.inputs|);
    var x, y := ManifestFor(w, task.stagedInputs).value, ManifestFor(f.w, f.inputs).value;
    if forall i :: 0 <= i < |f.inputs| ==>
         EntryFor(SourceOf(w, task.stagedInputs[i].origin), task.stagedInputs[i]) ==
         EntryFor(SourceOf(f.w, f.inputs[i].origin), f.inputs[i])
    {
      assert forall i :: 0 <= i < |x| ==> Some(x[i]) == Some(y[i]);
      assert x == y;
    }
  }

  /** The exception is real: a lost object that a host file happens to match. */
  lemma FreezingCanReviveArtifact() returns (w: World, task: TaskSpec, ids: seq<string>)
    ensures |ids| == |task.stagedInputs| && FreshIds(w, ids) && InputsOk(w, task.stagedInputs) && task.Valid()
    ensures var f := Freeze(w, task, ids, |ids|);
            f.ok && ManifestFor(w, task.stagedInputs) != ManifestFor(f.w, f.inputs)
  {
    var host, optional := InputFile("a", HostPath("/x"), true), InputFile("b", ArtifactRef("old"), false);
    w := World(map["/x" := "bytes"], map[], map["old" := ArtifactEntry(Measure("bytes"), ObjectStore)], map[]);
    task := TaskSpec("t", "", map[], [host, optional], None, None, 1);
    ids := ["in", "unused"];
    assert IngestedAt(w, task, 0, Sha256("bytes"));
    assert Freezable(w, task.stagedInputs[0]) && !Freezable(w, task.stagedInputs[1]);
    assert Freeze(w, task, ids, 0).ok;
    assert Freeze(w, task, ids, 1).ok;
    assert Freeze(w, task, ids, 2).ok;
    assert Revives(w, task, task.stagedInputs[1]);
    FreezingKeepsManifest(w, task, ids);
  }

  // ---- staging and the check ---------------------------------------------------------

  /** The bytes of a source are there and are the recorded ones, or may be absent. */
  predicate Intact(s: Source, d: InputFile) {
    match d.origin
    case UploadRef(_) => s.record.Some? && s.bytes.Some? && Measure(s.bytes.value) == s.record.value
    case ArtifactRef(_) =>
      s.record.Some? && (if s.bytes.Some? then Measure(s.bytes.value) == s.record.value else !d.required)
    case HostPath(_) => s.bytes.Some? || !d.required
  }

  /** For one input whose source has not changed, staging agrees with submission
      exactly when the source is intact. */
  lemma StagingAgreesIff(s: Source, d: InputFile)
    requires EntryFor(s, d).Some?
    ensures StageOne(s, d).Some? && StageOne(s, d).value.entry == EntryFor(s, d).value <==> Intact(s, d)
  {
  }

  predicate Unchanged(w: World, w': World, inputs: seq<InputFile>) {
    forall i :: 0 <= i < |inputs| ==> SourceOf(w, inputs[i].origin) == SourceOf(w', inputs[i].origin)
  }

  /** While the sources do not change, an attempt is prepared if and only if every
      uploaded or produced input of the submitted task is intact; inputs taken from
      host files always are. */
  lemma UnchangedInputsPass(w: World, task: TaskSpec, ids: seq<string>, later: World, start: map<string, Bytes>)
    requires |ids| == |task.stagedInputs| && FreshIds(w, ids) && Submitted(w, task, ids).1.Some?
    requires Unchanged(Submitted(w, task, ids).0, later, Submitted(w, task, ids).1.value.stagedInputs)
    ensures var (w1, t) := Submitted(w, task, ids);
            Prepared(later, t.value, start).Some? <==>
            forall i :: 0 <= i < |ids| ==>
              task.stagedInputs[i].origin.HostPath? || Intact(SourceOf(w1, task.stagedInputs[i].origin), task.stagedInputs[i])
  {
    var f := Freeze(w, task, ids, |ids|);
    var t := Submitted(w, task, ids).1.value;
    FreezeDoes(w, task, ids, |ids|);
    EntriesPointwise(f.w, f.inputs, |ids|);
    StagePointwise(later, f.inputs, start, |ids|);
    forall i | 0 <= i < |ids|
      ensures Intact(SourceOf(f.w, f.inputs[i].origin), f.inputs[i]) <==>
              task.stagedInputs[i].origin.HostPath? || Intact(SourceOf(f.w, task.stagedInputs[i].origin), task.stagedInputs[i])
    {
      FrozenHostIsIntact(w, task, ids, f, i);
    }
    PreparedIff(f.w, later, t, start);
  }

  lemma FrozenHostIsIntact(w: World, task: TaskSpec, ids: seq<string>, f: Frozen, i: nat)
    requires |ids| == |task.stagedInputs| && f.w.files == w.files && i < |ids|
    requires FrozenBelow(w, task, ids, |ids|, f) && InputOk(w, task.stagedInputs[i])
    ensures task.stagedInputs[i].origin.HostPath? ==> Intact(SourceOf(f.w, f.inputs[i].origin), f.inputs[i])
    ensures !task.stagedInputs[i].origin.HostPath? ==> f.inputs[i] == task.stagedInputs[i]
  {
    if Freezable(w, task.stagedInputs[i]) {
      assert IngestedAt(w, task, i, Sha256(w.files[task.stagedInputs[i].origin.path]));
    }
  }

  lemma PreparedIff(w: World, later: World, t: TaskSpec, start: map<string, Bytes>)
    requires ManifestFor(w, t.stagedInputs).Some? && Unchanged(w, later, t.stagedInputs)
    requires t.inputManifest == Some(ManifestOf(ManifestFor(w, t.stagedInputs).value))
    ensures Prepared(later, t, start).Some? <==>
            forall i :: 0 <= i < |t.stagedInputs| ==> Intact(SourceOf(w, t.stagedInputs[i].origin), t.stagedInputs[i])
  {
    var inputs := t.stagedInputs;
    var n := |inputs|;
    EntriesPointwise(w, inputs, n);
    StagePointwise(later, inputs, start, n);
    forall i | 0 <= i < n
      ensures var s, d := SourceOf(w, inputs[i].origin), inputs[i];
              EntryFor(s, d).Some? &&
              (StageOne(s, d).Some? && StageOne(s, d).value.entry == EntryFor(s, d).value <==> Intact(s, d))
    {
      StagingAgreesIff(SourceOf(w, inputs[i].origin), inputs[i]);
    }
    if forall i :: 0 <= i < n ==> Intact(SourceOf(w, inputs[i].origin), inputs[i]) {
      assert Stage(later, inputs, start, n).value.staged == ManifestFor(w, inputs).value;
    }
  }

  /** An upload whose object is missing when the task is submitted: submission trusts
      the record and accepts, and although nothing changes the attempt is refused. */
  lemma UnchangedInputCanBeRefused() returns (w: World, task: TaskSpec)
    ensures task.Valid() && |task.stagedInputs| == 1 && FreshIds(w, ["in"])
    ensures Submitted(w, task, ["in"]).1.Some? && Submitted(w, task, ["in"]).0 == w
    ensures forall start :: Prepared(w, Submitted(w, task, ["in"]).1.value, start).None?
  {
    var input := InputFile("a", UploadRef("u"), true);
    w := World(map[], map["u" := Measure("bytes")], map[], map[]);
    task := TaskSpec("t", "", map[], [input], None, None, 1);
    assert Freeze(w, task, ["in"], 0) == Frozen(true, w, [], map[]);
    assert Freeze(w, task, ["in"], 1) == Frozen(true, w, [input], map[]);
    assert Entries(w, [input], 0) == Some([]);
    assert Entries(w, [input], 1).Some?;
    forall start ensures Prepared(w, Submitted(w, task, ["in"]).1.value, start).None? {
      StagePointwise(w, [input], start, 1);
    }
  }

  /** A manifest line against its destination in the workspace, now and at the start: a
      present input lies there and measures to the line; an absent one left it alone. */
  predicate LineHolds(line: ManifestEntry, destination: string, at: Option<Bytes>, before: Option<Bytes>) {
    if line.present then at.Some? && line == Present(destination, Measure(at.value))
    else line == Absent(destination) && at == before
  }

  lemma StagedLinesHold(w: World, inputs: seq<InputFile>, start: map<string, Bytes>)
    requires DistinctDestinations(inputs) && Stage(w, inputs, start, |inputs|).Some?
    ensures var r := Stage(w, inputs, start, |inputs|).value;
            && |r.staged| == |inputs|
            && forall i :: 0 <= i < |inputs| ==>
                 LineHolds(r.staged[i], inputs[i].destination, Lookup(r.workspace, inputs[i].destination),
                           Lookup(start, inputs[i].destination))
  {
    StagePointwise(w, inputs, start, |inputs|);
    WorkspaceHolds(w, inputs, start, |inputs|);
    var r := Stage(w, inputs, start, |inputs|).value;
    forall i | 0 <= i < |inputs|
      ensures LineHolds(r.staged[i], inputs[i].destination, Lookup(r.workspace, inputs[i].destination),
                        Lookup(start, inputs[i].destination))
    {
      PlacedBytesMatch(SourceOf(w, inputs[i].origin), inputs[i]);
    }
  }

  /** Whatever happened to the disk and the tables in between, and whatever the workspace
      held: an attempt that is prepared has staged exactly the manifest fixed at
      submission; each present input's workspace file measures to its line; and at an
      absent input's destination there is no file if and only if there was none before. */
  lemma PreparedMeansSubmitted(w: World, task: TaskSpec, ids: seq<string>, later: World, start: map<string, Bytes>)
    requires |ids| == |task.stagedInputs| && FreshIds(w, ids) && task.Valid() && Submitted(w, task, ids).1.Some?
    requires Prepared(later, Submitted(w, task, ids).1.value, start).Some?
    ensures var (w1, t) := Submitted(w, task, ids);
            var r := Prepared(later, t.value, start).value;
            && Some(r.staged) == ManifestFor(w1, t.value.stagedInputs)
            && |r.staged| == |ids|
            && forall i :: 0 <= i < |ids| ==>
                 var destination := task.stagedInputs[i].destination;
                 && LineHolds(r.staged[i], destination, Lookup(r.workspace, destination), Lookup(start, destination))
                 && (!r.staged[i].present ==> (destination !in r.workspace <==> destination !in start))
  {
    var f := Freeze(w, task, ids, |ids|);
    FreezeDoes(w, task, ids, |ids|);
    FreezeKeepsDestinations(w, task, ids, f);
    StagedLinesHold(later, f.inputs, start);
  }

  lemma FreezeKeepsDestinations(w: World, task: TaskSpec, ids: seq<string>, f: Frozen)
    requires |ids| == |task.stagedInputs| && FrozenBelow(w, task, ids, |ids|, f) && task.Valid()
    ensures DistinctDestinations(f.inputs)
    ensures forall i :: 0 <= i < |ids| ==> f.inputs[i].destination == task.stagedInputs[i].destination
  {
  }

  /** In particular a host input reaches the adapter with the bytes it had when the task
      was submitted; of one that was absent then, the workspace has what it had. */
  lemma HostBytesReachTheAdapter(w: World, task: TaskSpec, ids: seq<string>, later: World, start: map<string, Bytes>,
                                 i: nat, r: Staging)
    requires |ids| == |task.stagedInputs| && FreshIds(w, ids) && task.Valid() && Submitted(w, task, ids).1.Some?
    requires Prepared(later, Submitted(w, task, ids).1.value, start) == Some(r)
    requires i < |ids| && task.stagedInputs[i].origin.HostPath?
    ensures var d := task.stagedInputs[i];
            Lookup(r.workspace, d.destination) ==
            if d.origin.path in w.files then Some(w.files[d.origin.path]) else Lookup(start, d.destination)
  {
    var f := Freeze(w, task, ids, |ids|);
    PreparedMeansSubmitted(w, task, ids, later, start);
    FreezeDoes(w, task, ids, |ids|);
    EntriesPointwise(f.w, f.inputs, |ids|);
    assert Some(r.staged[i]) == EntryFor(SourceOf(f.w, f.inputs[i].origin), f.inputs[i]);
    HostLine(w, task, ids, f, i);
  }

  /** The line that submission fixed for a host input is that of its bytes. */
  lemma HostLine(w: World, task: TaskSpec, ids: seq<string>, f: Frozen, i: nat)
    requires |ids| == |task.stagedInputs| && f.w.files == w.files && i < |ids| && task.stagedInputs[i].origin.HostPath?
    requires FrozenBelow(w, task, ids, |ids|, f) && EntryFor(SourceOf(f.w, f.inputs[i].origin), f.inputs[i]).Some?
    ensures var d := task.stagedInputs[i];
            EntryFor(SourceOf(f.w, f.inputs[i].origin), f.inputs[i]).value ==
            if d.origin.path in w.files then Present(d.destination, Measure(w.files[d.origin.path])) else Absent(d.destination)
  {
  }

  /** So absence is not enforced: a file that an earlier attempt left at the destination
      of an absent optional input is still there for the resumed one, and the check
      passes. */
  lemma StaleFileStays() returns (w: World, task: TaskSpec, start: map<string, Bytes>)
    ensures task.Valid() && |task.stagedInputs| == 1 && FreshIds(w, ["in"]) && Submitted(w, task, ["in"]).1.Some?
    ensures var (w1, t) := Submitted(w, task, ["in"]);
            Prepared(w1, t.value, start) == Some(Staging([Absent("a")], map["a" := "stale"]))
  {
    var input := InputFile("a", HostPath("/x"), false);
    w := World(map[], map[], map[], map[]);
    task := TaskSpec("t", "", map[], [input], None, None, 1);
    start := map["a" := "stale"];
    assert Freeze(w, task, ["in"], 0) == Frozen(true, w, [], map[]);
    assert Freeze(w, task, ["in"], 1) == Frozen(true, w, [input], map[]);
    assert Entries(w, [input], 0) == Some([]);
    assert Entries(w, [input], 1).Some? && Entries(w, [input], 1).value == [Absent("a")];
    assert Stage(w, [input], start, 0) == Some(Staging([], start));
    assert Stage(w, [input], start, 1) == Some(Staging([Absent("a")], start));
  }

  // ---- resubmission ------------------------------------------------------------------

  function CatalogOf(w: World): Catalog {
    Catalog(map u | u in w.uploads :: w.uploads[u].digest, map a | a in w.artifacts :: w.artifacts[a].record.digest)
  }

  /** Submitting the same task again while its files are unchanged draws new upload
      identifiers and is still the equivalent task. */
  lemma ResubmissionIsEquivalent(w: World, task: TaskSpec, ids: seq<string>, again: seq<string>)
    requires |ids| == |again| == |task.stagedInputs| && FreshIds(w, ids)
    requires Submitted(w, task, ids).1.Some? && FreshIds(Submitted(w, task, ids).0, again)
    requires Submitted(Submitted(w, task, ids).0, task, again).1.Some?
    ensures var (w1, t1) := Submitted(w, task, ids);
            var (w2, t2) := Submitted(w1, task, again);
            && ReferencesKnown(CatalogOf(w2), t1.value.stagedInputs)
            && ReferencesKnown(CatalogOf(w2), t2.value.stagedInputs)
            && Equivalent(CatalogOf(w2), t1.value, t2.value)
  {
    var f1 := Freeze(w, task, ids, |ids|);
    var f2 := Freeze(f1.w, task, again, |again|);
    FreezeDoes(w, task, ids, |ids|);
    FreezeDoes(f1.w, task, again, |again|);
    SameObjects(w, task, ids, again);
    forall i | 0 <= i < |ids| ensures ResubmittedAt(f1, f2, i) {
      ResubmittedInput(w, task, ids, again, f1, f2, i);
    }
    ResubmittedTask(f1, f2);
  }

  lemma ResubmittedTask(f1: Frozen, f2: Frozen)
    requires |f1.inputs| == |f2.inputs| && forall i :: 0 <= i < |f1.inputs| ==> ResubmittedAt(f1, f2, i)
    requires ManifestFor(f1.w, f1.inputs).Some? && ManifestFor(f2.w, f2.inputs).Some?
    ensures ManifestFor(f1.w, f1.inputs) == ManifestFor(f2.w, f2.inputs)
    ensures ReferencesKnown(CatalogOf(f2.w), f1.inputs) && ReferencesKnown(CatalogOf(f2.w), f2.inputs)
    ensures NormalInputs(CatalogOf(f2.w), f1.inputs) == NormalInputs(CatalogOf(f2.w), f2.inputs)
  {
    var n := |f1.inputs|;
    EntriesPointwise(f1.w, f1.inputs, n);
    EntriesPointwise(f2.w, f2.inputs, n);
    var x, y := ManifestFor(f1.w, f1.inputs).value, ManifestFor(f2.w, f2.inputs).value;
    forall i | 0 <= i < n ensures x[i] == y[i] {
      assert ResubmittedAt(f1, f2, i);
    }
    assert x == y;
    var c := CatalogOf(f2.w);
    forall i | 0 <= i < n ensures ReferencesKnown(c, [f1.inputs[i]]) && ReferencesKnown(c, [f2.inputs[i]]) {
      assert ResubmittedAt(f1, f2, i);
    }
    KnownOneByOne(c, f1.inputs);
    KnownOneByOne(c, f2.inputs);
    forall i | 0 <= i < n ensures NormalInputs(c, f1.inputs)[i] == NormalInputs(c, f2.inputs)[i] {
      assert ResubmittedAt(f1, f2, i);
    }
  }

  lemma KnownOneByOne(c: Catalog, inputs: seq<InputFile>)
    requires forall i :: 0 <= i < |inputs| ==> ReferencesKnown(c, [inputs[i]])
    ensures ReferencesKnown(c, inputs)
    ensures forall i :: 0 <= i < |inputs| ==> NormalInputs(c, inputs)[i] == NormalInputs(c, [inputs[i]])[0]
  {
    forall i | 0 <= i < |inputs| ensures ReferencesKnown(c, [inputs[i]]) && [inputs[i]][0] == inputs[i] { }
  }

  ghost predicate ResubmittedAt(f1: Frozen, f2: Frozen, i: nat) {
    && i < |f1.inputs| && i < |f2.inputs|
    && ReferencesKnown(CatalogOf(f2.w), [f1.inputs[i]]) && ReferencesKnown(CatalogOf(f2.w), [f2.inputs[i]])
    && NormalInputs(CatalogOf(f2.w), [f1.inputs[i]])[0] == NormalInputs(CatalogOf(f2.w), [f2.inputs[i]])[0]
    && EntryFor(SourceOf(f1.w, f1.inputs[i].origin), f1.inputs[i]) == EntryFor(SourceOf(f2.w, f2.inputs[i].origin), f2.inputs[i])
  }

  /** The first freeze has already published everything the second one publishes. */
  lemma SameObjects(w: World, task: TaskSpec, ids: seq<string>, again: seq<string>)
    requires |ids| == |again| == |task.stagedInputs| && FreshIds(w, ids)
    requires Freeze(w, task, ids, |ids|).ok && FreshIds(Freeze(w, task, ids, |ids|).w, again)
    requires Freeze(Freeze(w, task, ids, |ids|).w, task, again, |again|).ok
    ensures Freeze(Freeze(w, task, ids, |ids|).w, task, again, |again|).w.objects == Freeze(w, task, ids, |ids|).w.objects
  {
    var f1 := Freeze(w, task, ids, |ids|);
    var f2 := Freeze(f1.w, task, again, |again|);
    FreezeDoes(w, task, ids, |ids|);
    FreezeDoes(f1.w, task, again, |again|);
    IngestedAlready(w, f1.w, task);
  }

  lemma IngestedAlready(w: World, w': World, task: TaskSpec)
    requires w.files == w'.files
    ensures forall d :: IngestedBelow(w', task, |task.stagedInputs|, d) ==> IngestedBelow(w, task, |task.stagedInputs|, d)
  {
    forall d | IngestedBelow(w', task, |task.stagedInputs|, d) ensures IngestedBelow(w, task, |task.stagedInputs|, d) {
      var i :| 0 <= i < |task.stagedInputs| && IngestedAt(w', task, i, d);
      assert IngestedAt(w, task, i, d);
    }
  }

  lemma ResubmittedInput(w: World, task: TaskSpec, ids: seq<string>, again: seq<string>, f1: Frozen, f2: Frozen, i: nat)
    requires |ids| == |again| == |task.stagedInputs| && i < |ids| && InputOk(w, task.stagedInputs[i])
    requires f1.w.files == w.files == f2.w.files && f1.w.artifacts == w.artifacts == f2.w.artifacts
    requires FrozenBelow(w, task, ids, |ids|, f1) && FrozenBelow(f1.w, task, again, |ids|, f2)
    requires f1.w.objects == f2.w.objects
    ensures ResubmittedAt(f1, f2, i)
  {
  }
}
