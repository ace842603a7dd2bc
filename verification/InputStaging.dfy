/** The runtime's input handling as it runs: loops that grow lists, publish objects
    and fill a workspace, each proved to compute the folds of `InputManifest`. */
module InputStaging {
  import opened Contracts
  import opened Transactions
  import opened InputManifest

  class InputStore {
    var files: map<string, Bytes>
    var uploads: map<string, Recorded>
    var artifacts: map<string, ArtifactEntry>
    var objects: map<Digest, Bytes>

    constructor ()
      ensures View() == World(map[], map[], map[], map[])
    {
      files, uploads, artifacts, objects := map[], map[], map[], map[];
    }

    function View(): World
      reads this
    {
      World(files, uploads, artifacts, objects)
    }

    /** Publish bytes under their digest and record the upload. */
    method IngestFile(b: Bytes, id: string) returns (ok: bool)
      modifies this`uploads, this`objects
      ensures ok == Ingest(old(View()), b, id).Some?
      ensures View() == if ok then Ingest(old(View()), b, id).value else old(View())
    {
      var digest := Sha256(b);
      if digest in objects {
        if Measure(objects[digest]) != Measure(b) { return false; }
        assert objects == objects[digest := b];
      } else {
        objects := objects[digest := b];
      }
      uploads := uploads[id := Measure(b)];
      return true;
    }

    /** Replace every host file by an upload of its bytes, remembering the path in a
        label; a refused publication leaves what was published before it. */
    method FreezeHostInputs(task: TaskSpec, ids: seq<string>) returns (r: Option<TaskSpec>)
      requires |ids| == |task.stagedInputs|
      modifies this`uploads, this`objects
      ensures var f := Freeze(old(View()), task, ids, |ids|);
              && View() == f.w
              && r == if f.ok then Some(task.(stagedInputs := f.inputs, labels := f.labels)) else None
    {
      ghost var was := View();
      var frozen: seq<InputFile>, labels, changed := [], task.labels, false;
      for i := 0 to |task.stagedInputs|
        invariant Freeze(was, task, ids, i) == Frozen(true, View(), frozen, labels)
        invariant !changed ==> frozen == task.stagedInputs[..i] && labels == task.labels
      {
        var d := task.stagedInputs[i];
        if d.origin.HostPath? && d.origin.path in files {
          var ok := IngestFile(files[d.origin.path], ids[i]);
          if !ok {
            RefusedStays(was, task, ids, i + 1, |ids|);
            return None;
          }
          labels := labels[HostLabel(i) := d.origin.path];
          frozen := frozen + [d.(origin := UploadRef(ids[i]))];
          changed := true;
        } else {
          frozen := frozen + [d];
        }
      }
      assert task.stagedInputs[..|task.stagedInputs|] == task.stagedInputs;
      return Some(if changed then task.(stagedInputs := frozen, labels := labels) else task);
    }

    /** The manifest lines of a task's inputs, or nothing where a lookup raises. */
    method InputEntries(inputs: seq<InputFile>) returns (r: Option<seq<ManifestEntry>>)
      ensures r == ManifestFor(View(), inputs)
    {
      var entries: seq<ManifestEntry> := [];
      for i := 0 to |inputs|
        invariant Entries(View(), inputs, i) == Some(entries)
      {
        var entry := EntryFor(SourceOf(View(), inputs[i].origin), inputs[i]);
        if entry.None? {
          NoEntriesLater(View(), inputs, i + 1, |inputs|);
          return None;
        }
        entries := entries + [entry.value];
      }
      return Some(entries);
    }

    method Submit(task: TaskSpec, ids: seq<string>) returns (r: Option<TaskSpec>)
      requires |ids| == |task.stagedInputs|
      modifies this`uploads, this`objects
      ensures (View(), r) == Submitted(old(View()), task, ids)
    {
      for i := 0 to |task.stagedInputs|
        invariant View() == old(View())
        invariant forall j :: 0 <= j < i ==> InputOk(View(), task.stagedInputs[j])
      {
        if !InputOk(View(), task.stagedInputs[i]) { return None; }
      }
      var frozen := FreezeHostInputs(task, ids);
      if frozen.None? { return None; }
      var entries := InputEntries(frozen.value.stagedInputs);
      if entries.None? { return None; }
      return Some(frozen.value.(inputManifest := Some(ManifestOf(entries.value))));
    }

    /** Stage the inputs into the attempt's workspace and compare them with the manifest. */
    method Prepare(task: TaskSpec, start: map<string, Bytes>) returns (r: Option<Staging>)
      ensures r == Prepared(View(), task, start)
    {
      var inputs := task.stagedInputs;
      var staged: seq<ManifestEntry>, workspace: map<string, Bytes> := [], start;
      for i := 0 to |inputs|
        invariant Stage(View(), inputs, start, i) == Some(Staging(staged, workspace))
      {
        var p := StageOne(SourceOf(View(), inputs[i].origin), inputs[i]);
        if p.None? {
          NotStagedLater(View(), inputs, start, i + 1, |inputs|);
          return None;
        }
        if p.value.bytes.Some? {
          workspace := workspace[inputs[i].destination := p.value.bytes.value];
        }
        staged := staged + [p.value.entry];
      }
      return if ManifestAgrees(task, staged) then Some(Staging(staged, workspace)) else None;
    }
  }

  lemma {:induction false} RefusedStays(w: World, task: TaskSpec, ids: seq<string>, m: nat, n: nat)
    requires m <= n <= |task.stagedInputs| == |ids| && !Freeze(w, task, ids, m).ok
    ensures Freeze(w, task, ids, n) == Freeze(w, task, ids, m)
  {
    if m < n { RefusedStays(w, task, ids, m, n - 1); }
  }

  lemma {:induction false} NoEntriesLater(w: World, inputs: seq<InputFile>, m: nat, n: nat)
    requires m <= n <= |inputs| && Entries(w, inputs, m).None?
    ensures Entries(w, inputs, n).None?
  {
    if m < n { NoEntriesLater(w, inputs, m, n - 1); }
  }

  lemma {:induction false} NotStagedLater(w: World, inputs: seq<InputFile>, start: map<string, Bytes>, m: nat, n: nat)
    requires m <= n <= |inputs| && Stage(w, inputs, start, m).None?
    ensures Stage(w, inputs, start, n).None?
  {
    if m < n { NotStagedLater(w, inputs, start, m, n - 1); }
  }
}
