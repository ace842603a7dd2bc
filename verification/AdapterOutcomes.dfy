/** What an adapter's outcome, report and declarations come to, spelled out: the statuses
    the platform decides itself, and what a declaration may not be. */
module AdapterOutcomes {
  import opened Contracts
  import opened InputManifest
  import opened AdapterResult

  // ---- the report ------------------------------------------------------------------

  /** A process the platform stopped is cancelled, timed out or failed, in this order of
      precedence and never to be retried; its report is not read.  Otherwise the report
      counts if and only if it parses, has a final status, and agrees with the exit code,
      success only with zero. */
  lemma ReportOutcome(o: Outcome, report: Report)
    ensures o.cancelled ==> LoadResult(o, report) == Some(PluginResult(Cancelled, o.exitCode, [], [], Some(false)))
    ensures !o.cancelled && o.timedOut ==>
            LoadResult(o, report) == Some(PluginResult(TimedOut, o.exitCode, [], [], Some(false)))
    ensures !o.cancelled && !o.timedOut && o.exceeded ==>
            LoadResult(o, report) == Some(PluginResult(RunStatus.Failed, o.exitCode, [], [], Some(false)))
    ensures !o.cancelled && !o.timedOut && !o.exceeded ==>
            && (LoadResult(o, report).Some? <==>
                  && report.Parsed? && report.result.exitCode == o.exitCode
                  && (var st := report.result.status; st.Succeeded? || st.Failed? || st.Cancelled? || st.TimedOut?)
                  && (report.result.status.Succeeded? ==> o.exitCode == 0))
            && (LoadResult(o, report).Some? ==> LoadResult(o, report).value == report.result)
  {
  }

  /** A process the platform stopped keeps that result through the checks that follow, and
      declares nothing. */
  lemma StoppedOutcome(x: Scene)
    requires x.outcome.cancelled || x.outcome.timedOut || x.outcome.exceeded
    ensures var e := Execute(x);
            && e.lines == [] && e.result.failure == Some(false) && e.result.exitCode == x.outcome.exitCode
            && e.result.status == (if x.outcome.cancelled then Cancelled else if x.outcome.timedOut then TimedOut
                                   else RunStatus.Failed)
  {
    ReportOutcome(x.outcome, x.report);
    assert AllAcceptable(x.files, x.rules, [], false) && Lines([]) == [];
  }

  // ---- paths ---------------------------------------------------------------------------

  /** The stretch of a path between two slashes, or its ends. */
  predicate Segment(s: string, i: nat, j: nat) {
    && i <= j <= |s| && (i == 0 || s[i - 1] == '/') && (j == |s| || s[j] == '/')
    && forall k :: i <= k < j ==> s[k] != '/'
  }

  ghost predicate HasInner(s: string, p: string) {
    exists i: nat, j: nat :: Segment(s, i, j) && j < |s| && s[i..j] == p
  }

  /** Where the last part begins. */
  function LastStart(s: string): nat {
    if s == "" then 0 else if s[|s| - 1] == '/' then |s| else LastStart(s[..|s| - 1])
  }

  /** One more character that is no slash belongs to the last part. */
  lemma LastPartGrows(s: string, t: string, k: nat)
    requires s != "" && t == s[..|s| - 1] && s[|s| - 1] != '/' && Segment(t, k, |t|)
    ensures Segment(s, k, |s|) && s[k..] == t[k..] + [s[|s| - 1]]
  {
    assert s == t + [s[|s| - 1]];
  }

  lemma {:induction false} LastPart(s: string)
    ensures Segment(s, LastStart(s), |s|) && Parts(s)[|Parts(s)| - 1] == s[LastStart(s)..]
  {
    if s != "" && s[|s| - 1] != '/' {
      var t := s[..|s| - 1];
      LastPart(t);
      LastPartGrows(s, t, LastStart(t));
    }
  }

  lemma LastStartIsUnique(s: string, i: nat)
    requires Segment(s, i, |s|)
    ensures i == LastStart(s)
  {
    LastPart(s);
    assert forall k :: LastStart(s) <= k < |s| ==> s[k] != '/';
  }

  /** All parts but the last one, after one more character. */
  lemma InnerParts(s: string)
    requires s != ""
    ensures var before, parts := Parts(s[..|s| - 1]), Parts(s);
            parts[..|parts| - 1] == if s[|s| - 1] == '/' then before else before[..|before| - 1]
  {
  }

  /** A segment of what comes before the last character is one of the whole. */
  lemma SegmentStays(s: string, t: string, i: nat, j: nat)
    requires s != "" && t == s[..|s| - 1] && Segment(t, i, j)
    requires j == |t| ==> s[j] == '/'
    ensures Segment(s, i, j) && s[i..j] == t[i..j]
  {
  }

  lemma {:induction false} InnerPartIsSegment(s: string, p: string)
    requires p in Parts(s)[..|Parts(s)| - 1]
    ensures HasInner(s, p)
    decreases |s|
  {
    InnerParts(s);
    var t, before := s[..|s| - 1], Parts(s[..|s| - 1]);
    if p in before[..|before| - 1] {
      InnerPartIsSegment(t, p);
      var i: nat, j: nat :| Segment(t, i, j) && j < |t| && t[i..j] == p;
      SegmentStays(s, t, i, j);
    } else {
      LastPart(t);
      assert before == before[..|before| - 1] + [before[|before| - 1]];
      assert t[LastStart(t)..] == t[LastStart(t)..|t|];
      SegmentStays(s, t, LastStart(t), |t|);
    }
  }

  /** The converse: without its last character a string keeps its inner segments. */
  lemma SegmentWasThere(s: string, t: string, i: nat, j: nat)
    requires s != "" && t == s[..|s| - 1] && Segment(s, i, j) && j < |s|
    ensures Segment(t, i, j) && t[i..j] == s[i..j] && (j == |t| ==> s[|s| - 1] == '/' && t[i..] == s[i..j])
  {
  }

  lemma {:induction false} SegmentIsInnerPart(s: string, i: nat, j: nat)
    requires Segment(s, i, j) && j < |s|
    ensures s[i..j] in Parts(s)[..|Parts(s)| - 1]
  {
    InnerParts(s);
    var t := s[..|s| - 1];
    SegmentWasThere(s, t, i, j);
    if j < |t| {
      SegmentIsInnerPart(t, i, j);
    } else {
      LastStartIsUnique(t, i);
      LastPart(t);
    }
  }

  /** Some segment of the path is `p`. */
  ghost predicate HasSegment(path: string, p: string) {
    exists i: nat, j: nat :: Segment(path, i, j) && path[i..j] == p
  }

  /** Splitting yields exactly the stretches between slashes. */
  lemma PartsAreSegments(path: string, p: string)
    ensures p in Parts(path) <==> HasSegment(path, p)
  {
    if p in Parts(path) { PartIsSegment(path, p); }
    if HasSegment(path, p) { SegmentIsPart(path, p); }
  }

  lemma PartIsSegment(path: string, p: string)
    requires p in Parts(path)
    ensures HasSegment(path, p)
  {
    var parts := Parts(path);
    if p in parts[..|parts| - 1] {
      InnerPartIsSegment(path, p);
    } else {
      LastPart(path);
      assert parts == parts[..|parts| - 1] + [parts[|parts| - 1]];
      assert path[LastStart(path)..|path|] == path[LastStart(path)..];
    }
  }

  lemma SegmentIsPart(path: string, p: string)
    requires HasSegment(path, p)
    ensures p in Parts(path)
  {
    var i: nat, j: nat :| Segment(path, i, j) && path[i..j] == p;
    if j < |path| {
      SegmentIsInnerPart(path, i, j);
    } else {
      LastStartIsUnique(path, i);
      LastPart(path);
      assert path[i..j] == path[i..];
    }
  }

  // ---- declarations ------------------------------------------------------------------------

  /** An adapter's declaration is acceptable if and only if its kind is well formed, none
      of the platform's own, and on the manifest's list if there is one; its path is
      relative, never climbs, and names a file; and it claims no authority. */
  lemma DeclarationOutcome(files: map<string, Bytes>, rules: seq<Rule>, d: Declaration)
    ensures Acceptable(files, rules, d, false) <==>
            && KindName(d.kind)
            && d.kind != "runtime_protocol_receipt" && d.kind != "runtime_evidence_request"
            && d.kind != "runtime_evidence_result" && d.kind != "runtime_evidence_log"
            && d.kind != "runtime_evidence_input_manifest" && d.kind != "runtime_evidence_protocol_receipt"
            && d.kind != "runtime_bundle" && d.kind != "protected_evaluation" && d.kind != "runtime_input_manifest"
            && ((forall i :: 0 <= i < |rules| ==> rules[i].kind == "") || exists i :: 0 <= i < |rules| && rules[i].kind == d.kind)
            && d.path != "" && d.path[0] != '/' && !HasSegment(d.path, "..") && d.path in files
            && "runtime_authority" !in d.metadata
  {
    PartsAreSegments(d.path, "..");
  }

  /** The platform's own declarations may carry any well-formed kind. */
  lemma OwnDeclarationOutcome(files: map<string, Bytes>, rules: seq<Rule>, d: Declaration)
    ensures Acceptable(files, rules, d, true) <==>
            && KindName(d.kind) && d.path != "" && d.path[0] != '/' && !HasSegment(d.path, "..") && d.path in files
            && "runtime_authority" !in d.metadata
  {
    PartsAreSegments(d.path, "..");
  }

  /** No success with a declaration that forges authority: the receipt's kind, an official
      metric, or a protected producer. */
  lemma SuccessForgesNothing(x: Scene, i: nat)
    requires Succeeds(x) && x.report.Parsed? && i < |x.report.result.artifacts|
    ensures var d := x.report.result.artifacts[i];
            && d.kind != "runtime_protocol_receipt" && "official_qor" !in d.metadata
            && ("producer" in d.metadata ==> !("protected-" <= d.metadata["producer"]))
            && Acceptable(x.files, x.rules, d, false)
  {
    SuccessIffEarned(x);
    assert !Forged(x.report.result.artifacts[i]);
  }

  /** Every declared artifact of a success is recorded under its own kind and key. */
  lemma SuccessRecordsDeclarations(x: Scene, i: nat)
    requires Succeeds(x) && x.report.Parsed? && i < |x.report.result.artifacts|
    ensures var d := x.report.result.artifacts[i];
            exists k :: 0 <= k < |Conclude(x).rows| && Conclude(x).rows[k].kind == d.kind && Conclude(x).rows[k].key == d.path
  {
    SuccessIffEarned(x);
    var kept := Declared(x) + Collected(x.found.value, Declared(x));
    SuccessRecords(x, kept);
    var k := |x.own| + i;
    assert kept[k] == Declared(x)[k] == Line(x.report.result.artifacts[i].kind, x.report.result.artifacts[i].path);
    assert Conclude(x).rows[k].kind == kept[k].kind && Conclude(x).rows[k].key == kept[k].key;
  }

  // ---- what is recorded ----------------------------------------------------------------------

  /** Collection invents nothing: each line was found, and no declared key is taken. */
  lemma {:induction false} CollectedWasFound(found: seq<Line>, base: seq<Line>, i: nat)
    requires i < |Collected(found, base)|
    ensures Collected(found, base)[i] in found && !HasKey(base, Collected(found, base)[i].key)
    decreases |found|
  {
    var head, last := found[..|found| - 1], found[|found| - 1];
    var before := Collected(head, base);
    if i < |before| {
      CollectedWasFound(head, base, i);
    } else {
      NoKeyBefore(base, before, last.key);
    }
  }

  lemma NoKeyBefore(base: seq<Line>, more: seq<Line>, key: string)
    requires !HasKey(base + more, key)
    ensures !HasKey(base, key)
  {
    forall i | 0 <= i < |base| ensures base[i].key != key {
      assert (base + more)[i] == base[i];
    }
  }

  /** A metric that names no key keeps the artifact it names itself, if any. */
  lemma UnkeyedMetric(x: Scene, i: nat)
    requires Succeeds(x) && x.report.Parsed? && i < |AllMetrics(x)| && AllMetrics(x)[i].sourceKey.None?
    ensures i < |Conclude(x).metrics| && Conclude(x).metrics[i] == MetricRow(x.attempt, AllMetrics(x)[i].name, AllMetrics(x)[i].sourceId)
  {
    SuccessIffEarned(x);
    SuccessRecords(x, Declared(x) + Collected(x.found.value, Declared(x)));
  }

  /** An attempt that did not succeed is recorded with no metrics, and with the status and
      failure decided before; it raises if and only if evidence was lost, the platform's
      own files do not hold up, or custody fails. */
  lemma FailureOutcome(x: Scene)
    requires !Execute(x).result.status.Succeeded?
    ensures var e, own := Execute(x), Lines(x.own);
            Conclude(x).Concluded? <==>
            && (forall i :: 0 <= i < |e.result.artifacts| ==> !Forged(e.result.artifacts[i]))
            && !x.tampered && !x.evidenceLost && x.found.Some? && AllAcceptable(x.files, x.rules, x.own, true)
            && DistinctKeys(own + e.lines)
            && AllStorable(x.files, own + e.lines + Collected(x.found.value, own + e.lines))
    ensures Conclude(x).Concluded? ==> Conclude(x).result == Execute(x).result && Conclude(x).metrics == []
  {
    var e, own := Execute(x), Lines(x.own);
    if x.found.Some? {
      assert own + e.lines + [] == own + e.lines;
      CollectedKeys(x.found.value, own + e.lines);
      DistinctPrefix(own + e.lines, Collected(x.found.value, own + e.lines));
    }
  }
}
