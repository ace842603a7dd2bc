/** From a finished process to a recorded attempt: reading the adapter's report,
    checking its artifact declarations, asking the evaluator, taking custody, and
    tying metrics to artifacts. */
module AdapterResult {
  import opened Contracts
  import opened InputManifest

  datatype Outcome = Outcome(exitCode: int, cancelled: bool, timedOut: bool, exceeded: bool)

  datatype Declaration = Declaration(kind: string, path: string, metadata: map<string, string>)

  /** `valid` is the metric's own contract: an identifier as name, a scalar that is not
      NaN, and no context key the kernel owns. */
  datatype RawMetric = RawMetric(name: string, sourceKey: Option<string>, sourceId: Option<nat>, valid: bool)

  datatype PluginResult = PluginResult(
    status: RunStatus, exitCode: int, metrics: seq<RawMetric>, artifacts: seq<Declaration>, failure: Option<bool>)
  {
    predicate Valid() {
      && (status.Succeeded? || status.Failed? || status.Cancelled? || status.TimedOut?)
      && (status.Succeeded? ==> exitCode == 0)
    }
  }

  /** The adapter's result file. */
  datatype Report = NoFile | Malformed | Parsed(result: PluginResult)

  /** A manifest rule; an absent kind is the empty string. */
  datatype Rule = Rule(kind: string, required: bool)

  /** A checked declaration: the kind and the key relative to the workspace. */
  datatype Line = Line(kind: string, key: string)

  datatype VerdictStatus = Admissible | Rejected | Incomplete

  datatype Evaluator =
    | NoEvaluator
    | Verdict(status: VerdictStatus, metrics: seq<RawMetric>, artifacts: seq<Declaration>, valid: bool)

  /** Everything one attempt's conclusion reads.  `found` is what the manifest's
      collection patterns match, in order, unless a required pattern matches nothing;
      `tampered` says that the adapter changed the platform's own files. */
  datatype Scene = Scene(
    attempt: nat, firstArtifact: nat,
    outcome: Outcome, report: Report, files: map<string, Bytes>,
    rules: seq<Rule>, expected: set<string>,
    own: seq<Declaration>, tampered: bool,
    evaluationRequired: bool, evaluator: Evaluator,
    found: Option<seq<Line>>, evidenceLost: bool)

  // ---- the report ------------------------------------------------------------------

  /** The platform's own decisions come before the adapter's opinion; `None` is a
      protocol error. */
  function LoadResult(outcome: Outcome, report: Report): Option<PluginResult> {
    if outcome.cancelled then Some(PluginResult(Cancelled, outcome.exitCode, [], [], Some(false)))
    else if outcome.timedOut then Some(PluginResult(TimedOut, outcome.exitCode, [], [], Some(false)))
    else if outcome.exceeded then Some(PluginResult(RunStatus.Failed, outcome.exitCode, [], [], Some(false)))
    else if !report.Parsed? || !report.result.Valid() then None
    else if outcome.exitCode != 0 && report.result.status.Succeeded? then None
    else if outcome.exitCode != report.result.exitCode then None
    else Some(report.result)
  }

  function ProtocolFailure(exitCode: int): PluginResult {
    PluginResult(RunStatus.Failed, if exitCode != 0 then exitCode else 1, [], [], Some(false))
  }

  // ---- declarations ----------------------------------------------------------------

  const RESERVED_KINDS: set<string> := {
    "runtime_protocol_receipt", "runtime_evidence_request", "runtime_evidence_result", "runtime_evidence_log",
    "runtime_evidence_input_manifest", "runtime_evidence_protocol_receipt", "runtime_bundle",
    "protected_evaluation", "runtime_input_manifest"}

  predicate KindName(s: string) {
    && 1 <= |s| <= 128 && KindChar(s[0]) && s[0] !in "_.:-"
    && forall i :: 0 <= i < |s| ==> KindChar(s[i])
  }

  predicate KindChar(c: char) {
    'A' <= c <= 'Z' || 'a' <= c <= 'z' || '0' <= c <= '9' || c in "_.:-"
  }

  /** The "/"-separated parts of a path. */
  function Parts(s: string): (parts: seq<string>)
    ensures parts != []
  {
    if s == "" then [""]
    else
      var before := Parts(s[..|s| - 1]);
      if s[|s| - 1] == '/' then before + [""]
      else before[..|before| - 1] + [before[|before| - 1] + [s[|s| - 1]]]
  }

  /** A path that names something inside the workspace and cannot leave it. */
  predicate InWorkspace(path: string) {
    path != "" && path[0] != '/' && ".." !in Parts(path)
  }

  predicate Acceptable(files: map<string, Bytes>, rules: seq<Rule>, d: Declaration, allowReserved: bool) {
    && KindName(d.kind) && (d.kind in RESERVED_KINDS ==> allowReserved)
    && InWorkspace(d.path) && "runtime_authority" !in d.metadata
    && (Restricts(rules) && !allowReserved ==> exists i :: 0 <= i < |rules| && rules[i].kind == d.kind)
    && d.path in files
  }

  /** The allowlist applies as soon as one rule names a kind. */
  predicate Restricts(rules: seq<Rule>) { exists i :: 0 <= i < |rules| && rules[i].kind != "" }

  predicate DistinctPaths(ds: seq<Declaration>) {
    forall i, j :: 0 <= i < j < |ds| ==> ds[i].path != ds[j].path
  }

  predicate Produces(ds: seq<Declaration>, kind: string) {
    exists i :: 0 <= i < |ds| && ds[i].kind == kind
  }

  /** Kinds the task expects or the manifest requires, each produced. */
  predicate ProducesRequired(rules: seq<Rule>, expected: set<string>, ds: seq<Declaration>) {
    && (forall kind :: kind in expected && kind != "" ==> Produces(ds, kind))
    && (forall i :: 0 <= i < |rules| && rules[i].required && rules[i].kind != "" ==> Produces(ds, rules[i].kind))
  }

  predicate AllAcceptable(files: map<string, Bytes>, rules: seq<Rule>, ds: seq<Declaration>, allowReserved: bool) {
    DistinctPaths(ds) && forall i :: 0 <= i < |ds| ==> Acceptable(files, rules, ds[i], allowReserved)
  }

  function Lines(ds: seq<Declaration>): (lines: seq<Line>)
    ensures |lines| == |ds| && forall i :: 0 <= i < |ds| ==> lines[i] == Line(ds[i].kind, ds[i].path)
  {
    seq(|ds|, i requires 0 <= i < |ds| => Line(ds[i].kind, ds[i].path))
  }

  function Validated(files: map<string, Bytes>, rules: seq<Rule>, ds: seq<Declaration>,
                     expected: Option<set<string>>, allowReserved: bool): Option<seq<Line>>
  {
    if AllAcceptable(files, rules, ds, allowReserved) &&
       (expected.Some? ==> ProducesRequired(rules, expected.value, ds))
    then Some(Lines(ds)) else None
  }

  /** The first `n` declarations hold up, with their lines and kinds. */
  ghost predicate CheckedBelow(ds: seq<Declaration>, accepts: Declaration -> bool, n: nat, lines: seq<Line>,
                               produced: set<string>)
    requires n <= |ds|
  {
    && |lines| == n
    && (forall i :: 0 <= i < n ==> accepts(ds[i]) && lines[i] == Line(ds[i].kind, ds[i].path))
    && (forall i, j :: 0 <= i < j < n ==> ds[i].path != ds[j].path)
    && (forall kind :: kind in produced <==> exists i :: 0 <= i < n && ds[i].kind == kind)
  }

  /** Go through declarations with a check for each, growing the keys seen and the
      kinds produced. */
  method CheckDeclarations(ds: seq<Declaration>, accepts: Declaration -> bool)
    returns (ok: bool, normalized: seq<Line>, produced: set<string>)
    ensures ok <==> DistinctPaths(ds) && forall i :: 0 <= i < |ds| ==> accepts(ds[i])
    ensures ok ==> normalized == Lines(ds) && forall kind :: kind in produced <==> Produces(ds, kind)
  {
    var seen: set<string> := {};
    normalized, produced := [], {};
    for i := 0 to |ds|
      invariant CheckedBelow(ds, accepts, i, normalized, produced)
      invariant forall key :: key in seen <==> exists j :: 0 <= j < i && ds[j].path == key
    {
      var d := ds[i];
      if !accepts(d) || d.path in seen { return false, [], {}; }
      seen, produced, normalized := seen + {d.path}, produced + {d.kind}, normalized + [Line(d.kind, d.path)];
    }
    return true, normalized, produced;
  }

  /** The checks on each declaration, then on what is missing. */
  method ValidateDeclarations(files: map<string, Bytes>, rules: seq<Rule>, ds: seq<Declaration>,
                              expected: Option<set<string>>, allowReserved: bool) returns (r: Option<seq<Line>>)
    ensures r == Validated(files, rules, ds, expected, allowReserved)
  {
    var ok, normalized, produced := CheckDeclarations(ds, d => Acceptable(files, rules, d, allowReserved));
    if !ok { return None; }
    if expected.Some? {
      var required := expected.value + set i | 0 <= i < |rules| && rules[i].required :: rules[i].kind;
      if exists kind :: kind in required && kind != "" && kind !in produced { return None; }
      assert forall i :: 0 <= i < |rules| && rules[i].required ==> rules[i].kind in required;
    }
    return Some(normalized);
  }

  // ---- one execution ---------------------------------------------------------------

  datatype Execution = Execution(result: PluginResult, lines: seq<Line>)

  function Execute(x: Scene): Execution {
    var loaded := LoadResult(x.outcome, x.report);
    if loaded.None? then Execution(ProtocolFailure(x.outcome.exitCode), [])
    else
      var lines := Validated(x.files, x.rules, loaded.value.artifacts,
                             if loaded.value.status.Succeeded? then Some(x.expected) else None, false);
      if lines.None? then Execution(ProtocolFailure(x.outcome.exitCode), []) else Execution(loaded.value, lines.value)
  }

  /** An adapter may not manufacture the platform's or the evaluator's authority. */
  predicate Forged(d: Declaration) {
    || d.kind == "runtime_protocol_receipt" || "official_qor" in d.metadata
    || ("producer" in d.metadata && "protected-" <= d.metadata["producer"])
  }

  predicate Forges(ds: seq<Declaration>) { exists i :: 0 <= i < |ds| && Forged(ds[i]) }

  /** The evaluator's artifacts and metrics; `None` where the evaluation raises. */
  function Evaluate(x: Scene, status: RunStatus): Option<(seq<Line>, seq<RawMetric>)> {
    if !status.Succeeded? then Some(([], []))
    else if x.evaluator.NoEvaluator? then if x.evaluationRequired then None else Some(([], []))
    else if !x.evaluator.valid || x.evaluator.status.Rejected? then None
    else
      var lines := Validated(x.files, x.rules, x.evaluator.artifacts, None, false);
      if lines.None? then None else Some((lines.value, x.evaluator.metrics))
  }

  predicate HasKey(lines: seq<Line>, key: string) {
    exists i :: 0 <= i < |lines| && lines[i].key == key
  }

  predicate DistinctKeys(lines: seq<Line>) {
    forall i, j :: 0 <= i < j < |lines| ==> lines[i].key != lines[j].key
  }

  /** Matches of the collection patterns whose key nothing occupies yet. */
  function Collected(found: seq<Line>, base: seq<Line>): seq<Line> {
    if found == [] then []
    else
      var before, last := Collected(found[..|found| - 1], base), found[|found| - 1];
      if HasKey(base + before, last.key) then before else before + [last]
  }

  method Collect(found: seq<Line>, base: seq<Line>) returns (collected: seq<Line>)
    ensures collected == Collected(found, base)
    ensures DistinctKeys(base) ==> DistinctKeys(base + collected)
    ensures forall i :: 0 <= i < |found| ==> HasKey(base + collected, found[i].key)
  {
    var occupied := set i | 0 <= i < |base| :: base[i].key;
    collected := [];
    assert base + collected == base;
    for i := 0 to |found|
      invariant collected == Collected(found[..i], base)
      invariant forall key :: key in occupied <==> HasKey(base + collected, key)
    {
      assert found[..i + 1][..i] == found[..i];
      var line := found[i];
      if line.key !in occupied {
        HasKeyOneMore(base, collected, line);
        occupied := occupied + {line.key};
        collected := collected + [line];
      }
    }
    assert found[..|found|] == found;
    CollectedKeys(found, base);
  }

  lemma HasKeyOneMore(base: seq<Line>, collected: seq<Line>, line: Line)
    ensures forall key :: HasKey(base + (collected + [line]), key) <==> HasKey(base + collected, key) || key == line.key
  {
    var xs, ys := base + collected, base + (collected + [line]);
    assert ys == xs + [line];
    forall key ensures HasKey(ys, key) <==> HasKey(xs, key) || key == line.key {
      if HasKey(xs, key) {
        var i :| 0 <= i < |xs| && xs[i].key == key;
        assert ys[i].key == key;
      }
      assert ys[|xs|] == line;
    }
  }

  /** Collection never clashes with what is declared and never drops a match. */
  lemma {:induction false} CollectedKeys(found: seq<Line>, base: seq<Line>)
    ensures DistinctKeys(base) ==> DistinctKeys(base + Collected(found, base))
    ensures forall i :: 0 <= i < |found| ==> HasKey(base + Collected(found, base), found[i].key)
  {
    if found == [] {
      assert base + Collected(found, base) == base;
    } else {
      var head, last := found[..|found| - 1], found[|found| - 1];
      CollectedKeys(head, base);
      var before := Collected(head, base);
      HasKeyOneMore(base, before, last);
      assert base + (before + [last]) == base + before + [last];
      forall i | 0 <= i < |found| ensures HasKey(base + Collected(found, base), found[i].key) {
        if i < |head| { assert found[i] == head[i]; }
      }
    }
  }

  // ---- custody ---------------------------------------------------------------------

  datatype ArtifactRow = ArtifactRow(id: nat, attempt: nat, kind: string, key: string, record: Recorded)

  predicate Storable(files: map<string, Bytes>, line: Line) {
    KindName(line.kind) && InWorkspace(line.key) && line.key in files
  }

  predicate AllStorable(files: map<string, Bytes>, lines: seq<Line>) {
    forall i :: 0 <= i < |lines| ==> Storable(files, lines[i])
  }

  /** One transaction: every line is stored, measured from the bytes on disk, or
      none is; the table admits a key once per attempt. */
  function Registered(x: Scene, lines: seq<Line>): Option<seq<ArtifactRow>> {
    if AllStorable(x.files, lines) && DistinctKeys(lines) then
      Some(seq(|lines|, i requires 0 <= i < |lines| =>
        assert Storable(x.files, lines[i]);
        ArtifactRow(x.firstArtifact + i, x.attempt, lines[i].kind, lines[i].key, Measure(x.files[lines[i].key]))))
    else None
  }

  method RegisterArtifacts(x: Scene, lines: seq<Line>) returns (r: Option<seq<ArtifactRow>>)
    ensures r == Registered(x, lines)
  {
    var rows: seq<ArtifactRow>, keys: set<string> := [], {};
    for i := 0 to |lines|
      invariant StoredBelow(x, lines, i, rows)
      invariant forall key :: key in keys <==> exists j :: 0 <= j < i && lines[j].key == key
    {
      if !Storable(x.files, lines[i]) || lines[i].key in keys { return None; }
      rows := rows + [ArtifactRow(x.firstArtifact + i, x.attempt, lines[i].kind, lines[i].key,
                                  Measure(x.files[lines[i].key]))];
      keys := keys + {lines[i].key};
    }
    assert rows == Registered(x, lines).value;
    return Some(rows);
  }

  /** The first `n` lines are stored, at distinct keys. */
  ghost predicate StoredBelow(x: Scene, lines: seq<Line>, n: nat, rows: seq<ArtifactRow>)
    requires n <= |lines|
  {
    && |rows| == n
    && (forall i :: 0 <= i < n ==>
          && Storable(x.files, lines[i])
          && rows[i] == ArtifactRow(x.firstArtifact + i, x.attempt, lines[i].kind, lines[i].key, Measure(x.files[lines[i].key])))
    && (forall i, j :: 0 <= i < j < n ==> lines[i].key != lines[j].key)
  }

  // ---- metrics ---------------------------------------------------------------------

  datatype MetricRow = MetricRow(attempt: nat, name: string, source: Option<nat>)

  function IdOf(rows: seq<ArtifactRow>, key: string): (id: Option<nat>)
    ensures id.Some? <==> exists i :: 0 <= i < |rows| && rows[i].key == key
    ensures id.Some? ==> exists i :: 0 <= i < |rows| && rows[i].key == key && rows[i].id == id.value
  {
    if rows == [] then None
    else if rows[|rows| - 1].key == key then Some(rows[|rows| - 1].id)
    else IdOf(rows[..|rows| - 1], key)
  }

  predicate Traceable(rows: seq<ArtifactRow>, raw: RawMetric) {
    raw.valid && (raw.sourceKey.Some? ==> IdOf(rows, raw.sourceKey.value).Some?)
  }

  function Attached(x: Scene, raws: seq<RawMetric>, rows: seq<ArtifactRow>): Option<seq<MetricRow>> {
    if forall i :: 0 <= i < |raws| ==> Traceable(rows, raws[i]) then
      Some(seq(|raws|, i requires 0 <= i < |raws| =>
        MetricRow(x.attempt, raws[i].name,
                  if raws[i].sourceKey.Some? then IdOf(rows, raws[i].sourceKey.value) else raws[i].sourceId)))
    else None
  }

  method RegisterMetrics(x: Scene, raws: seq<RawMetric>, rows: seq<ArtifactRow>) returns (r: Option<seq<MetricRow>>)
    ensures r == Attached(x, raws, rows)
  {
    var byKey: map<string, nat> := map[];
    for i := 0 to |rows|
      invariant forall key :: IdOf(rows[..i], key) == if key in byKey then Some(byKey[key]) else None
    {
      assert rows[..i + 1][..i] == rows[..i];
      byKey := byKey[rows[i].key := rows[i].id];
    }
    assert rows[..|rows|] == rows;
    var metrics: seq<MetricRow> := [];
    for i := 0 to |raws|
      invariant Attached(x, raws[..i], rows).Some? && Attached(x, raws[..i], rows).value == metrics
    {
      var raw := raws[i];
      var source := raw.sourceId;
      assert raws[..i + 1] == raws[..i] + [raw];
      if raw.sourceKey.Some? {
        if raw.sourceKey.value !in byKey { return None; }
        source := Some(byKey[raw.sourceKey.value]);
      }
      if !raw.valid { return None; }
      metrics := metrics + [MetricRow(x.attempt, raw.name, source)];
    }
    assert raws[..|raws|] == raws;
    return Some(metrics);
  }

  // ---- the conclusion --------------------------------------------------------------

  datatype Conclusion = Raised | Concluded(result: PluginResult, rows: seq<ArtifactRow>, metrics: seq<MetricRow>)

  /** What reaches finish_attempt, or the runtime failure path. */
  function Conclude(x: Scene): Conclusion {
    var e := Execute(x);
    var own, evaluated := Validated(x.files, x.rules, x.own, None, true), Evaluate(x, e.result.status);
    if Forges(e.result.artifacts) || x.tampered || own.None? || evaluated.None? || x.found.None? then Raised
    else
      var base := own.value + e.lines + evaluated.value.0;
      var rows := Registered(x, base + Collected(x.found.value, base));
      if rows.None? then Raised
      else if !e.result.status.Succeeded? then
        if x.evidenceLost then Raised else Concluded(e.result, rows.value, [])
      else
        var metrics := Attached(x, e.result.metrics + evaluated.value.1, rows.value);
        if metrics.None? then Raised else Concluded(e.result, rows.value, metrics.value)
  }

  method ConcludeExecution(x: Scene) returns (r: Conclusion)
    ensures r == Conclude(x)
  {
    var e := RunAdapter(x);
    for i := 0 to |e.result.artifacts|
      invariant forall j :: 0 <= j < i ==> !Forged(e.result.artifacts[j])
    {
      if Forged(e.result.artifacts[i]) { return Raised; }
    }
    if x.tampered { return Raised; }
    var own := ValidateDeclarations(x.files, x.rules, x.own, None, true);
    if own.None? { return Raised; }
    var evaluated := Evaluate(x, e.result.status);
    if evaluated.None? || x.found.None? { return Raised; }
    var base := own.value + e.lines + evaluated.value.0;
    var collected := Collect(x.found.value, base);
    var rows := RegisterArtifacts(x, base + collected);
    if rows.None? { return Raised; }
    if !e.result.status.Succeeded? {
      return if x.evidenceLost then Raised else Concluded(e.result, rows.value, []);
    }
    var metrics := RegisterMetrics(x, e.result.metrics + evaluated.value.1, rows.value);
    if metrics.None? { return Raised; }
    return Concluded(e.result, rows.value, metrics.value);
  }

  method RunAdapter(x: Scene) returns (e: Execution)
    ensures e == Execute(x)
  {
    var loaded := LoadResult(x.outcome, x.report);
    if loaded.None? { return Execution(ProtocolFailure(x.outcome.exitCode), []); }
    var lines := ValidateDeclarations(x.files, x.rules, loaded.value.artifacts,
                                      if loaded.value.status.Succeeded? then Some(x.expected) else None, false);
    return if lines.None? then Execution(ProtocolFailure(x.outcome.exitCode), []) else Execution(loaded.value, lines.value);
  }

  // ---- success is earned -------------------------------------------------------------

  predicate CleanExit(o: Outcome) { o.exitCode == 0 && !o.cancelled && !o.timedOut && !o.exceeded }

  /** The adapter said so, with declarations that check out and nothing required
      missing. */
  predicate HonestReport(x: Scene) {
    && x.report.Parsed? && x.report.result.status.Succeeded? && x.report.result.exitCode == 0
    && AllAcceptable(x.files, x.rules, x.report.result.artifacts, false)
    && ProducesRequired(x.rules, x.expected, x.report.result.artifacts)
    && !Forges(x.report.result.artifacts)
  }

  /** No evaluator where none is required, or one that did not reject. */
  predicate EvaluatorContent(x: Scene) {
    if x.evaluator.NoEvaluator? then !x.evaluationRequired
    else x.evaluator.valid && !x.evaluator.status.Rejected? && AllAcceptable(x.files, x.rules, x.evaluator.artifacts, false)
  }

  function EvaluatorArtifacts(x: Scene): seq<Declaration> {
    if x.evaluator.NoEvaluator? then [] else x.evaluator.artifacts
  }

  function AllMetrics(x: Scene): seq<RawMetric>
    requires x.report.Parsed?
  {
    x.report.result.metrics + if x.evaluator.NoEvaluator? then [] else x.evaluator.metrics
  }

  /** Everything declared by the platform, the adapter and the evaluator. */
  function Declared(x: Scene): seq<Line>
    requires x.report.Parsed?
  {
    Lines(x.own) + Lines(x.report.result.artifacts) + Lines(EvaluatorArtifacts(x))
  }

  /** Declared paths are pairwise distinct, everything to be kept is a file of the
      workspace, and every metric that names a key names one that is kept. */
  predicate InCustody(x: Scene)
    requires x.report.Parsed?
  {
    && AllAcceptable(x.files, x.rules, x.own, true) && !x.tampered && x.found.Some?
    && DistinctKeys(Declared(x))
    && var kept := Declared(x) + Collected(x.found.value, Declared(x));
    && AllStorable(x.files, kept)
    && forall i :: 0 <= i < |AllMetrics(x)| ==>
         AllMetrics(x)[i].valid &&
         (AllMetrics(x)[i].sourceKey.Some? ==> HasKey(kept, AllMetrics(x)[i].sourceKey.value))
  }

  predicate Earned(x: Scene) {
    CleanExit(x.outcome) && HonestReport(x) && EvaluatorContent(x) && InCustody(x)
  }

  predicate Succeeds(x: Scene) { Conclude(x).Concluded? && Conclude(x).result.status.Succeeded? }

  lemma ReportedSuccess(x: Scene)
    ensures Execute(x).result.status.Succeeded? && !Forges(Execute(x).result.artifacts) <==>
            CleanExit(x.outcome) && HonestReport(x)
    ensures CleanExit(x.outcome) && HonestReport(x) ==>
            Execute(x) == Execution(x.report.result, Lines(x.report.result.artifacts))
  {
  }

  lemma RegisteredKeys(x: Scene, lines: seq<Line>, raw: RawMetric)
    requires Registered(x, lines).Some?
    ensures Traceable(Registered(x, lines).value, raw) <==>
            raw.valid && (raw.sourceKey.Some? ==> HasKey(lines, raw.sourceKey.value))
  {
    var rows := Registered(x, lines).value;
    assert forall i :: 0 <= i < |lines| ==> rows[i].key == lines[i].key;
  }

  /** An attempt is reported as succeeded if and only if success was earned. */
  lemma SuccessIffEarned(x: Scene)
    ensures Succeeds(x) <==> Earned(x)
  {
    ReportedSuccess(x);
    var e := Execute(x);
    if CleanExit(x.outcome) && HonestReport(x) && EvaluatorContent(x) &&
       AllAcceptable(x.files, x.rules, x.own, true) && !x.tampered && x.found.Some?
    {
      var base := Declared(x);
      assert Evaluate(x, e.result.status) == Some((Lines(EvaluatorArtifacts(x)), AllMetrics(x)[|x.report.result.metrics|..]));
      assert AllMetrics(x) == e.result.metrics + Evaluate(x, e.result.status).value.1;
      CollectedKeys(x.found.value, base);
      CustodyIff(x, base + Collected(x.found.value, base));
      DistinctPrefix(base, Collected(x.found.value, base));
    }
  }

  lemma DistinctPrefix(xs: seq<Line>, ys: seq<Line>)
    ensures DistinctKeys(xs + ys) ==> DistinctKeys(xs)
  {
    if DistinctKeys(xs + ys) {
      forall i, j | 0 <= i < j < |xs| ensures xs[i].key != xs[j].key {
        assert (xs + ys)[i] == xs[i] && (xs + ys)[j] == xs[j];
      }
    }
  }

  lemma CustodyIff(x: Scene, kept: seq<Line>)
    requires x.report.Parsed?
    ensures Registered(x, kept).Some? && Attached(x, AllMetrics(x), Registered(x, kept).value).Some? <==>
            && DistinctKeys(kept) && AllStorable(x.files, kept)
            && forall i :: 0 <= i < |AllMetrics(x)| ==>
                 AllMetrics(x)[i].valid &&
                 (AllMetrics(x)[i].sourceKey.Some? ==> HasKey(kept, AllMetrics(x)[i].sourceKey.value))
  {
    if Registered(x, kept).Some? {
      forall i | 0 <= i < |AllMetrics(x)|
        ensures Traceable(Registered(x, kept).value, AllMetrics(x)[i]) <==>
                AllMetrics(x)[i].valid &&
                (AllMetrics(x)[i].sourceKey.Some? ==> HasKey(kept, AllMetrics(x)[i].sourceKey.value))
      {
        RegisteredKeys(x, kept, AllMetrics(x)[i]);
      }
    }
  }

  // ---- the record of a success ---------------------------------------------------------

  predicate RowSound(x: Scene, row: ArtifactRow) {
    row.attempt == x.attempt && InWorkspace(row.key) && row.key in x.files && row.record == Measure(x.files[row.key])
  }

  /** The metric points at this attempt's one artifact under the key it names. */
  ghost predicate MetricSound(x: Scene, rows: seq<ArtifactRow>, raw: RawMetric, m: MetricRow) {
    && m.attempt == x.attempt && m.name == raw.name
    && (raw.sourceKey.Some? ==>
          exists i :: 0 <= i < |rows| && rows[i].key == raw.sourceKey.value && m.source == Some(rows[i].id) &&
                      forall j :: 0 <= j < |rows| && rows[j].key == raw.sourceKey.value ==> j == i)
  }

  predicate HasKind(rows: seq<ArtifactRow>, kind: string) {
    exists i :: 0 <= i < |rows| && rows[i].kind == kind
  }

  /** Artifacts of this attempt at pairwise distinct workspace keys, measured from
      their bytes, among them every required kind; and metrics attached to the
      artifacts they were read from. */
  ghost predicate Evidence(x: Scene, rows: seq<ArtifactRow>, metrics: seq<MetricRow>)
    requires x.report.Parsed?
  {
    && (forall i, j :: 0 <= i < j < |rows| ==> rows[i].key != rows[j].key && rows[i].id != rows[j].id)
    && (forall i :: 0 <= i < |rows| ==> RowSound(x, rows[i]))
    && (forall kind :: kind in x.expected && kind != "" ==> HasKind(rows, kind))
    && (forall k :: 0 <= k < |x.rules| && x.rules[k].required && x.rules[k].kind != "" ==> HasKind(rows, x.rules[k].kind))
    && |metrics| == |AllMetrics(x)|
    && (forall i :: 0 <= i < |metrics| ==> MetricSound(x, rows, AllMetrics(x)[i], metrics[i]))
  }

  /** What a success leaves behind. */
  lemma SuccessLeavesEvidence(x: Scene)
    requires Succeeds(x)
    ensures x.report.Parsed? && Evidence(x, Conclude(x).rows, Conclude(x).metrics)
  {
    SuccessIffEarned(x);
    var kept := Declared(x) + Collected(x.found.value, Declared(x));
    SuccessRecords(x, kept);
    KeptEvidence(x, kept, Conclude(x).rows, Conclude(x).metrics);
  }

  lemma KeptEvidence(x: Scene, kept: seq<Line>, rows: seq<ArtifactRow>, metrics: seq<MetricRow>)
    requires HonestReport(x) && Declared(x) <= kept
    requires Registered(x, kept) == Some(rows) && Attached(x, AllMetrics(x), rows) == Some(metrics)
    ensures Evidence(x, rows, metrics)
  {
    KeptRows(x, kept);
    forall kind | Produces(x.report.result.artifacts, kind) ensures HasKind(rows, kind) {
      ProducedIsKept(x, kept, rows, kind);
    }
    forall i | 0 <= i < |metrics| ensures MetricSound(x, rows, AllMetrics(x)[i], metrics[i]) {
      MetricIsSound(x, AllMetrics(x), rows, metrics, i);
    }
  }

  lemma ProducedIsKept(x: Scene, kept: seq<Line>, rows: seq<ArtifactRow>, kind: string)
    requires x.report.Parsed? && Declared(x) <= kept && Registered(x, kept) == Some(rows)
    requires Produces(x.report.result.artifacts, kind)
    ensures HasKind(rows, kind)
  {
    var i :| 0 <= i < |x.report.result.artifacts| && x.report.result.artifacts[i].kind == kind;
    assert Declared(x)[|x.own| + i].kind == kind;
    assert rows[|x.own| + i].kind == kind;
  }

  lemma SuccessRecords(x: Scene, kept: seq<Line>)
    requires Succeeds(x) && Earned(x) && kept == Declared(x) + Collected(x.found.value, Declared(x))
    ensures Registered(x, kept) == Some(Conclude(x).rows)
    ensures Attached(x, AllMetrics(x), Conclude(x).rows) == Some(Conclude(x).metrics)
  {
    ReportedSuccess(x);
    assert AllMetrics(x) == Execute(x).result.metrics + Evaluate(x, RunStatus.Succeeded).value.1;
  }

  lemma KeptRows(x: Scene, kept: seq<Line>)
    requires Registered(x, kept).Some?
    ensures var rows := Registered(x, kept).value;
            && |rows| == |kept|
            && (forall i, j :: 0 <= i < j < |rows| ==> rows[i].key != rows[j].key && rows[i].id != rows[j].id)
            && (forall i :: 0 <= i < |rows| ==> RowSound(x, rows[i]) && rows[i].kind == kept[i].kind)
  {
    forall i | 0 <= i < |kept| ensures Storable(x.files, kept[i]) { }
  }

  lemma MetricIsSound(x: Scene, raws: seq<RawMetric>, rows: seq<ArtifactRow>, metrics: seq<MetricRow>, k: nat)
    requires Attached(x, raws, rows) == Some(metrics) && k < |raws|
    requires forall i, j :: 0 <= i < j < |rows| ==> rows[i].key != rows[j].key
    ensures |metrics| == |raws| && MetricSound(x, rows, raws[k], metrics[k])
  {
    assert Traceable(rows, raws[k]);
    if raws[k].sourceKey.Some? {
      var key := raws[k].sourceKey.value;
      var i :| 0 <= i < |rows| && rows[i].key == key && rows[i].id == IdOf(rows, key).value;
      assert metrics[k].source == Some(rows[i].id);
    }
  }

  /** A protocol error -- an unreadable or contradictory report, or a declaration that
      does not check out -- is a failure with a non-zero exit code and no artifacts. */
  lemma ProtocolErrorsFail(x: Scene)
    requires var loaded := LoadResult(x.outcome, x.report);
             loaded.None? || !AllAcceptable(x.files, x.rules, loaded.value.artifacts, false)
    ensures Execute(x).result.status.Failed? && Execute(x).result.exitCode != 0 && Execute(x).lines == []
  {
  }
}
