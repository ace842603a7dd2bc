/** How a step consumes what earlier steps produced: each binding names one artifact of
    one earlier step, and the task is submitted with it staged. */
module PlanBindings {
  import opened Contracts
  import opened Plans
  import opened PlanTheorems

  datatype ArtifactView = ArtifactView(artifactId: string, kind: string, metadata: map<string, string>)

  predicate Matches(b: Binding, a: ArtifactView) {
    a.kind == b.artifactKind && forall k :: k in b.selector ==> k in a.metadata && a.metadata[k] == b.selector[k]
  }

  function Matching(b: Binding, artifacts: seq<ArtifactView>): (ms: seq<ArtifactView>)
    ensures forall m :: m in ms <==> m in artifacts && Matches(b, m)
  {
    if artifacts == [] then []
    else
      Matching(b, artifacts[..|artifacts| - 1]) +
      (if Matches(b, artifacts[|artifacts| - 1]) then [artifacts[|artifacts| - 1]] else [])
  }

  /** The step a binding names. */
  function StepNamed(plan: Plan, id: string, n: nat): (r: Option<nat>)
    requires n <= |plan.steps|
    ensures r.Some? ==> r.value < n && plan.steps[r.value].spec.stepId == id
    ensures r.None? ==> forall i :: 0 <= i < n ==> plan.steps[i].spec.stepId != id
  {
    if n == 0 then None
    else if plan.steps[n - 1].spec.stepId == id then Some(n - 1) else StepNamed(plan, id, n - 1)
  }

  /** What the first `n` bindings of step `p` match in the artifacts of their source runs. */
  function BoundInputs(plan: Plan, p: nat, artifacts: nat -> seq<ArtifactView>, n: nat): Option<seq<InputFile>>
    requires p < |plan.steps| && n <= |plan.steps[p].spec.bindings|
  {
    if n == 0 then Some([])
    else
      var before := BoundInputs(plan, p, artifacts, n - 1);
      var b := plan.steps[p].spec.bindings[n - 1];
      var source := StepNamed(plan, b.fromStep, |plan.steps|);
      if before.None? || source.None? || plan.steps[source.value].runId.None? then None
      else
        var ms := Matching(b, artifacts(plan.steps[source.value].runId.value));
        if |ms| != 1 then None
        else Some(before.value + [InputFile(b.destination, ArtifactRef(ms[0].artifactId), true)])
  }

  /** Go through the bindings of the next step.  No binding ever misses its source step or
      that step's run. */
  method StageBindings(plan: Plan, p: nat, artifacts: nat -> seq<ArtifactView>) returns (bound: Option<seq<InputFile>>)
    requires ValidPlan(plan.planId, Specs(plan)) && InOrder(plan) && p == NextStep(plan, 0) < |plan.steps|
    ensures bound == BoundInputs(plan, p, artifacts, |plan.steps[p].spec.bindings|)
  {
    var bindings := plan.steps[p].spec.bindings;
    var staged: seq<InputFile> := [];
    for k := 0 to |bindings|
      invariant BoundInputs(plan, p, artifacts, k) == Some(staged)
    {
      var b := bindings[k];
      BindingsResolve(plan, b);
      var source := StepNamed(plan, b.fromStep, |plan.steps|);
      UniqueSource(plan, b.fromStep, source.value);
      var ms := Matching(b, artifacts(plan.steps[source.value].runId.value));
      if |ms| != 1 {
        NoLaterBound(plan, p, artifacts, k + 1, |bindings|);
        return None;
      }
      staged := staged + [InputFile(b.destination, ArtifactRef(ms[0].artifactId), true)];
    }
    return Some(staged);
  }

  /** The task of the next step with its bound artifacts staged behind its own inputs,
      or nothing when some binding does not match exactly one artifact. */
  method TaskFor(plan: Plan, artifacts: nat -> seq<ArtifactView>) returns (task: Option<TaskSpec>)
    requires ValidPlan(plan.planId, Specs(plan)) && InOrder(plan) && NextStep(plan, 0) < |plan.steps|
    ensures var step := plan.steps[NextStep(plan, 0)].spec;
            && (task.Some? <==> AllResolve(plan, step.bindings, artifacts, |step.bindings|))
            && (task.Some? ==> Stages(plan, step, artifacts, task.value))
  {
    var p := NextStep(plan, 0);
    var step := plan.steps[p].spec;
    var bound := StageBindings(plan, p, artifacts);
    BindingsOutcome(plan, p, artifacts, |step.bindings|, bound);
    if bound.None? { return None; }
    task := Some(step.task.(stagedInputs := step.task.stagedInputs + bound.value));
    StagedInOrder(plan, step, artifacts, bound.value, task.value);
  }

  lemma {:induction false} NoLaterBound(plan: Plan, p: nat, artifacts: nat -> seq<ArtifactView>, m: nat, n: nat)
    requires p < |plan.steps| && m <= n <= |plan.steps[p].spec.bindings|
    requires BoundInputs(plan, p, artifacts, m).None?
    ensures BoundInputs(plan, p, artifacts, n).None?
  {
    if m < n { NoLaterBound(plan, p, artifacts, m, n - 1); }
  }

  /** Step identifiers are distinct, so the name finds the succeeded earlier step. */
  lemma UniqueSource(plan: Plan, id: string, j: nat)
    requires ValidPlan(plan.planId, Specs(plan))
    requires j < |plan.steps| && plan.steps[j].spec.stepId == id
    requires exists i :: 0 <= i < NextStep(plan, 0) && plan.steps[i].spec.stepId == id &&
                         plan.steps[i].status.Succeeded? && plan.steps[i].runId.Some?
    ensures plan.steps[j].runId.Some? && plan.steps[j].status.Succeeded?
  {
    var i :| 0 <= i < NextStep(plan, 0) && plan.steps[i].spec.stepId == id &&
             plan.steps[i].status.Succeeded? && plan.steps[i].runId.Some?;
    assert ValidStep(Specs(plan), i) && ValidStep(Specs(plan), j);
    assert Specs(plan)[i].stepId == Specs(plan)[j].stepId;
  }

  // ---- what a binding stages, told from the artifacts -------------------------------

  /** Artifact `i` is the one of its run with the binding's kind and every metadata value
      the binding selects. */
  ghost predicate OnlyMatch(b: Binding, artifacts: seq<ArtifactView>, i: nat) {
    && i < |artifacts|
    && forall m :: 0 <= m < |artifacts| ==>
         (m == i <==> && artifacts[m].kind == b.artifactKind
                      && forall key :: key in b.selector ==> (key, b.selector[key]) in artifacts[m].metadata.Items)
  }

  /** `f` stages the one match among the artifacts of the run of the step the binding
      names. */
  ghost predicate Bound(plan: Plan, b: Binding, artifacts: nat -> seq<ArtifactView>, f: InputFile) {
    exists j: nat, i: nat ::
      && j < |plan.steps| && plan.steps[j].spec.stepId == b.fromStep && plan.steps[j].runId.Some?
      && OnlyMatch(b, artifacts(plan.steps[j].runId.value), i)
      && f == InputFile(b.destination, ArtifactRef(artifacts(plan.steps[j].runId.value)[i].artifactId), true)
  }

  ghost predicate Resolves(plan: Plan, b: Binding, artifacts: nat -> seq<ArtifactView>) {
    exists f :: Bound(plan, b, artifacts, f)
  }

  /** Each of the first `n` bindings has its one match. */
  ghost predicate AllResolve(plan: Plan, bindings: seq<Binding>, artifacts: nat -> seq<ArtifactView>, n: nat)
    requires n <= |bindings|
  {
    forall k :: 0 <= k < n ==> Resolves(plan, bindings[k], artifacts)
  }

  ghost predicate AllBound(plan: Plan, bindings: seq<Binding>, artifacts: nat -> seq<ArtifactView>, files: seq<InputFile>)
    requires |files| <= |bindings|
  {
    forall k :: 0 <= k < |files| ==> Bound(plan, bindings[k], artifacts, files[k])
  }

  /** The step's own task with one more input for each binding, in order. */
  ghost predicate Stages(plan: Plan, step: StepSpec, artifacts: nat -> seq<ArtifactView>, task: TaskSpec) {
    var own := step.task.stagedInputs;
    && task == step.task.(stagedInputs := task.stagedInputs)
    && |task.stagedInputs| == |own| + |step.bindings|
    && (forall i :: 0 <= i < |own| ==> task.stagedInputs[i] == own[i])
    && (forall k :: 0 <= k < |step.bindings| ==>
          Bound(plan, step.bindings[k], artifacts, task.stagedInputs[|own| + k]))
  }

  lemma StagedInOrder(plan: Plan, step: StepSpec, artifacts: nat -> seq<ArtifactView>, files: seq<InputFile>, task: TaskSpec)
    requires |files| == |step.bindings| && AllBound(plan, step.bindings, artifacts, files)
    requires task == step.task.(stagedInputs := step.task.stagedInputs + files)
    ensures Stages(plan, step, artifacts, task)
  {
    forall k | 0 <= k < |step.bindings|
      ensures Bound(plan, step.bindings[k], artifacts, task.stagedInputs[|step.task.stagedInputs| + k])
    {
      assert task.stagedInputs[|step.task.stagedInputs| + k] == files[k];
    }
  }

  lemma MatchesIff(b: Binding, a: ArtifactView)
    ensures Matches(b, a) <==>
            a.kind == b.artifactKind && forall key :: key in b.selector ==> (key, b.selector[key]) in a.metadata.Items
  {
  }

  lemma {:induction false} NoMatch(b: Binding, artifacts: seq<ArtifactView>)
    requires forall m :: 0 <= m < |artifacts| ==> !Matches(b, artifacts[m])
    ensures Matching(b, artifacts) == []
  {
    if artifacts != [] { NoMatch(b, artifacts[..|artifacts| - 1]); }
  }

  lemma {:induction false} MatchAt(b: Binding, artifacts: seq<ArtifactView>, i: nat)
    requires i < |artifacts| && forall m :: 0 <= m < |artifacts| ==> (Matches(b, artifacts[m]) <==> m == i)
    ensures Matching(b, artifacts) == [artifacts[i]]
  {
    var before := artifacts[..|artifacts| - 1];
    if i < |before| { MatchAt(b, before, i); } else { NoMatch(b, before); }
  }

  lemma EmptyMatch(b: Binding, artifacts: seq<ArtifactView>)
    requires Matching(b, artifacts) == []
    ensures forall m :: 0 <= m < |artifacts| ==> !Matches(b, artifacts[m])
  {
    forall m | 0 <= m < |artifacts| ensures !Matches(b, artifacts[m]) {
      assert artifacts[m] in artifacts && artifacts[m] !in Matching(b, artifacts);
    }
  }

  lemma {:induction false} MatchFound(b: Binding, artifacts: seq<ArtifactView>) returns (i: nat)
    requires |Matching(b, artifacts)| == 1
    ensures i < |artifacts| && forall m :: 0 <= m < |artifacts| ==> (Matches(b, artifacts[m]) <==> m == i)
  {
    var before := artifacts[..|artifacts| - 1];
    if Matches(b, artifacts[|artifacts| - 1]) {
      EmptyMatch(b, before);
      i := |before|;
    } else {
      i := MatchFound(b, before);
    }
    assert forall m :: 0 <= m < |before| ==> artifacts[m] == before[m];
  }

  lemma OnlyMatchIff(b: Binding, artifacts: seq<ArtifactView>, i: nat)
    requires i < |artifacts|
    ensures OnlyMatch(b, artifacts, i) <==> forall m :: 0 <= m < |artifacts| ==> (Matches(b, artifacts[m]) <==> m == i)
  {
    forall m | 0 <= m < |artifacts|
      ensures Matches(b, artifacts[m]) <==>
              && artifacts[m].kind == b.artifactKind
              && forall key :: key in b.selector ==> (key, b.selector[key]) in artifacts[m].metadata.Items
    {
      MatchesIff(b, artifacts[m]);
    }
  }

  /** The filter leaves one artifact if and only if one position matches, and that one. */
  lemma OneMatch(b: Binding, artifacts: seq<ArtifactView>)
    ensures |Matching(b, artifacts)| == 1 <==> exists i: nat :: OnlyMatch(b, artifacts, i)
    ensures forall i: nat :: OnlyMatch(b, artifacts, i) ==> Matching(b, artifacts) == [artifacts[i]]
  {
    if |Matching(b, artifacts)| == 1 {
      var i := MatchFound(b, artifacts);
      OnlyMatchIff(b, artifacts, i);
    }
    forall i: nat | OnlyMatch(b, artifacts, i) ensures Matching(b, artifacts) == [artifacts[i]] {
      OnlyMatchIff(b, artifacts, i);
      MatchAt(b, artifacts, i);
    }
  }

  /** One binding: it resolves if and only if its source holds a run with one match. */
  lemma BindingOutcome(plan: Plan, b: Binding, artifacts: nat -> seq<ArtifactView>, j: nat)
    requires ValidPlan(plan.planId, Specs(plan)) && j < |plan.steps| && plan.steps[j].spec.stepId == b.fromStep
    requires StepNamed(plan, b.fromStep, |plan.steps|) == Some(j)
    ensures Resolves(plan, b, artifacts) <==>
            plan.steps[j].runId.Some? && |Matching(b, artifacts(plan.steps[j].runId.value))| == 1
    ensures Resolves(plan, b, artifacts) ==>
            Bound(plan, b, artifacts,
                  InputFile(b.destination,
                            ArtifactRef(Matching(b, artifacts(plan.steps[j].runId.value))[0].artifactId), true))
  {
    if Resolves(plan, b, artifacts) {
      var f :| Bound(plan, b, artifacts, f);
      var j2: nat, i: nat :|
        && j2 < |plan.steps| && plan.steps[j2].spec.stepId == b.fromStep && plan.steps[j2].runId.Some?
        && OnlyMatch(b, artifacts(plan.steps[j2].runId.value), i)
        && f == InputFile(b.destination, ArtifactRef(artifacts(plan.steps[j2].runId.value)[i].artifactId), true);
      SameStep(plan, j, j2);
      OneMatch(b, artifacts(plan.steps[j].runId.value));
    }
    if plan.steps[j].runId.Some? && |Matching(b, artifacts(plan.steps[j].runId.value))| == 1 {
      OneMatch(b, artifacts(plan.steps[j].runId.value));
      var i: nat :| OnlyMatch(b, artifacts(plan.steps[j].runId.value), i);
      assert Bound(plan, b, artifacts,
                   InputFile(b.destination, ArtifactRef(artifacts(plan.steps[j].runId.value)[i].artifactId), true));
    }
  }

  lemma SameStep(plan: Plan, i: nat, j: nat)
    requires ValidPlan(plan.planId, Specs(plan)) && i < |plan.steps| && j < |plan.steps|
    requires plan.steps[i].spec.stepId == plan.steps[j].spec.stepId
    ensures i == j
  {
    assert ValidStep(Specs(plan), i) && ValidStep(Specs(plan), j);
    assert Specs(plan)[i].stepId == Specs(plan)[j].stepId;
  }

  /** One more binding. */
  lemma BoundStep(plan: Plan, p: nat, artifacts: nat -> seq<ArtifactView>, n: nat, b: Binding,
                  before: Option<seq<InputFile>>, bound: Option<seq<InputFile>>)
    requires ValidPlan(plan.planId, Specs(plan)) && p < |plan.steps| && 0 < n <= |plan.steps[p].spec.bindings|
    requires b == plan.steps[p].spec.bindings[n - 1] && before == BoundInputs(plan, p, artifacts, n - 1)
    requires bound == BoundInputs(plan, p, artifacts, n)
    ensures bound.Some? <==> before.Some? && Resolves(plan, b, artifacts)
    ensures bound.Some? ==> exists f :: Bound(plan, b, artifacts, f) && bound.value == before.value + [f]
  {
    var source := StepNamed(plan, b.fromStep, |plan.steps|);
    if source.Some? { BindingOutcome(plan, b, artifacts, source.value); }
  }

  lemma OneMoreBound(plan: Plan, bindings: seq<Binding>, artifacts: nat -> seq<ArtifactView>, n: nat,
                     before: Option<seq<InputFile>>, bound: Option<seq<InputFile>>)
    requires 0 < n <= |bindings|
    requires before.Some? <==> AllResolve(plan, bindings, artifacts, n - 1)
    requires before.Some? ==> |before.value| == n - 1 && AllBound(plan, bindings, artifacts, before.value)
    requires bound.Some? <==> before.Some? && Resolves(plan, bindings[n - 1], artifacts)
    requires bound.Some? ==> exists f :: Bound(plan, bindings[n - 1], artifacts, f) && bound.value == before.value + [f]
    ensures bound.Some? <==> AllResolve(plan, bindings, artifacts, n)
    ensures bound.Some? ==> |bound.value| == n && AllBound(plan, bindings, artifacts, bound.value)
  {
    if bound.Some? {
      var f :| Bound(plan, bindings[n - 1], artifacts, f) && bound.value == before.value + [f];
    }
  }

  /** The first `n` bindings together. */
  lemma {:induction false} BindingsOutcome(plan: Plan, p: nat, artifacts: nat -> seq<ArtifactView>, n: nat,
                                           bound: Option<seq<InputFile>>)
    requires ValidPlan(plan.planId, Specs(plan)) && p < |plan.steps| && n <= |plan.steps[p].spec.bindings|
    requires bound == BoundInputs(plan, p, artifacts, n)
    ensures bound.Some? <==> AllResolve(plan, plan.steps[p].spec.bindings, artifacts, n)
    ensures bound.Some? ==> |bound.value| == n && AllBound(plan, plan.steps[p].spec.bindings, artifacts, bound.value)
  {
    if n > 0 {
      var before := BoundInputs(plan, p, artifacts, n - 1);
      BindingsOutcome(plan, p, artifacts, n - 1, before);
      BoundStep(plan, p, artifacts, n, plan.steps[p].spec.bindings[n - 1], before, bound);
      OneMoreBound(plan, plan.steps[p].spec.bindings, artifacts, n, before, bound);
    }
  }
}
