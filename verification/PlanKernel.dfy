/** The plan executor composed with the kernel.  Submissions, kernel commits, replies
    and their recording are separate steps, any of which may be lost or repeated. */
module PlanKernel {
  import opened Contracts
  import opened Admission
  import opened Tables
  import opened Transactions
  import opened RunProtocol
  import opened Submissions
  import opened Plans

  function Key(planId: string, stepId: string): string {
    "plan:" + planId + ":step:" + stepId
  }

  /** Keys are injective because identifiers contain no colon. */
  lemma KeyIsInjective(p: string, s: string, q: string, t: string)
    requires Identifier(p) && Identifier(s) && Identifier(q) && Identifier(t)
    requires Key(p, s) == Key(q, t)
    ensures p == q && s == t
  {
    SameSplit(p, s, q, t);
    var k := Key(p, s);
    assert p == k[5..5 + |p|] == q;
    assert s == k[5 + |p| + 6..] == t;
  }

  /** The first colon behind "plan:" marks the end of the plan identifier. */
  lemma FirstColon(p: string, s: string)
    requires Identifier(p)
    ensures |Key(p, s)| > 5 + |p| && Key(p, s)[5 + |p|] == ':'
    ensures forall i :: 5 <= i < 5 + |p| ==> Key(p, s)[i] != ':'
  {
    assert forall i :: 5 <= i < 5 + |p| ==> Key(p, s)[i] == p[i - 5];
  }

  lemma SameSplit(p: string, s: string, q: string, t: string)
    requires Identifier(p) && Identifier(q) && Key(p, s) == Key(q, t)
    ensures |p| == |q|
  {
    FirstColon(p, s);
    FirstColon(q, t);
  }

  /** A kernel reply on its way back to the executor. */
  datatype InFlight = InFlight(planId: string, step: nat, run: nat)

  datatype World = World(kernel: State, plans: map<string, Plan>, replies: seq<InFlight>)

  datatype Event =
    | KernelActs(action: Action)                                    // anything, under any key
    | CreatePlan(planId: string, steps: seq<StepSpec>)
    | CallSubmit(planId: string, step: nat, catalog: Catalog, task: TaskSpec, pluginVersion: string,
                 resumable: bool, lost: bool)                       // the reply may be lost
    | RecordReply(reply: nat)                                       // possibly never, or twice
    | UpdatePlan(planId: string, write: Write)                      // any other write of the executor

  function KernelSubmission(w: World, e: Event): Submission
    requires e.CallSubmit? && e.planId in w.plans && e.step < |w.plans[e.planId].steps|
  {
    Submission(e.task, e.pluginVersion, true,
               Some(Key(e.planId, w.plans[e.planId].steps[e.step].spec.stepId)), e.resumable)
  }

  function Happen(config: Config, w: World, e: Event): World
    requires config.Valid()
  {
    match e
    case KernelActs(action) => w.(kernel := Step(config, w.kernel, action))
    case CreatePlan(planId, steps) =>
      if ValidPlan(planId, steps) && planId !in w.plans
      then w.(plans := w.plans[planId := NewPlan(planId, steps)]) else w
    case CallSubmit(planId, step, catalog, task, version, resumable, lost) =>
      if planId in w.plans && step < |w.plans[planId].steps| then
        var submission := KernelSubmission(w, e);
        var t := SubmitRun(w.kernel.db, catalog, submission);
        var kernel := Step(config, w.kernel, Submit(catalog, submission));
        if t.Committed? && !lost
        then w.(kernel := kernel, replies := w.replies + [InFlight(planId, step, t.value)])
        else w.(kernel := kernel)
      else w
    case RecordReply(i) =>
      if i < |w.replies| && w.replies[i].planId in w.plans then
        var r := w.replies[i];
        w.(plans := w.plans[r.planId := Write1(w.plans[r.planId], Submitted(r.step, r.run))])
      else w
    case UpdatePlan(planId, write) =>
      if planId in w.plans && !write.Submitted?
      then w.(plans := w.plans[planId := Write1(w.plans[planId], write)]) else w
  }

  function Unfold(config: Config, events: seq<Event>): World
    requires config.Valid()
  {
    if events == [] then World(START, map[], [])
    else Happen(config, Unfold(config, events[..|events| - 1]), events[|events| - 1])
  }

  /** The kernel run `r` was created for step `i` of plan `p`. */
  ghost predicate MadeFor(w: World, p: string, i: nat, r: nat) {
    && p in w.plans && i < |w.plans[p].steps|
    && r < |w.kernel.db.runs|
    && w.kernel.db.runs[r].key == Some(Key(p, w.plans[p].steps[i].spec.stepId))
  }

  ghost predicate GoodPlan(w: World, p: string)
    requires p in w.plans
  {
    var plan := w.plans[p];
    && Identifier(p)
    && (forall i :: 0 <= i < |plan.steps| ==> Identifier(plan.steps[i].spec.stepId))
    && (forall i, j :: 0 <= i < j < |plan.steps| ==> plan.steps[i].spec.stepId != plan.steps[j].spec.stepId)
    && (forall i :: 0 <= i < |plan.steps| && plan.steps[i].runId.Some? ==> MadeFor(w, p, i, plan.steps[i].runId.value))
  }

  ghost predicate Linked(w: World) {
    && KeysUnique(w.kernel.db)
    && (forall p :: p in w.plans ==> GoodPlan(w, p))
    && (forall i :: 0 <= i < |w.replies| ==> MadeFor(w, w.replies[i].planId, w.replies[i].step, w.replies[i].run))
  }

  /** What a kernel step cannot undo. */
  lemma KernelKeepsLinks(w: World, kernel: State)
    requires Linked(w) && Remembers(w.kernel.db, kernel.db) && KeysUnique(kernel.db)
    ensures Linked(w.(kernel := kernel))
  {
    var w' := w.(kernel := kernel);
    forall p | p in w'.plans ensures GoodPlan(w', p) {
      assert GoodPlan(w, p);
      forall i | 0 <= i < |w.plans[p].steps| && w.plans[p].steps[i].runId.Some?
        ensures MadeFor(w', p, i, w.plans[p].steps[i].runId.value)
      {
        assert MadeFor(w, p, i, w.plans[p].steps[i].runId.value);
      }
    }
    forall i | 0 <= i < |w'.replies|
      ensures MadeFor(w', w'.replies[i].planId, w'.replies[i].step, w'.replies[i].run)
    {
      assert MadeFor(w, w.replies[i].planId, w.replies[i].step, w.replies[i].run);
    }
  }

  /** Replacing one plan by a version with the same step identifiers. */
  lemma PlanKeepsLinks(w: World, p: string, plan: Plan)
    requires Linked(w)
    requires p in w.plans ==>
               && |plan.steps| == |w.plans[p].steps|
               && forall i :: 0 <= i < |plan.steps| ==> plan.steps[i].spec == w.plans[p].steps[i].spec
    requires GoodPlan(w.(plans := w.plans[p := plan]), p)
    ensures Linked(w.(plans := w.plans[p := plan]))
  {
    var w' := w.(plans := w.plans[p := plan]);
    forall q | q in w'.plans ensures GoodPlan(w', q) {
      if q != p {
        assert GoodPlan(w, q);
        forall i | 0 <= i < |w.plans[q].steps| && w.plans[q].steps[i].runId.Some?
          ensures MadeFor(w', q, i, w.plans[q].steps[i].runId.value)
        {
          assert MadeFor(w, q, i, w.plans[q].steps[i].runId.value);
        }
      }
    }
    forall i | 0 <= i < |w'.replies|
      ensures MadeFor(w', w'.replies[i].planId, w'.replies[i].step, w'.replies[i].run)
    {
      assert MadeFor(w, w.replies[i].planId, w.replies[i].step, w.replies[i].run);
    }
  }

  lemma CreateKeepsLinks(w: World, planId: string, steps: seq<StepSpec>)
    requires Linked(w) && ValidPlan(planId, steps) && planId !in w.plans
    ensures Linked(w.(plans := w.plans[planId := NewPlan(planId, steps)]))
  {
    var plan := NewPlan(planId, steps);
    forall i | 0 <= i < |steps| ensures Identifier(steps[i].stepId) { assert ValidStep(steps, i); }
    forall i, j | 0 <= i < j < |steps| ensures steps[i].stepId != steps[j].stepId { assert ValidStep(steps, j); }
    PlanKeepsLinks(w, planId, plan);
  }

  lemma UpdateKeepsLinks(w: World, p: string, write: Write)
    requires Linked(w) && p in w.plans && GoodPlan(w, p)
    requires write.Submitted? ==> MadeFor(w, p, write.step, write.run)
    ensures Linked(w.(plans := w.plans[p := Write1(w.plans[p], write)]))
  {
    var plan := Write1(w.plans[p], write);
    var w' := w.(plans := w.plans[p := plan]);
    forall i | 0 <= i < |plan.steps| && plan.steps[i].runId.Some? ensures MadeFor(w', p, i, plan.steps[i].runId.value) {
      assert (write.Submitted? && write.step == i) || plan.steps[i].runId == w.plans[p].steps[i].runId;
    }
    PlanKeepsLinks(w, p, plan);
  }

  lemma CallKeepsLinks(config: Config, w: World, e: Event)
    requires config.Valid() && Linked(w) && e.CallSubmit?
    ensures Linked(Happen(config, w, e))
  {
    if e.planId in w.plans && e.step < |w.plans[e.planId].steps| {
      var submission := KernelSubmission(w, e);
      var t := SubmitRun(w.kernel.db, e.catalog, submission);
      var kernel := Step(config, w.kernel, Submit(e.catalog, submission));
      StepRemembers(config, w.kernel, Submit(e.catalog, submission));
      StepKeepsKeysUnique(config, w.kernel, Submit(e.catalog, submission));
      KernelKeepsLinks(w, kernel);
      var w' := w.(kernel := kernel);
      if t.Committed? && !e.lost {
        KeyedSubmissionReturnsItsRun(w.kernel.db, e.catalog, submission);
        ReplyKeepsLinks(w', InFlight(e.planId, e.step, t.value));
      }
    }
  }

  lemma ReplyKeepsLinks(w: World, r: InFlight)
    requires Linked(w) && MadeFor(w, r.planId, r.step, r.run)
    ensures Linked(w.(replies := w.replies + [r]))
  {
    var w' := w.(replies := w.replies + [r]);
    forall p | p in w'.plans ensures GoodPlan(w', p) {
      assert GoodPlan(w, p);
      forall i | 0 <= i < |w.plans[p].steps| && w.plans[p].steps[i].runId.Some?
        ensures MadeFor(w', p, i, w.plans[p].steps[i].runId.value)
      {
        assert MadeFor(w, p, i, w.plans[p].steps[i].runId.value);
      }
    }
    forall i | 0 <= i < |w'.replies|
      ensures MadeFor(w', w'.replies[i].planId, w'.replies[i].step, w'.replies[i].run)
    {
      if i < |w.replies| { assert MadeFor(w, w.replies[i].planId, w.replies[i].step, w.replies[i].run); }
    }
  }

  lemma HappenKeepsLinks(config: Config, w: World, e: Event)
    requires config.Valid() && Linked(w)
    ensures Linked(Happen(config, w, e))
  {
    match e
    case KernelActs(action) =>
      StepRemembers(config, w.kernel, action);
      StepKeepsKeysUnique(config, w.kernel, action);
      KernelKeepsLinks(w, Step(config, w.kernel, action));
    case CreatePlan(planId, steps) =>
      if ValidPlan(planId, steps) && planId !in w.plans { CreateKeepsLinks(w, planId, steps); }
    case CallSubmit(_, _, _, _, _, _, _) => CallKeepsLinks(config, w, e);
    case RecordReply(i) =>
      if i < |w.replies| {
        var r := w.replies[i];
        assert MadeFor(w, r.planId, r.step, r.run);
        UpdateKeepsLinks(w, r.planId, Submitted(r.step, r.run));
      }
    case UpdatePlan(planId, write) =>
      if planId in w.plans && !write.Submitted? { UpdateKeepsLinks(w, planId, write); }
  }

  lemma {:induction false} WorldsAreLinked(config: Config, events: seq<Event>)
    requires config.Valid()
    ensures Linked(Unfold(config, events))
  {
    if events != [] {
      WorldsAreLinked(config, events[..|events| - 1]);
      HappenKeepsLinks(config, Unfold(config, events[..|events| - 1]), events[|events| - 1]);
    }
  }

  /** The kernel runs created for one step of one plan. */
  ghost function RunsFor(w: World, planId: string, stepId: string): set<nat> {
    set r | 0 <= r < |w.kernel.db.runs| && w.kernel.db.runs[r].key == Some(Key(planId, stepId))
  }

  /** Any sequence of executor crashes, kernel outages, lost replies and resubmissions
      creates at most one kernel run per plan and step; a step only ever holds that
      run, and no two steps of any plans share one. */
  lemma OneRunPerStep(config: Config, events: seq<Event>, planId: string, stepId: string)
    requires config.Valid()
    ensures var w := Unfold(config, events);
            && |RunsFor(w, planId, stepId)| <= 1
            && (forall p, i, q, j ::
                  p in w.plans && q in w.plans && 0 <= i < |w.plans[p].steps| && 0 <= j < |w.plans[q].steps| &&
                  w.plans[p].steps[i].runId.Some? && w.plans[p].steps[i].runId == w.plans[q].steps[j].runId
                  ==> p == q && i == j)
  {
    var w := Unfold(config, events);
    WorldsAreLinked(config, events);
    var runs := RunsFor(w, planId, stepId);
    if r :| r in runs {
      assert runs == {r};
    }
    forall p, i, q, j |
      p in w.plans && q in w.plans && 0 <= i < |w.plans[p].steps| && 0 <= j < |w.plans[q].steps| &&
      w.plans[p].steps[i].runId.Some? && w.plans[p].steps[i].runId == w.plans[q].steps[j].runId
      ensures p == q && i == j
    {
      DistinctStepsDistinctRuns(w, p, i, q, j);
    }
  }

  lemma DistinctStepsDistinctRuns(w: World, p: string, i: nat, q: string, j: nat)
    requires Linked(w) && p in w.plans && q in w.plans && i < |w.plans[p].steps| && j < |w.plans[q].steps|
    requires w.plans[p].steps[i].runId.Some? && w.plans[p].steps[i].runId == w.plans[q].steps[j].runId
    ensures p == q && i == j
  {
    assert GoodPlan(w, p) && GoodPlan(w, q);
    var r := w.plans[p].steps[i].runId.value;
    assert MadeFor(w, p, i, r) && MadeFor(w, q, j, r);
    KeyIsInjective(p, w.plans[p].steps[i].spec.stepId, q, w.plans[q].steps[j].spec.stepId);
  }
}
