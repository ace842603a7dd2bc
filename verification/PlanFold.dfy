/** A plan's execution refines a sequential fold over its steps' outcomes. */
module PlanFold {
  import opened Contracts
  import opened Plans
  import opened PlanTheorems

  /** Run the steps in order, stop at the first that did not succeed. */
  function Fold(outcomes: seq<RunStatus>): RunStatus {
    if outcomes == [] then RunStatus.Succeeded
    else if outcomes[0].Succeeded? then Fold(outcomes[1..]) else outcomes[0]
  }

  /** The first outcome that is not a success; the length when there is none. */
  function FirstBad(outcomes: seq<RunStatus>, i: nat): (b: nat)
    requires i <= |outcomes|
    ensures i <= b <= |outcomes| && (forall j :: i <= j < b ==> outcomes[j].Succeeded?)
    ensures b < |outcomes| ==> !outcomes[b].Succeeded?
    decreases |outcomes| - i
  {
    if i == |outcomes| || !outcomes[i].Succeeded? then i else FirstBad(outcomes, i + 1)
  }

  lemma {:induction false} FoldStopsAtFirstBad(outcomes: seq<RunStatus>, b: nat)
    requires b <= |outcomes| && (forall j :: 0 <= j < b ==> outcomes[j].Succeeded?)
    requires b < |outcomes| ==> !outcomes[b].Succeeded?
    ensures Fold(outcomes) == if b == |outcomes| then RunStatus.Succeeded else outcomes[b]
  {
    if b != 0 { FoldStopsAtFirstBad(outcomes[1..], b - 1); }
  }

  /** The kernel's side of a plan: the run each step gets and how that run ends. */
  datatype Script = Script(runs: seq<nat>, outcomes: seq<RunStatus>)
  {
    predicate For(plan: Plan) {
      && |runs| == |outcomes| == |plan.steps|
      && forall i :: 0 <= i < |outcomes| ==> Terminal(outcomes[i])
    }
  }

  /** A plan on its way: the prefix ran and succeeded as scripted, nothing beyond. */
  predicate Underway(plan: Plan, script: Script) {
    && script.For(plan) && InOrder(plan)
    && (plan.status.Queued? || plan.status.Running? || plan.status.RetryWait?)
    && (var p := NextStep(plan, 0);
        && (forall i :: 0 <= i < p ==> script.outcomes[i].Succeeded? && plan.steps[i].runId == Some(script.runs[i]))
        && (p < |plan.steps| && plan.steps[p].runId.Some? ==> plan.steps[p].runId == Some(script.runs[p])))
  }

  /** A plan that ended as the fold says: up to and including the first failing step
      everything ran as scripted, and nothing later was ever submitted. */
  predicate EndedAsFolded(plan: Plan, script: Script) {
    && script.For(plan) && plan.status == Fold(script.outcomes)
    && (var b := FirstBad(script.outcomes, 0);
        && (forall i :: 0 <= i < b ==> plan.steps[i].status.Succeeded? && plan.steps[i].runId == Some(script.runs[i]))
        && (b < |plan.steps| ==> plan.steps[b].status == script.outcomes[b] && plan.steps[b].runId == Some(script.runs[b]))
        && (forall i :: b < i < |plan.steps| ==> plan.steps[i].runId.None?))
  }

  /** The kernel answers as scripted, answers that a run is still active, or is away. */
  predicate Agrees(plan: Plan, script: Script, k: Answers)
    requires script.For(plan)
  {
    var p := NextStep(plan, 0);
    && (k.bound == Got(true) || k.bound.Unavailable?)
    && (k.submit.Unavailable? || (p < |plan.steps| ==> k.submit == Got(script.runs[p])))
    && (k.status.Unavailable? ||
        (k.status.Got? && (!Terminal(k.status.value) || (p < |plan.steps| ==> k.status.value == script.outcomes[p]))))
    && !k.submit.RefusedCall?
  }

  lemma FirstBadIs(outcomes: seq<RunStatus>, b: nat)
    requires b <= |outcomes| && (forall j :: 0 <= j < b ==> outcomes[j].Succeeded?)
    requires b < |outcomes| ==> !outcomes[b].Succeeded?
    ensures FirstBad(outcomes, 0) == b
  {
  }

  lemma WaitingStaysUnderway(plan: Plan, script: Script, status: RunStatus)
    requires Underway(plan, script)
    ensures Underway(Write1(plan, SetPlan(RetryWait)), script)
    ensures NextStep(plan, 0) < |plan.steps| && !Terminal(status) ==>
            Underway(Write1(plan, SetStep(NextStep(plan, 0), status)), script)
  {
    var p := NextStep(plan, 0);
    NextStepIs(Write1(plan, SetPlan(RetryWait)), p);
    if p < |plan.steps| && !Terminal(status) { NextStepIs(Write1(plan, SetStep(p, status)), p); }
  }

  lemma SubmissionStaysUnderway(plan: Plan, script: Script)
    requires Underway(plan, script) && NextStep(plan, 0) < |plan.steps|
    ensures Underway(Write1(plan, Submitted(NextStep(plan, 0), script.runs[NextStep(plan, 0)])), script)
  {
    var p := NextStep(plan, 0);
    NextStepIs(Write1(plan, Submitted(p, script.runs[p])), p);
  }

  lemma SuccessMovesOn(plan: Plan, script: Script)
    requires Underway(plan, script) && NextStep(plan, 0) < |plan.steps|
    requires plan.steps[NextStep(plan, 0)].runId.Some? && script.outcomes[NextStep(plan, 0)].Succeeded?
    ensures var p := NextStep(plan, 0);
            var plan1 := Write1(plan, SetStep(p, RunStatus.Succeeded));
            && Underway(plan1, script) && NextStep(plan1, 0) == p + 1
            && (OthersSucceeded(plan, p) <==> p + 1 == |plan.steps|)
            && (OthersSucceeded(plan, p) ==> EndedAsFolded(Write1(plan1, SetPlan(RunStatus.Succeeded)), script))
  {
    var p := NextStep(plan, 0);
    NextStepIs(Write1(plan, SetStep(p, RunStatus.Succeeded)), p + 1);
    if p + 1 < |plan.steps| { assert !plan.steps[p + 1].status.Succeeded?; }
    if p + 1 == |plan.steps| {
      FoldStopsAtFirstBad(script.outcomes, p + 1);
      FirstBadIs(script.outcomes, p + 1);
    }
  }

  lemma FailureEnds(plan: Plan, script: Script)
    requires Underway(plan, script) && NextStep(plan, 0) < |plan.steps|
    requires plan.steps[NextStep(plan, 0)].runId.Some? && !script.outcomes[NextStep(plan, 0)].Succeeded?
    ensures var p := NextStep(plan, 0);
            EndedAsFolded(Write1(Write1(plan, SetStep(p, script.outcomes[p])), SetPlan(script.outcomes[p])), script)
  {
    FoldStopsAtFirstBad(script.outcomes, NextStep(plan, 0));
    FirstBadIs(script.outcomes, NextStep(plan, 0));
  }

  /** Whatever agreeing answers arrive, an advance leaves the plan underway or ended
      exactly as folded. */
  lemma AgreeingAdvance(plan: Plan, script: Script, k: Answers)
    requires Underway(plan, script) && Agrees(plan, script, k)
    ensures var plan' := Advance(plan, k);
            Underway(plan', script) || EndedAsFolded(plan', script)
  {
    var p, ws := NextStep(plan, 0), Writes(plan, k);
    ShortEffect(plan, ws);
    if p == |plan.steps| {
      FoldStopsAtFirstBad(script.outcomes, p);
      FirstBadIs(script.outcomes, p);
    } else if ws == POSTPONE {
      WaitingStaysUnderway(plan, script, Queued);
    } else if plan.steps[p].runId.None? {
      SubmissionStaysUnderway(plan, script);
    } else if !Terminal(k.status.value) {
      WaitingStaysUnderway(plan, script, k.status.value);
    } else if k.status.value.Succeeded? {
      SuccessMovesOn(plan, script);
    } else {
      FailureEnds(plan, script);
    }
  }

  /** A crash after any write of an advance leaves the plan underway too. */
  lemma TornAdvance(plan: Plan, script: Script, k: Answers, m: nat)
    requires Underway(plan, script) && Agrees(plan, script, k) && m <= |Writes(plan, k)|
    ensures Underway(Torn(plan, k, m), script) || EndedAsFolded(Torn(plan, k, m), script)
  {
    var p, ws := NextStep(plan, 0), Writes(plan, k);
    ShortEffect(plan, ws[..m]);
    if m == |ws| {
      assert ws[..m] == ws;
      AgreeingAdvance(plan, script, k);
    } else if m == 1 {
      if k.status.value.Succeeded? {
        SuccessMovesOn(plan, script);
      } else {
        NextStepIs(Write1(plan, ws[0]), p);
      }
    }
  }

  /** One cycle of an executor that may stop after `writes` of its writes. */
  datatype Attempted = Attempted(answers: Answers, writes: nat)

  function TornCycle(plan: Plan, t: Attempted): Plan {
    if !ActivePlan(plan.status) then plan
    else Torn(plan, t.answers, if t.writes <= |Writes(plan, t.answers)| then t.writes else |Writes(plan, t.answers)|)
  }

  function TornCycles(plan: Plan, ts: seq<Attempted>): Plan {
    if ts == [] then plan else TornCycle(TornCycles(plan, ts[..|ts| - 1]), ts[|ts| - 1])
  }

  /** Over any sequence of cycles whose answers agree with the script -- outages, active
      statuses, crashes between any two writes, and repetitions, in any order -- the plan
      is either still on its way or has ended exactly as the fold. */
  lemma {:induction false} RefinesFold(plan: Plan, script: Script, ts: seq<Attempted>)
    requires Underway(plan, script) || EndedAsFolded(plan, script)
    requires forall i :: 0 <= i < |ts| && script.For(TornCycles(plan, ts[..i])) ==>
               Agrees(TornCycles(plan, ts[..i]), script, ts[i].answers)
    ensures Underway(TornCycles(plan, ts), script) || EndedAsFolded(TornCycles(plan, ts), script)
  {
    if ts != [] {
      var before, last := ts[..|ts| - 1], ts[|ts| - 1];
      assert forall i :: 0 <= i < |before| ==> before[..i] == ts[..i] && before[i] == ts[i];
      RefinesFold(plan, script, before);
      var mid := TornCycles(plan, before);
      if Underway(mid, script) {
        var n := |Writes(mid, last.answers)|;
        TornAdvance(mid, script, last.answers, if last.writes <= n then last.writes else n);
      } else {
        FoldIsTerminal(script.outcomes);
      }
    }
  }

  lemma FoldIsTerminal(outcomes: seq<RunStatus>)
    requires forall i :: 0 <= i < |outcomes| ==> Terminal(outcomes[i])
    ensures Terminal(Fold(outcomes))
  {
    FoldStopsAtFirstBad(outcomes, FirstBad(outcomes, 0));
  }

  // ---- how long it takes -----------------------------------------------------------------

  /** The kernel answers every call, and every run it is asked about has ended. */
  function Prompt(plan: Plan, script: Script): Answers
    requires script.For(plan)
  {
    var p := NextStep(plan, 0);
    if p == |plan.steps| then Answers(Got(true), Unavailable, Got(()), Unavailable)
    else Answers(Got(true), Got(script.runs[p]), Got(()), Got(script.outcomes[p]))
  }

  lemma AdvanceKeepsLength(plan: Plan, k: Answers)
    requires !plan.status.CancelRequested?
    ensures |Advance(plan, k).steps| == |plan.steps|
  {
    ShortEffect(plan, Writes(plan, k));
  }

  function Drive(plan: Plan, script: Script, n: nat): Plan
    requires script.For(plan)
    decreases n
  {
    if n == 0 || !ActivePlan(plan.status) || plan.status.CancelRequested? then plan
    else
      AdvanceKeepsLength(plan, Prompt(plan, script));
      Drive(Advance(plan, Prompt(plan, script)), script, n - 1)
  }

  /** Two advances a step, one less when the current step already has its run; one
      more when every step succeeded but the plan was not told. */
  function Remaining(plan: Plan): nat {
    var p := NextStep(plan, 0);
    if p == |plan.steps| then 1
    else 2 * (|plan.steps| - p) - (if plan.steps[p].runId.Some? then 1 else 0)
  }

  lemma PromptAdvance(plan: Plan, script: Script)
    requires Underway(plan, script)
    ensures var plan' := Advance(plan, Prompt(plan, script));
            EndedAsFolded(plan', script) ||
            (Underway(plan', script) && Remaining(plan') < Remaining(plan) && NextStep(plan', 0) < |plan.steps|)
  {
    var p, k := NextStep(plan, 0), Prompt(plan, script);
    AgreeingAdvance(plan, script, k);
    var ws, plan' := Writes(plan, k), Advance(plan, k);
    ShortEffect(plan, ws);
    if p < |plan.steps| && plan.steps[p].runId.None? {
      NextStepIs(plan', p);
    } else if p < |plan.steps| && script.outcomes[p].Succeeded? {
      NextStepIs(plan', p + 1);
      if p + 1 == |plan.steps| { assert OthersSucceeded(plan, p); }
    }
  }

  /** Once the kernel's replies are terminal, `Remaining` advances end the plan, from
      any point a crash may have left it at. */
  lemma {:induction false} DriveEnds(plan: Plan, script: Script, n: nat)
    requires Underway(plan, script) && Remaining(plan) <= n
    ensures EndedAsFolded(Drive(plan, script, n), script)
    decreases n
  {
    PromptAdvance(plan, script);
    AdvanceKeepsLength(plan, Prompt(plan, script));
    var plan' := Advance(plan, Prompt(plan, script));
    if EndedAsFolded(plan', script) {
      FoldIsTerminal(script.outcomes);
    } else {
      DriveEnds(plan', script, n - 1);
    }
  }

  /** From its creation a plan of n steps ends in at most 2n advances, as the fold. */
  lemma NewPlanEnds(planId: string, steps: seq<StepSpec>, script: Script, n: nat)
    requires ValidPlan(planId, steps) && script.For(NewPlan(planId, steps)) && 2 * |steps| <= n
    ensures EndedAsFolded(Drive(NewPlan(planId, steps), script, n), script)
  {
    var plan := NewPlan(planId, steps);
    NextStepIs(plan, 0);
    DriveEnds(plan, script, n);
  }
}
