/** Ordered execution plans: their rows, their validation, and one advance of a plan
    as the list of writes it makes.  Every write is its own transaction, so a crash
    can stop between any two of them. */
module Plans {
  import opened Contracts

  datatype Binding = Binding(fromStep: string, artifactKind: string, destination: string, selector: map<string, string>)

  datatype StepSpec = StepSpec(stepId: string, task: TaskSpec, bindings: seq<Binding>)

  datatype StepRow = StepRow(spec: StepSpec, runId: Option<nat>, status: RunStatus)

  datatype Plan = Plan(planId: string, status: RunStatus, steps: seq<StepRow>)

  const MAX_STEPS := 64

  predicate Alphanumeric(c: char) {
    'A' <= c <= 'Z' || 'a' <= c <= 'z' || '0' <= c <= '9'
  }

  /** Plan and step identifiers; note that a colon is not among the characters. */
  predicate Identifier(s: string) {
    && 1 <= |s| <= 128 && Alphanumeric(s[0])
    && forall i :: 0 <= i < |s| ==> Alphanumeric(s[i]) || s[i] == '.' || s[i] == '_' || s[i] == '-'
  }

  predicate ValidBinding(steps: seq<StepSpec>, i: nat, b: Binding)
    requires i <= |steps|
  {
    && (exists j :: 0 <= j < i && steps[j].stepId == b.fromStep)
    && b.artifactKind != "" && b.destination != ""
  }

  predicate ValidStep(steps: seq<StepSpec>, i: nat)
    requires i < |steps|
  {
    && Identifier(steps[i].stepId) && steps[i].task.Valid()
    && (forall j :: 0 <= j < i ==> steps[j].stepId != steps[i].stepId)
    && (forall k :: 0 <= k < |steps[i].bindings| ==> ValidBinding(steps, i, steps[i].bindings[k]))
  }

  predicate ValidPlan(planId: string, steps: seq<StepSpec>) {
    && Identifier(planId) && 0 < |steps| <= MAX_STEPS
    && forall i :: 0 <= i < |steps| ==> ValidStep(steps, i)
  }

  /** Validation grows the set of steps seen so far and checks each binding against
      it before the step itself joins: a binding can only point backwards. */
  method Validate(planId: string, steps: seq<StepSpec>) returns (ok: bool)
    ensures ok <==> ValidPlan(planId, steps)
  {
    if !Identifier(planId) || !(0 < |steps| <= MAX_STEPS) { return false; }
    var seen: set<string> := {};
    for i := 0 to |steps|
      invariant forall id :: id in seen <==> exists j :: 0 <= j < i && steps[j].stepId == id
      invariant forall j :: 0 <= j < i ==> ValidStep(steps, j)
    {
      var step := steps[i];
      if !Identifier(step.stepId) || step.stepId in seen || !step.task.Valid() {
        assert !ValidStep(steps, i);
        return false;
      }
      for k := 0 to |step.bindings|
        invariant forall m :: 0 <= m < k ==> ValidBinding(steps, i, step.bindings[m])
      {
        var b := step.bindings[k];
        if b.fromStep !in seen || b.artifactKind == "" || b.destination == "" {
          assert !ValidBinding(steps, i, b) && !ValidStep(steps, i);
          return false;
        }
      }
      seen := seen + {step.stepId};
      assert ValidStep(steps, i);
    }
    return true;
  }

  function NewPlan(planId: string, steps: seq<StepSpec>): Plan {
    Plan(planId, Queued, seq(|steps|, i requires 0 <= i < |steps| => StepRow(steps[i], None, Queued)))
  }

  // ---- one advance ---------------------------------------------------------------

  /** What the kernel answers to a call: a value, no connection, or a refusal. */
  datatype Answer<T> = Got(value: T) | Unavailable | RefusedCall

  /** The answers one advance may ask for.  `bound` stands for looking up the bound
      artifacts: `Got(false)` when some binding does not match exactly one artifact. */
  datatype Answers = Answers(bound: Answer<bool>, submit: Answer<nat>, cancel: Answer<()>, status: Answer<RunStatus>)

  datatype Write = SetStep(step: nat, status: RunStatus) | Submitted(step: nat, run: nat) | SetPlan(status: RunStatus)

  function Write1(plan: Plan, w: Write): Plan {
    match w
    case SetStep(i, status) =>
      if i < |plan.steps| then plan.(steps := plan.steps[i := plan.steps[i].(status := status)]) else plan
    case Submitted(i, run) =>
      if i < |plan.steps| then
        plan.(steps := plan.steps[i := plan.steps[i].(status := Queued, runId := Some(run))],
              status := if plan.status.CancelRequested? then plan.status else RunStatus.Running)
      else plan
    case SetPlan(status) => plan.(status := status)
  }

  function WriteAll(plan: Plan, ws: seq<Write>): Plan {
    if ws == [] then plan else Write1(WriteAll(plan, ws[..|ws| - 1]), ws[|ws| - 1])
  }

  predicate ActivePlan(status: RunStatus) {
    status.Queued? || status.Running? || status.RetryWait? || status.CancelRequested?
  }

  /** The first step that has not succeeded; |steps| when all have. */
  function NextStep(plan: Plan, i: nat): (p: nat)
    requires i <= |plan.steps|
    ensures i <= p <= |plan.steps|
    ensures forall j :: i <= j < p ==> plan.steps[j].status.Succeeded?
    ensures p < |plan.steps| ==> !plan.steps[p].status.Succeeded?
    decreases |plan.steps| - i
  {
    if i == |plan.steps| || !plan.steps[i].status.Succeeded? then i else NextStep(plan, i + 1)
  }

  predicate OthersSucceeded(plan: Plan, p: nat) {
    forall j :: 0 <= j < |plan.steps| ==> plan.steps[j].status.Succeeded? || j == p
  }

  /** The handlers around an advance: an outage postpones, an error fails the plan. */
  const POSTPONE: seq<Write> := [SetPlan(RetryWait)]
  const REFUSE: seq<Write> := [SetPlan(RunStatus.Failed)]

  /** The writes that mark every step from `i` on that has not succeeded, except
      `except`, as cancelled. */
  function CancelFrom(plan: Plan, i: nat, except: nat): seq<Write>
    requires i <= |plan.steps|
    decreases |plan.steps| - i
  {
    if i == |plan.steps| then []
    else
      (if plan.steps[i].status.Succeeded? || i == except then [] else [SetStep(i, Cancelled)]) +
      CancelFrom(plan, i + 1, except)
  }

  function CancelWrites(plan: Plan, k: Answers): seq<Write> {
    var p := NextStep(plan, 0);
    if p == |plan.steps| then [SetPlan(RunStatus.Succeeded)]
    else if plan.steps[p].runId.None? then CancelFrom(plan, 0, |plan.steps|) + [SetPlan(Cancelled)]
    else if k.cancel.Unavailable? || (k.cancel.Got? && k.status.Unavailable?) then POSTPONE
    else if k.cancel.RefusedCall? || k.status.RefusedCall? then REFUSE
    else
      var status := k.status.value;
      if !Terminal(status) then [SetStep(p, status)]
      else if status.Succeeded? then
        [SetStep(p, status)] + CancelFrom(plan, 0, p) +
        [SetPlan(if OthersSucceeded(plan, p) then RunStatus.Succeeded else Cancelled)]
      else if !status.Cancelled? then [SetStep(p, status), SetPlan(status)]
      else CancelFrom(plan, 0, |plan.steps|) + [SetPlan(Cancelled)]
  }

  function Writes(plan: Plan, k: Answers): seq<Write> {
    if plan.status.CancelRequested? then CancelWrites(plan, k)
    else
      var p := NextStep(plan, 0);
      if p == |plan.steps| then [SetPlan(RunStatus.Succeeded)]
      else if plan.steps[p].runId.None? then
        if k.bound.Unavailable? then POSTPONE
        else if k.bound.RefusedCall? || !k.bound.value then REFUSE
        else if k.submit.Unavailable? then POSTPONE
        else if k.submit.RefusedCall? then REFUSE
        else [Submitted(p, k.submit.value)]
      else if k.status.Unavailable? then POSTPONE
      else if k.status.RefusedCall? then REFUSE
      else
        var status := k.status.value;
        if !Terminal(status) then [SetStep(p, status)]
        else if status.Succeeded? then
          [SetStep(p, status)] + (if OthersSucceeded(plan, p) then [SetPlan(status)] else [])
        else [SetStep(p, status), SetPlan(status)]
  }

  function Advance(plan: Plan, k: Answers): Plan { WriteAll(plan, Writes(plan, k)) }

  /** Advance `plan` and crash after `m` of its writes. */
  function Torn(plan: Plan, k: Answers, m: nat): Plan
    requires m <= |Writes(plan, k)|
  {
    WriteAll(plan, Writes(plan, k)[..m])
  }
}
