/** What one advance leaves in the plan's rows, for every answer the kernel may give and
    without the list of writes: the plan's status, the pending step's row, and the rows
    that stay as they were. */
module PlanOutcomes {
  import opened Contracts
  import opened Plans
  import opened PlanTheorems

  /** Step `p` is the first that has not succeeded. */
  predicate Pending(plan: Plan, p: nat) {
    && p < |plan.steps| && !plan.steps[p].status.Succeeded?
    && forall j :: 0 <= j < p ==> plan.steps[j].status.Succeeded?
  }

  /** Exactly the row of step `p` has this status and run; every other row is as before. */
  predicate OnlyStep(plan: Plan, after: Plan, p: nat, status: RunStatus, run: Option<nat>)
    requires p < |plan.steps|
  {
    && after.planId == plan.planId && |after.steps| == |plan.steps|
    && after.steps[p] == StepRow(plan.steps[p].spec, run, status)
    && forall j :: 0 <= j < |plan.steps| && j != p ==> after.steps[j] == plan.steps[j]
  }

  /** Every step that has not succeeded is cancelled, with its run kept; the others are as
      before. */
  predicate RestCancelled(plan: Plan, after: Plan) {
    && after.planId == plan.planId && |after.steps| == |plan.steps|
    && forall j :: 0 <= j < |plan.steps| ==>
         after.steps[j] == if plan.steps[j].status.Succeeded? then plan.steps[j] else plan.steps[j].(status := Cancelled)
  }

  /** Some other step has not succeeded yet. */
  predicate OthersOpen(plan: Plan, p: nat) {
    exists j :: 0 <= j < |plan.steps| && j != p && !plan.steps[j].status.Succeeded?
  }

  /** How the plan's status follows the status its pending step is found in. */
  function PlanAfter(plan: Plan, p: nat, found: RunStatus): RunStatus {
    match found
    case Succeeded => if OthersOpen(plan, p) then plan.status else RunStatus.Succeeded
    case Failed => RunStatus.Failed
    case Cancelled => Cancelled
    case TimedOut => TimedOut
    case Lost => RunStatus.Lost
    case _ => plan.status
  }

  lemma PendingIsNext(plan: Plan, p: nat)
    requires Pending(plan, p)
    ensures NextStep(plan, 0) == p
  {
    NextStepIs(plan, p);
  }

  lemma OthersIff(plan: Plan, p: nat)
    ensures OthersSucceeded(plan, p) <==> !OthersOpen(plan, p)
  {
  }

  // ---- while the plan is under way ------------------------------------------------------

  /** A plan whose steps have all succeeded ends so, cancelled or not. */
  lemma AllDoneOutcome(plan: Plan, k: Answers)
    requires forall j :: 0 <= j < |plan.steps| ==> plan.steps[j].status.Succeeded?
    ensures Advance(plan, k) == plan.(status := RunStatus.Succeeded)
  {
    NextStepIs(plan, |plan.steps|);
    ShortEffect(plan, Writes(plan, k));
  }

  /** A pending step without a run is submitted: it is queued under the run the kernel
      returned and the plan runs.  An outage postpones the plan; a refusal, or a binding
      without its one match, fails it; neither touches a step. */
  lemma SubmitOutcome(plan: Plan, k: Answers, p: nat)
    requires !plan.status.CancelRequested? && Pending(plan, p) && plan.steps[p].runId.None?
    ensures k.bound == Got(true) && k.submit.Got? ==>
            && Advance(plan, k).status.Running? && OnlyStep(plan, Advance(plan, k), p, Queued, Some(k.submit.value))
    ensures k.bound.Unavailable? || (k.bound == Got(true) && k.submit.Unavailable?) ==>
            Advance(plan, k) == plan.(status := RetryWait)
    ensures k.bound.RefusedCall? || k.bound == Got(false) || (k.bound == Got(true) && k.submit.RefusedCall?) ==>
            Advance(plan, k) == plan.(status := RunStatus.Failed)
  {
    PendingIsNext(plan, p);
    ShortEffect(plan, Writes(plan, k));
  }

  /** A pending step with a run takes the run's status, and the plan follows it: it ends
      with a bad ending, succeeds with the last success, and otherwise goes on. */
  lemma ObserveOutcome(plan: Plan, k: Answers, p: nat)
    requires !plan.status.CancelRequested? && Pending(plan, p) && plan.steps[p].runId.Some?
    ensures k.status.Got? ==>
            && OnlyStep(plan, Advance(plan, k), p, k.status.value, plan.steps[p].runId)
            && Advance(plan, k).status == PlanAfter(plan, p, k.status.value)
    ensures k.status.Unavailable? ==> Advance(plan, k) == plan.(status := RetryWait)
    ensures k.status.RefusedCall? ==> Advance(plan, k) == plan.(status := RunStatus.Failed)
  {
    PendingIsNext(plan, p);
    OthersIff(plan, p);
    ShortEffect(plan, Writes(plan, k));
  }

  // ---- while the plan is being cancelled --------------------------------------------------

  lemma {:induction false} WritesKeepId(plan: Plan, ws: seq<Write>)
    ensures WriteAll(plan, ws).planId == plan.planId
  {
    if ws != [] { WritesKeepId(plan, ws[..|ws| - 1]); }
  }

  /** The cancelling writes, row by row. */
  lemma CancelAllRows(plan: Plan, status: RunStatus, after: Plan)
    requires after == WriteAll(plan, CancelFrom(plan, 0, |plan.steps|) + [SetPlan(status)])
    ensures after.status == status && RestCancelled(plan, after)
  {
    CancelAllEffect(plan, plan, status);
    WritesKeepId(plan, CancelFrom(plan, 0, |plan.steps|) + [SetPlan(status)]);
  }

  /** Nothing is under way: everything that has not succeeded is cancelled. */
  lemma CancelIdleOutcome(plan: Plan, k: Answers, p: nat)
    requires plan.status.CancelRequested? && Pending(plan, p) && plan.steps[p].runId.None?
    ensures Advance(plan, k).status.Cancelled? && RestCancelled(plan, Advance(plan, k))
  {
    PendingIsNext(plan, p);
    CancelAllRows(plan, Cancelled, Advance(plan, k));
  }

  /** The pending step's run was asked to stop and has been found cancelled. */
  lemma CancelledOutcome(plan: Plan, k: Answers, p: nat)
    requires plan.status.CancelRequested? && Pending(plan, p) && plan.steps[p].runId.Some?
    requires k.cancel.Got? && k.status == Got(Cancelled)
    ensures Advance(plan, k).status.Cancelled? && RestCancelled(plan, Advance(plan, k))
  {
    PendingIsNext(plan, p);
    CancelAllRows(plan, Cancelled, Advance(plan, k));
  }

  /** It succeeded first: the step keeps its success, the steps behind it are cancelled,
      and the plan succeeds if and only if there are none. */
  lemma CancelTooLateOutcome(plan: Plan, k: Answers, p: nat)
    requires plan.status.CancelRequested? && Pending(plan, p) && plan.steps[p].runId.Some?
    requires k.cancel.Got? && k.status == Got(RunStatus.Succeeded)
    ensures var after := Advance(plan, k);
            && after.status == (if OthersOpen(plan, p) then Cancelled else RunStatus.Succeeded)
            && RestCancelled(plan.(steps := plan.steps[p := plan.steps[p].(status := RunStatus.Succeeded)]), after)
  {
    PendingIsNext(plan, p);
    OthersIff(plan, p);
    var final := if OthersSucceeded(plan, p) then RunStatus.Succeeded else Cancelled;
    var plan1 := Write1(plan, SetStep(p, RunStatus.Succeeded));
    var rest := CancelFrom(plan, 0, p) + [SetPlan(final)];
    var ws := [SetStep(p, RunStatus.Succeeded)] + rest;
    assert Writes(plan, k) == ws;
    SplitFirst(plan, SetStep(p, RunStatus.Succeeded), rest, |ws|);
    assert ws[..|ws|] == ws && rest[..|rest|] == rest;
    CancelFromSkips(plan, plan1, 0, p);
    CancelAllRows(plan1, final, Advance(plan, k));
  }

  /** Every other answer: the step takes the status its run has, a bad ending ends the
      plan the same way, and a run still going leaves the request standing; an outage
      postpones, a refusal fails. */
  lemma CancelPendingOutcome(plan: Plan, k: Answers, p: nat)
    requires plan.status.CancelRequested? && Pending(plan, p) && plan.steps[p].runId.Some?
    ensures k.cancel.Got? && k.status.Got? && !k.status.value.Succeeded? && !k.status.value.Cancelled? ==>
            && OnlyStep(plan, Advance(plan, k), p, k.status.value, plan.steps[p].runId)
            && Advance(plan, k).status == PlanAfter(plan, p, k.status.value)
    ensures k.cancel.Unavailable? || (k.cancel.Got? && k.status.Unavailable?) ==>
            Advance(plan, k) == plan.(status := RetryWait)
    ensures k.cancel.RefusedCall? || (k.cancel.Got? && k.status.RefusedCall?) ==>
            Advance(plan, k) == plan.(status := RunStatus.Failed)
  {
    PendingIsNext(plan, p);
    if !(k.cancel.Got? && k.status.Got? && (k.status.value.Succeeded? || k.status.value.Cancelled?)) {
      ShortEffect(plan, Writes(plan, k));
    }
  }
}
