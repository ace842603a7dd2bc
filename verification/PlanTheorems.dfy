/** What a plan is for: its steps run in order, each consumes only what finished
    before it, and the plan ends as the first step that did not succeed. */
module PlanTheorems {
  import opened Contracts
  import opened Plans

  predicate AllSucceeded(plan: Plan) {
    forall i :: 0 <= i < |plan.steps| ==> plan.steps[i].status.Succeeded?
  }

  /** The steps that hold a run are the succeeded prefix and at most the next one. */
  predicate InOrder(plan: Plan) {
    var p := NextStep(plan, 0);
    && (forall i :: 0 <= i < p ==> plan.steps[i].runId.Some?)
    && (forall i :: p < i < |plan.steps| ==> plan.steps[i].runId.None? && !plan.steps[i].status.Succeeded?)
  }

  // ---- writes ------------------------------------------------------------------------

  lemma {:induction false} WriteAppend(plan: Plan, xs: seq<Write>, ys: seq<Write>)
    ensures WriteAll(plan, xs + ys) == WriteAll(WriteAll(plan, xs), ys)
    decreases |ys|
  {
    if ys == [] {
      assert xs + ys == xs;
    } else {
      assert (xs + ys)[..|xs + ys| - 1] == xs + ys[..|ys| - 1];
      WriteAppend(plan, xs, ys[..|ys| - 1]);
    }
  }

  /** Writes that only mark unsucceeded steps as cancelled. */
  predicate OnlyCancels(plan: Plan, ws: seq<Write>) {
    forall i :: 0 <= i < |ws| ==>
      && ws[i].SetStep? && ws[i].status.Cancelled?
      && ws[i].step < |plan.steps| && !plan.steps[ws[i].step].status.Succeeded?
  }

  /** Two plans whose steps hold the same runs and succeeded alike. */
  predicate SameProgress(x: Plan, y: Plan) {
    && |x.steps| == |y.steps|
    && forall i :: 0 <= i < |x.steps| ==>
         && x.steps[i].runId == y.steps[i].runId && x.steps[i].spec == y.steps[i].spec
         && x.steps[i].status.Succeeded? == y.steps[i].status.Succeeded?
  }

  lemma {:induction false} CancelsKeepProgress(plan: Plan, ws: seq<Write>)
    requires OnlyCancels(plan, ws)
    ensures SameProgress(plan, WriteAll(plan, ws)) && WriteAll(plan, ws).status == plan.status
    ensures forall i :: 0 <= i < |ws| ==> WriteAll(plan, ws).steps[ws[i].step].status.Cancelled?
  {
    if ws != [] { CancelsKeepProgress(plan, ws[..|ws| - 1]); }
  }

  lemma NextStepAgrees(x: Plan, y: Plan)
    requires SameProgress(x, y)
    ensures NextStep(x, 0) == NextStep(y, 0) && (InOrder(x) <==> InOrder(y)) && (AllSucceeded(x) <==> AllSucceeded(y))
  {
  }

  /** The cancelling writes cover exactly the unsucceeded steps other than `except`. */
  lemma {:induction false} CancelFromCovers(plan: Plan, i: nat, except: nat)
    requires i <= |plan.steps|
    ensures OnlyCancels(plan, CancelFrom(plan, i, except))
    ensures forall m :: 0 <= m < |CancelFrom(plan, i, except)| ==> CancelFrom(plan, i, except)[m].step != except
    ensures forall j :: i <= j < |plan.steps| && j != except && !plan.steps[j].status.Succeeded? ==>
              SetStep(j, Cancelled) in CancelFrom(plan, i, except)
    decreases |plan.steps| - i
  {
    if i < |plan.steps| { CancelFromCovers(plan, i + 1, except); }
  }

  // ---- every write keeps the order ------------------------------------------------------

  /** One write that an advance makes, judged on its own. */
  predicate Orderly(plan: Plan, w: Write) {
    match w
    case SetPlan(_) => true
    case SetStep(i, status) =>
      i < |plan.steps| && (if status.Succeeded? then i == NextStep(plan, 0) && plan.steps[i].runId.Some?
                           else !plan.steps[i].status.Succeeded?)
    case Submitted(i, _) => i == NextStep(plan, 0) && i < |plan.steps|
  }

  lemma OrderlyKeepsOrder(plan: Plan, w: Write)
    requires InOrder(plan) && Orderly(plan, w)
    ensures InOrder(Write1(plan, w))
  {
    var plan' := Write1(plan, w);
    var p := NextStep(plan, 0);
    if w.SetStep? && w.status.Succeeded? {
      assert NextStep(plan', 0) == p + 1 by { NextStepIs(plan', p + 1); }
    } else if !w.SetPlan? {
      NextStepIs(plan', p);
    }
  }

  lemma NextStepIs(plan: Plan, p: nat)
    requires p <= |plan.steps| && (forall i :: 0 <= i < p ==> plan.steps[i].status.Succeeded?)
    requires p < |plan.steps| ==> !plan.steps[p].status.Succeeded?
    ensures NextStep(plan, 0) == p
  {
  }

  /** Cancelling writes, then at most a plan status: any prefix keeps the order. */
  lemma CancelPrefixKeepsOrder(plan: Plan, i: nat, except: nat, status: RunStatus, m: nat)
    requires InOrder(plan) && i <= |plan.steps|
    requires m <= |CancelFrom(plan, i, except)| + 1
    ensures InOrder(WriteAll(plan, (CancelFrom(plan, i, except) + [SetPlan(status)])[..m]))
  {
    var ws := CancelFrom(plan, i, except);
    CancelFromCovers(plan, i, except);
    if m <= |ws| {
      assert (ws + [SetPlan(status)])[..m] == ws[..m];
      CancelsKeepProgress(plan, ws[..m]);
      NextStepAgrees(plan, WriteAll(plan, ws[..m]));
    } else {
      assert (ws + [SetPlan(status)])[..m] == ws + [SetPlan(status)];
      WriteAppend(plan, ws, [SetPlan(status)]);
      CancelsKeepProgress(plan, ws);
      NextStepAgrees(plan, WriteAll(plan, ws + [SetPlan(status)]));
    }
  }

  /** A step observed as succeeded while the plan is being cancelled. */
  lemma CancelAfterSuccess(plan: Plan, p: nat, status: RunStatus, m: nat)
    requires InOrder(plan) && p == NextStep(plan, 0) && p < |plan.steps| && plan.steps[p].runId.Some?
    requires m <= |CancelFrom(plan, 0, p)| + 1
    ensures var plan1 := Write1(plan, SetStep(p, RunStatus.Succeeded));
            InOrder(WriteAll(plan1, (CancelFrom(plan, 0, p) + [SetPlan(status)])[..m]))
  {
    var plan1 := Write1(plan, SetStep(p, RunStatus.Succeeded));
    OrderlyKeepsOrder(plan, SetStep(p, RunStatus.Succeeded));
    CancelFromSkips(plan, plan1, 0, p);
    CancelPrefixKeepsOrder(plan1, 0, |plan.steps|, status, m);
  }

  /** Once `p` succeeded, skipping it and never meeting it are the same. */
  lemma {:induction false} CancelFromSkips(plan: Plan, plan1: Plan, i: nat, p: nat)
    requires p < |plan.steps| && plan1 == Write1(plan, SetStep(p, RunStatus.Succeeded)) && i <= |plan.steps|
    ensures CancelFrom(plan, i, p) == CancelFrom(plan1, i, |plan.steps|)
    decreases |plan.steps| - i
  {
    if i < |plan.steps| { CancelFromSkips(plan, plan1, i + 1, p); }
  }

  lemma SplitFirst(plan: Plan, w: Write, ws: seq<Write>, m: nat)
    requires 1 <= m <= 1 + |ws|
    ensures WriteAll(plan, ([w] + ws)[..m]) == WriteAll(Write1(plan, w), ws[..m - 1])
  {
    assert ([w] + ws)[..m] == [w] + ws[..m - 1];
    WriteAppend(plan, [w], ws[..m - 1]);
    assert [w][..0] == [] && WriteAll(plan, [w]) == Write1(WriteAll(plan, []), w);
  }

  /** Short write lists, prefix by prefix. */
  lemma ShortPrefixKeepsOrder(plan: Plan, ws: seq<Write>, m: nat)
    requires InOrder(plan) && |ws| <= 2 && m <= |ws|
    requires |ws| >= 1 ==> Orderly(plan, ws[0])
    requires |ws| == 2 ==> ws[1].SetPlan?
    ensures InOrder(WriteAll(plan, ws[..m]))
  {
    if m >= 1 {
      OrderlyKeepsOrder(plan, ws[0]);
      assert ws == [ws[0]] + ws[1..];
      SplitFirst(plan, ws[0], ws[1..], m);
      var plan1 := Write1(plan, ws[0]);
      if m == 2 {
        assert ws[1..][..1] == [ws[1]];
        SplitFirst(plan1, ws[1], [], 1);
        assert [ws[1]] + [] == [ws[1]] && [ws[1]][..1] == [ws[1]];
        OrderlyKeepsOrder(plan1, ws[1]);
      }
    }
  }

  /** Whatever the kernel answers and wherever the executor crashes, the steps that
      hold a run stay the succeeded prefix plus at most one. */
  lemma CrashKeepsOrder(plan: Plan, k: Answers, m: nat)
    requires InOrder(plan) && m <= |Writes(plan, k)|
    ensures InOrder(Torn(plan, k, m))
  {
    var p := NextStep(plan, 0);
    if plan.status.CancelRequested? && p < |plan.steps| && plan.steps[p].runId.None? {
      CancelPrefixKeepsOrder(plan, 0, |plan.steps|, Cancelled, m);
    } else if plan.status.CancelRequested? && p < |plan.steps| && k.cancel.Got? && k.status == Got(RunStatus.Succeeded) {
      var final := if OthersSucceeded(plan, p) then RunStatus.Succeeded else Cancelled;
      var rest := CancelFrom(plan, 0, p) + [SetPlan(final)];
      assert Writes(plan, k) == [SetStep(p, RunStatus.Succeeded)] + rest;
      if m >= 1 {
        SplitFirst(plan, SetStep(p, RunStatus.Succeeded), rest, m);
        CancelAfterSuccess(plan, p, final, m - 1);
      }
    } else if plan.status.CancelRequested? && p < |plan.steps| && k.cancel.Got? && k.status == Got(Cancelled) {
      CancelPrefixKeepsOrder(plan, 0, |plan.steps|, Cancelled, m);
    } else {
      ShortPrefixKeepsOrder(plan, Writes(plan, k), m);
    }
  }

  // ---- success ------------------------------------------------------------------------

  /** After a whole advance of an active plan, the plan has succeeded if and only if
      every step has. */
  lemma SucceedsIffAllDo(plan: Plan, k: Answers)
    requires ActivePlan(plan.status)
    ensures Advance(plan, k).status.Succeeded? <==> AllSucceeded(Advance(plan, k))
  {
    var p := NextStep(plan, 0);
    var ws := Writes(plan, k);
    assert AllSucceeded(plan) <==> p == |plan.steps|;
    if plan.status.CancelRequested? && p < |plan.steps| && plan.steps[p].runId.None? {
      CancelAllEffect(plan, plan, Cancelled);
    } else if plan.status.CancelRequested? && p < |plan.steps| && k.cancel.Got? && k.status == Got(RunStatus.Succeeded) {
      CancelSuccessEffect(plan, k);
    } else if plan.status.CancelRequested? && p < |plan.steps| && k.cancel.Got? && k.status == Got(Cancelled) {
      CancelAllEffect(plan, plan, Cancelled);
    } else {
      assert Brief(plan, ws);
      BriefSucceeds(plan, ws);
    }
  }

  /** The write lists of all other cases, and when they declare success. */
  predicate Brief(plan: Plan, ws: seq<Write>) {
    var p := NextStep(plan, 0);
    || (|ws| == 1 && ws[0].SetPlan? && (ws[0].status.Succeeded? <==> p == |plan.steps|))
    || (|ws| == 1 && p < |plan.steps| && ws[0].Submitted? && ws[0].step == p)
    || (|ws| == 1 && p < |plan.steps| && ws[0].SetStep? && ws[0].step == p &&
        !(ws[0].status.Succeeded? && OthersSucceeded(plan, p)))
    || (|ws| == 2 && p < |plan.steps| && ws[0].SetStep? && ws[0].step == p && ws[1].SetPlan? &&
        (ws[1].status.Succeeded? <==> ws[0].status.Succeeded? && OthersSucceeded(plan, p)))
  }

  lemma BriefSucceeds(plan: Plan, ws: seq<Write>)
    requires ActivePlan(plan.status) && Brief(plan, ws)
    ensures WriteAll(plan, ws).status.Succeeded? <==> AllSucceeded(WriteAll(plan, ws))
  {
    var p := NextStep(plan, 0);
    ShortEffect(plan, ws);
    if p < |plan.steps| {
      assert !AllSucceeded(plan) by { assert !plan.steps[p].status.Succeeded?; }
      if ws[0].SetStep? {
        AllButOne(plan, p, ws[0].status);
        assert AllSucceeded(WriteAll(plan, ws)) <==> AllSucceeded(Write1(plan, ws[0]));
      } else if ws[0].Submitted? {
        assert !Write1(plan, ws[0]).steps[p].status.Succeeded?;
      } else {
        assert AllSucceeded(Write1(plan, ws[0])) <==> AllSucceeded(plan);
      }
    }
  }

  lemma AllButOne(plan: Plan, p: nat, status: RunStatus)
    requires p < |plan.steps|
    ensures AllSucceeded(Write1(plan, SetStep(p, status))) <==> status.Succeeded? && OthersSucceeded(plan, p)
  {
    var plan1 := Write1(plan, SetStep(p, status));
    if AllSucceeded(plan1) {
      assert plan1.steps[p].status.Succeeded?;
      forall j | 0 <= j < |plan.steps| ensures plan.steps[j].status.Succeeded? || j == p {
        assert plan1.steps[j].status.Succeeded?;
      }
    }
  }

  /** Cancelling a plan whose current step turns out to have succeeded. */
  lemma CancelSuccessEffect(plan: Plan, k: Answers)
    requires plan.status.CancelRequested? && k.cancel.Got? && k.status == Got(RunStatus.Succeeded)
    requires NextStep(plan, 0) < |plan.steps| && plan.steps[NextStep(plan, 0)].runId.Some?
    ensures var p, r := NextStep(plan, 0), Advance(plan, k);
            && r.status == (if OthersSucceeded(plan, p) then RunStatus.Succeeded else Cancelled)
            && SameProgress(Write1(plan, SetStep(p, RunStatus.Succeeded)), r)
            && (AllSucceeded(r) <==> OthersSucceeded(plan, p))
  {
    var p := NextStep(plan, 0);
    var final := if OthersSucceeded(plan, p) then RunStatus.Succeeded else Cancelled;
    assert Writes(plan, k) == [SetStep(p, RunStatus.Succeeded)] + (CancelFrom(plan, 0, p) + [SetPlan(final)]);
    CancelSuccessWrites(plan, p, final);
    AllButOne(plan, p, RunStatus.Succeeded);
  }

  lemma CancelSuccessWrites(plan: Plan, p: nat, final: RunStatus)
    requires p < |plan.steps|
    ensures var plan1 := Write1(plan, SetStep(p, RunStatus.Succeeded));
            var r := WriteAll(plan, [SetStep(p, RunStatus.Succeeded)] + (CancelFrom(plan, 0, p) + [SetPlan(final)]));
            && r.status == final && SameProgress(plan1, r) && (AllSucceeded(r) <==> AllSucceeded(plan1))
  {
    var plan1 := Write1(plan, SetStep(p, RunStatus.Succeeded));
    var rest := CancelFrom(plan, 0, p) + [SetPlan(final)];
    var ws := [SetStep(p, RunStatus.Succeeded)] + rest;
    SplitFirst(plan, SetStep(p, RunStatus.Succeeded), rest, |ws|);
    assert ws[..|ws|] == ws && rest[..|rest|] == rest;
    CancelFromSkips(plan, plan1, 0, p);
    CancelAllEffect(plan, plan1, final);
  }

  /** The outcome of cancelling whatever has not succeeded. */
  lemma CancelAllEffect(plan: Plan, plan1: Plan, status: RunStatus)
    requires |plan1.steps| == |plan.steps|
    ensures var r := WriteAll(plan1, CancelFrom(plan1, 0, |plan.steps|) + [SetPlan(status)]);
            && r.status == status && SameProgress(plan1, r)
            && (AllSucceeded(r) <==> AllSucceeded(plan1))
            && (forall i :: 0 <= i < |r.steps| ==> r.steps[i].status.Succeeded? || r.steps[i].status.Cancelled?)
  {
    var ws := CancelFrom(plan1, 0, |plan.steps|);
    CancelFromCovers(plan1, 0, |plan.steps|);
    WriteAppend(plan1, ws, [SetPlan(status)]);
    CancelsKeepProgress(plan1, ws);
    var mid := WriteAll(plan1, ws);
    assert [SetPlan(status)][..0] == [] && WriteAll(mid, [SetPlan(status)]) == Write1(WriteAll(mid, []), SetPlan(status));
    NextStepAgrees(plan1, mid);
    forall i | 0 <= i < |mid.steps| && !mid.steps[i].status.Succeeded? ensures mid.steps[i].status.Cancelled? {
      var m :| 0 <= m < |ws| && ws[m] == SetStep(i, Cancelled);
    }
  }

  lemma ShortEffect(plan: Plan, ws: seq<Write>)
    requires |ws| <= 2
    ensures WriteAll(plan, ws) ==
            if |ws| == 0 then plan
            else if |ws| == 1 then Write1(plan, ws[0])
            else Write1(Write1(plan, ws[0]), ws[1])
  {
    if |ws| == 2 {
      assert ws[..1] == [ws[0]] && ws[..1][..0] == [];
    }
  }

  // ---- bindings -------------------------------------------------------------------------

  function Specs(plan: Plan): seq<StepSpec> {
    seq(|plan.steps|, i requires 0 <= i < |plan.steps| => plan.steps[i].spec)
  }

  /** When a step is submitted, every binding finds an earlier step that succeeded
      and holds its run. */
  lemma BindingsResolve(plan: Plan, b: Binding)
    requires ValidPlan(plan.planId, Specs(plan)) && InOrder(plan)
    requires NextStep(plan, 0) < |plan.steps| && b in plan.steps[NextStep(plan, 0)].spec.bindings
    ensures exists j :: 0 <= j < NextStep(plan, 0) && plan.steps[j].spec.stepId == b.fromStep &&
                        plan.steps[j].status.Succeeded? && plan.steps[j].runId.Some?
  {
    var p := NextStep(plan, 0);
    assert ValidStep(Specs(plan), p) && Specs(plan)[p] == plan.steps[p].spec;
    var k :| 0 <= k < |plan.steps[p].spec.bindings| && plan.steps[p].spec.bindings[k] == b;
    var j :| 0 <= j < p && Specs(plan)[j].stepId == b.fromStep;
    assert plan.steps[j].spec.stepId == b.fromStep;
  }

  // ---- cancellation ---------------------------------------------------------------------

  predicate Reachable(k: Answers) {
    !k.bound.Unavailable? && !k.submit.Unavailable? && !k.cancel.Unavailable? && !k.status.Unavailable?
  }

  predicate SameRuns(x: Plan, y: Plan) {
    |x.steps| == |y.steps| && forall i :: 0 <= i < |x.steps| ==> x.steps[i].runId == y.steps[i].runId
  }

  /** An advance of a plan being cancelled submits nothing; its intent survives, or
      the plan ends, if and only if the kernel could be reached where it was asked. */
  lemma CancelAdvance(plan: Plan, k: Answers)
    requires plan.status.CancelRequested?
    ensures var plan', p := Advance(plan, k), NextStep(plan, 0);
            && SameRuns(plan, plan')
            && (plan'.status.RetryWait? <==>
                  && p < |plan.steps| && plan.steps[p].runId.Some?
                  && (k.cancel.Unavailable? || (k.cancel.Got? && k.status.Unavailable?)))
            && (plan'.status.RetryWait? || plan'.status.CancelRequested? || Terminal(plan'.status))
  {
    var p := NextStep(plan, 0);
    var ws := Writes(plan, k);
    if p < |plan.steps| && plan.steps[p].runId.None? {
      CancelAllEffect(plan, plan, Cancelled);
    } else if p < |plan.steps| && k.cancel.Got? && k.status == Got(RunStatus.Succeeded) {
      CancelSuccessEffect(plan, k);
    } else if p < |plan.steps| && k.cancel.Got? && k.status == Got(Cancelled) {
      CancelAllEffect(plan, plan, Cancelled);
    } else {
      ShortEffect(plan, ws);
    }
  }

  /** The executor's cycle leaves plans that ended alone. */
  function Cycle(plan: Plan, k: Answers): Plan {
    if ActivePlan(plan.status) then Advance(plan, k) else plan
  }

  function Cycles(plan: Plan, ks: seq<Answers>): Plan {
    if ks == [] then plan else Cycle(Cycles(plan, ks[..|ks| - 1]), ks[|ks| - 1])
  }

  /** With a reachable kernel nothing is ever submitted after a cancel request. */
  lemma {:induction false} NothingSubmittedAfterCancel(plan: Plan, ks: seq<Answers>)
    requires plan.status.CancelRequested?
    requires forall i :: 0 <= i < |ks| ==> Reachable(ks[i])
    ensures SameRuns(plan, Cycles(plan, ks))
    ensures Cycles(plan, ks).status.CancelRequested? || Terminal(Cycles(plan, ks).status)
  {
    if ks != [] {
      NothingSubmittedAfterCancel(plan, ks[..|ks| - 1]);
      var before := Cycles(plan, ks[..|ks| - 1]);
      if before.status.CancelRequested? { CancelAdvance(before, ks[|ks| - 1]); }
    }
  }

  /** Without that, the intent can be lost: an outage turns the request into a wait,
      and the next advance submits the step it was meant to stop. */
  lemma CancelIntentCanBeLost() returns (plan: Plan, ks: seq<Answers>)
    ensures plan.status.CancelRequested? && InOrder(plan) && |plan.steps| == 2 && plan.steps[1].runId.None?
    ensures |Cycles(plan, ks).steps| == 2 && Cycles(plan, ks).steps[1].runId == Some(7)
  {
    var task := TaskSpec("t", "", map[], [], None, None, 1);
    var a, b := StepSpec("a", task, []), StepSpec("b", task, []);
    plan := Plan("p", CancelRequested, [StepRow(a, Some(3), RunStatus.Running), StepRow(b, None, Queued)]);
    var outage := Answers(Got(true), Got(7), Unavailable, Unavailable);
    var done := Answers(Got(true), Got(7), Got(()), Got(RunStatus.Succeeded));
    ks := [outage, done, done];
    NextStepIs(plan, 0);
    var plan1 := plan.(status := RetryWait);
    assert Writes(plan, outage) == POSTPONE;
    ShortEffect(plan, POSTPONE);
    NextStepIs(plan1, 0);
    var plan2 := plan1.(steps := [plan1.steps[0].(status := RunStatus.Succeeded), plan1.steps[1]]);
    assert !OthersSucceeded(plan1, 0) by { assert !plan1.steps[1].status.Succeeded?; }
    assert Writes(plan1, done) == [SetStep(0, RunStatus.Succeeded)];
    ShortEffect(plan1, Writes(plan1, done));
    assert Cycle(plan1, done) == plan2;
    NextStepIs(plan2, 1);
    assert Writes(plan2, done) == [Submitted(1, 7)];
    ShortEffect(plan2, Writes(plan2, done));
    assert ks[..2] == [outage, done] && ks[..2][..1] == [outage] && [outage][..0] == [];
    assert Cycles(plan, []) == plan && Cycles(plan, [outage]) == plan1;
    assert Cycles(plan, [outage, done]) == plan2;
  }
}
