/** The plan executor as an object: plan and step rows are updated write by write, and
    a per-plan retry time keeps it from hammering a kernel that is away. */
module PlanExecutor {
  import opened Contracts
  import opened Plans
  import opened PlanTheorems

  datatype CancelReply = Recorded | UnknownPlan | AlreadyEnded

  /** The kernel cannot be reached where this advance asks for it. */
  predicate Outage(plan: Plan, k: Answers) {
    var p := NextStep(plan, 0);
    && p < |plan.steps|
    && if plan.steps[p].runId.None? then
         !plan.status.CancelRequested? && (k.bound.Unavailable? || (k.bound == Got(true) && k.submit.Unavailable?))
       else if plan.status.CancelRequested? then k.cancel.Unavailable? || (k.cancel.Got? && k.status.Unavailable?)
       else k.status.Unavailable?
  }

  /** Exactly then the plan is postponed. */
  lemma OutagePostpones(plan: Plan, k: Answers)
    ensures Outage(plan, k) <==> Writes(plan, k) == POSTPONE
  {
    var ws := Writes(plan, k);
    if ws == POSTPONE { assert ws[0] == SetPlan(RetryWait); }
  }

  /** The kernel refuses a call of this advance, or a binding matches no single artifact. */
  predicate Refusal(plan: Plan, k: Answers) {
    var p := NextStep(plan, 0);
    && p < |plan.steps| && !Outage(plan, k)
    && if plan.steps[p].runId.None? then
         !plan.status.CancelRequested? && (k.bound != Got(true) || k.submit.RefusedCall?)
       else if plan.status.CancelRequested? then k.cancel.RefusedCall? || k.status.RefusedCall?
       else k.status.RefusedCall?
  }

  /** Exactly then the plan is failed on the spot. */
  lemma RefusalFails(plan: Plan, k: Answers)
    ensures Refusal(plan, k) <==> Writes(plan, k) == REFUSE
  {
    var ws := Writes(plan, k);
    if ws == REFUSE { assert ws[0] == SetPlan(RunStatus.Failed); }
    if ws == POSTPONE { assert ws[0] == SetPlan(RetryWait); }
  }

  predicate Due(p: string, plan: Plan, retryAt: map<string, int>, now: int) {
    ActivePlan(plan.status) && !(p in retryAt && now < retryAt[p])
  }

  predicate SameRetry(p: string, before: map<string, int>, after: map<string, int>) {
    (p in before <==> p in after) && (p in before ==> before[p] == after[p])
  }

  /** What one cycle does to one plan and to its retry time: an outage sets the time, a
      refusal leaves it, anything else clears it. */
  predicate PlanCycled(p: string, plan: Plan, plan': Plan, retry: map<string, int>, retry': map<string, int>,
                       now: int, delay: nat, k: Answers)
  {
    if !Due(p, plan, retry, now) then plan' == plan && SameRetry(p, retry, retry')
    else
      && plan' == Advance(plan, k)
      && if Outage(plan, k) then p in retry' && retry'[p] == now + delay
         else if Refusal(plan, k) then SameRetry(p, retry, retry')
         else p !in retry'
  }

  /** The first `i` plans have been through the cycle, the others not yet. */
  predicate CycledUpTo(plans: map<string, Plan>, plans': map<string, Plan>, retry: map<string, int>,
                       retry': map<string, int>, order: seq<string>, i: nat, now: int, delay: nat,
                       answers: string -> Answers)
    requires i <= |order|
  {
    && plans'.Keys == plans.Keys
    && (forall p :: p in plans && p in order[..i] ==>
          PlanCycled(p, plans[p], plans'[p], retry, retry', now, delay, answers(p)))
    && (forall p :: p in plans && p !in order[..i] ==> plans'[p] == plans[p] && SameRetry(p, retry, retry'))
  }

  predicate Progresses(p: string, plan: Plan, retry: map<string, int>, now: int, k: Answers) {
    Due(p, plan, retry, now) && !Outage(plan, k)
  }

  /** The plans among the first `i` that a cycle counts as advanced, each once. */
  ghost predicate Counts(plans: map<string, Plan>, retry: map<string, int>, order: seq<string>, i: nat, now: int,
                         answers: string -> Answers, counted: seq<string>)
    requires i <= |order|
  {
    && (forall p :: p in counted <==> p in order[..i] && p in plans && Progresses(p, plans[p], retry, now, answers(p)))
    && (forall m, n :: 0 <= m < n < |counted| ==> counted[m] != counted[n])
  }

  lemma CountsOneMore(plans: map<string, Plan>, retry: map<string, int>, order: seq<string>, i: nat, now: int,
                      answers: string -> Answers, counted: seq<string>)
    requires i < |order| && order[i] in plans && order[i] !in order[..i]
    requires Counts(plans, retry, order, i, now, answers, counted)
    ensures var p := order[i];
            Counts(plans, retry, order, i + 1, now, answers,
                   if Progresses(p, plans[p], retry, now, answers(p)) then counted + [p] else counted)
  {
    assert order[..i + 1] == order[..i] + [order[i]];
    assert order[i] !in counted;
  }

  /** A plan that has been through the cycle is not touched again. */
  lemma PlanCycledKeeps(p: string, plan: Plan, plan': Plan, retry: map<string, int>, retryMid: map<string, int>,
                        retry': map<string, int>, now: int, delay: nat, k: Answers)
    requires PlanCycled(p, plan, plan', retry, retryMid, now, delay, k) && SameRetry(p, retryMid, retry')
    ensures PlanCycled(p, plan, plan', retry, retry', now, delay, k)
  {
  }

  lemma PlanCycledFrom(p: string, plan: Plan, plan': Plan, retry: map<string, int>, retryMid: map<string, int>,
                       retry': map<string, int>, now: int, delay: nat, k: Answers)
    requires SameRetry(p, retry, retryMid) && PlanCycled(p, plan, plan', retryMid, retry', now, delay, k)
    ensures PlanCycled(p, plan, plan', retry, retry', now, delay, k)
    ensures Due(p, plan, retry, now) == Due(p, plan, retryMid, now)
  {
  }

  lemma CycledOneMore(plans: map<string, Plan>, mid: map<string, Plan>, plans': map<string, Plan>,
                      retry: map<string, int>, retryMid: map<string, int>, retry': map<string, int>,
                      order: seq<string>, i: nat, now: int, delay: nat, answers: string -> Answers)
    requires i < |order| && order[i] in plans && order[i] !in order[..i]
    requires CycledUpTo(plans, mid, retry, retryMid, order, i, now, delay, answers)
    requires plans'.Keys == mid.Keys
    requires forall q :: q in plans && q != order[i] ==> plans'[q] == mid[q] && SameRetry(q, retryMid, retry')
    requires PlanCycled(order[i], mid[order[i]], plans'[order[i]], retryMid, retry', now, delay, answers(order[i]))
    ensures CycledUpTo(plans, plans', retry, retry', order, i + 1, now, delay, answers)
    ensures Due(order[i], plans[order[i]], retry, now) == Due(order[i], mid[order[i]], retryMid, now)
    ensures mid[order[i]] == plans[order[i]]
  {
    assert order[..i + 1] == order[..i] + [order[i]];
    PlanCycledFrom(order[i], plans[order[i]], plans'[order[i]], retry, retryMid, retry', now, delay, answers(order[i]));
    forall p | p in plans && p in order[..i]
      ensures PlanCycled(p, plans[p], plans'[p], retry, retry', now, delay, answers(p))
    {
      PlanCycledKeeps(p, plans[p], mid[p], retry, retryMid, retry', now, delay, answers(p));
    }
  }

  class Executor {
    var plans: map<string, Plan>
    var order: seq<string>
    var retryAt: map<string, int>
    const retryDelay: nat

    ghost predicate Valid()
      reads this
    {
      && (forall p :: p in order <==> p in plans)
      && (forall i, j :: 0 <= i < j < |order| ==> order[i] != order[j])
    }

    constructor (retryDelay: nat)
      ensures Valid() && plans == map[] && this.retryDelay == retryDelay
    {
      plans, order, retryAt, this.retryDelay := map[], [], map[], retryDelay;
    }

    method Create(planId: string, steps: seq<StepSpec>) returns (ok: bool)
      requires Valid()
      modifies this`plans, this`order
      ensures Valid()
      ensures ok <==> ValidPlan(planId, steps) && planId !in old(plans)
      ensures plans == if ok then old(plans)[planId := NewPlan(planId, steps)] else old(plans)
      ensures order == if ok then old(order) + [planId] else old(order)
    {
      ok := Validate(planId, steps);
      ok := ok && planId !in plans;
      if ok {
        plans := plans[planId := NewPlan(planId, steps)];
        order := order + [planId];
      }
    }

    method RequestCancel(planId: string) returns (reply: CancelReply)
      requires Valid()
      modifies this`plans
      ensures Valid()
      ensures reply == if planId !in old(plans) then UnknownPlan
                       else if Terminal(old(plans)[planId].status) then AlreadyEnded else Recorded
      ensures plans == if reply.Recorded? then old(plans)[planId := old(plans)[planId].(status := CancelRequested)]
                       else old(plans)
    {
      if planId !in plans { return UnknownPlan; }
      if Terminal(plans[planId].status) { return AlreadyEnded; }
      plans := plans[planId := plans[planId].(status := CancelRequested)];
      return Recorded;
    }

    method Write(planId: string, w: Write)
      requires planId in plans
      modifies this`plans
      ensures plans == old(plans)[planId := Write1(old(plans)[planId], w)]
    {
      plans := plans[planId := Write1(plans[planId], w)];
    }

    /** Mark what has not succeeded in the snapshot `plan` as cancelled, then finish. */
    method CancelSteps(planId: string, plan: Plan, except: nat, final: RunStatus)
      requires planId in plans
      modifies this`plans
      ensures plans == old(plans)[planId :=
                WriteAll(old(plans)[planId], CancelFrom(plan, 0, except) + [SetPlan(final)])]
    {
      ghost var was := plans;
      ghost var goal := WriteAll(plans[planId], CancelFrom(plan, 0, except));
      assert CancelFrom(plan, |plan.steps|, except) == [];
      for i := 0 to |plan.steps|
        invariant planId in plans && plans == was[planId := plans[planId]]
        invariant WriteAll(plans[planId], CancelFrom(plan, i, except)) == goal
      {
        if !plan.steps[i].status.Succeeded? && i != except {
          ghost var rest := CancelFrom(plan, i + 1, except);
          ghost var w := SetStep(i, Cancelled);
          SplitFirst(plans[planId], w, rest, 1 + |rest|);
          assert ([w] + rest)[..1 + |rest|] == [w] + rest && rest[..|rest|] == rest;
          Write(planId, SetStep(i, Cancelled));
        } else {
          assert [] + CancelFrom(plan, i + 1, except) == CancelFrom(plan, i + 1, except);
        }
      }
      assert plans[planId] == goal;
      WriteAppend(was[planId], CancelFrom(plan, 0, except), [SetPlan(final)]);
      ShortEffect(goal, [SetPlan(final)]);
      Write(planId, SetPlan(final));
    }

    /** The step in hand succeeded although the plan is being cancelled: what is left
        is cancelled, and a plan with nothing left has succeeded. */
    method CancelAfterStep(planId: string, p: nat)
      requires planId in plans
      modifies this`plans
      ensures plans == old(plans)[planId := WriteAll(old(plans)[planId],
                         [SetStep(p, RunStatus.Succeeded)] + CancelFrom(old(plans)[planId], 0, p) +
                         [SetPlan(if OthersSucceeded(old(plans)[planId], p) then RunStatus.Succeeded else Cancelled)])]
    {
      var plan := plans[planId];
      var final := if OthersSucceeded(plan, p) then RunStatus.Succeeded else Cancelled;
      FirstThen(plan, SetStep(p, RunStatus.Succeeded), CancelFrom(plan, 0, p), [SetPlan(final)]);
      Write(planId, SetStep(p, RunStatus.Succeeded));
      CancelSteps(planId, plan, p, final);
    }

    method CancelPlan(planId: string, k: Answers)
      requires planId in plans && plans[planId].status.CancelRequested?
      modifies this`plans
      ensures plans == old(plans)[planId := Advance(old(plans)[planId], k)]
    {
      var plan := plans[planId];
      var p := NextStep(plan, 0);
      ShortWrites(plan, k);
      if p == |plan.steps| {
        Write(planId, SetPlan(RunStatus.Succeeded));
        return;
      }
      if plan.steps[p].runId.Some? {
        if k.cancel.Unavailable? || (k.cancel.Got? && k.status.Unavailable?) {
          Write(planId, SetPlan(RetryWait));
          return;
        }
        if k.cancel.RefusedCall? || k.status.RefusedCall? {
          Write(planId, SetPlan(RunStatus.Failed));
          return;
        }
        var status := k.status.value;
        if !Terminal(status) {
          Write(planId, SetStep(p, status));
          return;
        }
        if status.Succeeded? {
          CancelAfterStep(planId, p);
          return;
        }
        if !status.Cancelled? {
          Write(planId, SetStep(p, status));
          Write(planId, SetPlan(status));
          return;
        }
      }
      CancelSteps(planId, plan, |plan.steps|, Cancelled);
    }

    /** One observable transition of a plan, with the outage and error handlers of the
        cycle around it. */
    method AdvancePlan(planId: string, k: Answers)
      requires planId in plans
      modifies this`plans
      ensures plans == old(plans)[planId := Advance(old(plans)[planId], k)]
    {
      var plan := plans[planId];
      if plan.status.CancelRequested? {
        CancelPlan(planId, k);
        return;
      }
      ShortWrites(plan, k);
      var p := NextStep(plan, 0);
      if p == |plan.steps| {
        Write(planId, SetPlan(RunStatus.Succeeded));
      } else if plan.steps[p].runId.None? {
        if k.bound.Unavailable? || (k.bound == Got(true) && k.submit.Unavailable?) {
          Write(planId, SetPlan(RetryWait));
        } else if k.bound != Got(true) || k.submit.RefusedCall? {
          Write(planId, SetPlan(RunStatus.Failed));
        } else {
          Write(planId, Submitted(p, k.submit.value));
        }
      } else if k.status.Unavailable? {
        Write(planId, SetPlan(RetryWait));
      } else if k.status.RefusedCall? {
        Write(planId, SetPlan(RunStatus.Failed));
      } else {
        var status := k.status.value;
        Write(planId, SetStep(p, status));
        if Terminal(status) && (!status.Succeeded? || OthersSucceeded(plan, p)) {
          Write(planId, SetPlan(status));
        }
      }
    }

    /** Advance one plan of the cycle unless it is waiting for the kernel. */
    method CyclePlan(p: string, now: int, k: Answers) returns (progress: bool)
      requires p in plans
      modifies this`plans, this`retryAt
      ensures progress == Progresses(p, old(plans)[p], old(retryAt), now, k)
      ensures plans.Keys == old(plans).Keys
      ensures forall q :: q in plans && q != p ==> plans[q] == old(plans)[q] && SameRetry(q, old(retryAt), retryAt)
      ensures PlanCycled(p, old(plans)[p], plans[p], old(retryAt), retryAt, now, retryDelay, k)
    {
      if !ActivePlan(plans[p].status) || (p in retryAt && now < retryAt[p]) {
        return false;
      }
      var away, refused := Outage(plans[p], k), Refusal(plans[p], k);
      AdvancePlan(p, k);
      if away {
        retryAt := retryAt[p := now + retryDelay];
      } else if !refused {
        retryAt := retryAt - {p};
      }
      return !away;
    }

    /** The plan that comes `i`-th in a cycle that began with `was` and `wasRetry`. */
    method CycleNext(i: nat, now: int, answers: string -> Answers, ghost was: map<string, Plan>,
                     ghost wasRetry: map<string, int>, ghost counted: seq<string>) returns (progress: bool)
      requires Valid() && i < |order|
      requires CycledUpTo(was, plans, wasRetry, retryAt, order, i, now, retryDelay, answers)
      requires Counts(was, wasRetry, order, i, now, answers, counted)
      modifies this`plans, this`retryAt
      ensures Valid()
      ensures CycledUpTo(was, plans, wasRetry, retryAt, order, i + 1, now, retryDelay, answers)
      ensures Counts(was, wasRetry, order, i + 1, now, answers, if progress then counted + [order[i]] else counted)
    {
      ghost var plans0, retry0 := plans, retryAt;
      assert order[i] in order;
      progress := CyclePlan(order[i], now, answers(order[i]));
      CycledOneMore(was, plans0, plans, wasRetry, retry0, retryAt, order, i, now, retryDelay, answers);
      CountsOneMore(was, wasRetry, order, i, now, answers, counted);
    }

    /** One cycle: every active plan that is not waiting for the kernel advances once,
        oldest first; an outage sets its retry time and is not counted as progress, a refusal fails
        the plan and leaves its retry time. */
    method Cycle(now: int, answers: string -> Answers) returns (advanced: nat, ghost counted: seq<string>)
      requires Valid()
      modifies this`plans, this`retryAt
      ensures Valid() && CycledUpTo(old(plans), plans, old(retryAt), retryAt, order, |order|, now, retryDelay, answers)
      ensures advanced == |counted| && Counts(old(plans), old(retryAt), order, |order|, now, answers, counted)
    {
      ghost var was, wasRetry := plans, retryAt;
      advanced, counted := 0, [];
      for i := 0 to |order|
        invariant Valid() && CycledUpTo(was, plans, wasRetry, retryAt, order, i, now, retryDelay, answers)
        invariant advanced == |counted| && Counts(was, wasRetry, order, i, now, answers, counted)
      {
        var progress := CycleNext(i, now, answers, was, wasRetry, counted);
        if progress { advanced, counted := advanced + 1, counted + [order[i]]; }
      }
    }
  }

  lemma FirstThen(plan: Plan, w: Write, xs: seq<Write>, ys: seq<Write>)
    ensures WriteAll(plan, [w] + xs + ys) == WriteAll(Write1(plan, w), xs + ys)
  {
    var rest := xs + ys;
    SplitFirst(plan, w, rest, 1 + |rest|);
    assert ([w] + rest)[..1 + |rest|] == [w] + rest && rest[..|rest|] == rest;
    assert [w] + xs + ys == [w] + rest;
  }

  /** The one- and two-write cases of an advance, written out. */
  lemma ShortWrites(plan: Plan, k: Answers)
    ensures |Writes(plan, k)| <= 2 ==>
            var ws := Writes(plan, k);
            Advance(plan, k) == if |ws| == 0 then plan
                                else if |ws| == 1 then Write1(plan, ws[0])
                                else Write1(Write1(plan, ws[0]), ws[1])
  {
    if |Writes(plan, k)| <= 2 { ShortEffect(plan, Writes(plan, k)); }
  }
}
