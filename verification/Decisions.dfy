/** A human decision stands: nothing the workflow does on its own alters a plan that was
    approved or rejected. */
module Decisions {
  import opened Wrappers
  import opened PlanningTypes
  import opened Workflow
  import opened WorkflowRuns
  import Advance_ = Advance
  import WorkflowStatus
  import Ranking
  import Scenario_ = Scenario

  /** What a decision takes, and all that it changes. */
  lemma DecisionTakesEffect(c: Cycle, i: nat, decision: Lifecycle)
    requires Ranking.DistinctPlans(c.plans) && i < |c.plans|
    ensures var r, was := Decide(c, c.plans[i].id, decision), c.plans[i].status;
      && (r.Success? <==>
            || (decision == Approved && (was == Recommended || was == Approved))
            || (decision == Rejected && was != Running && was != Failed))
      && (r.Failure? ==> r.error == ValueError)
      && (r.Success? ==>
            && r.value.plans == c.plans[i := c.plans[i].(status := decision)]
            && r.value == c.(plans := r.value.plans, status := r.value.status)
            && (decision == Approved || was == Recommended ==> r.value.status == decision)
            && (decision == Rejected && was != Recommended ==> r.value.status == c.status))
  {
    Advance_.FirstIndex(c.plans, i);
  }

  /** A decision on a plan the cycle does not have is refused. */
  lemma NoSuchPlan(c: Cycle, id: string, decision: Lifecycle)
    requires forall i :: 0 <= i < |c.plans| ==> c.plans[i].id != id
    ensures decision == Approved || decision == Rejected ==> Decide(c, id, decision) == Failure(LookupError)
    ensures decision != Approved && decision != Rejected ==> Decide(c, id, decision) == Failure(ValueError)
  {
  }

  predicate Decided(p: Plan) { p.status == Approved || p.status == Rejected }

  /** Calls that are not about this plan: neither is its cycle created again, nor is it replaced
      by new proposals, submitted again, or decided again. */
  predicate LeavesAlone(cycle: string, op: Op, id: string) {
    && (op.PostCreate? ==> op.draft.id != cycle)
    && !op.PostProposals?
    && (op.PostPlan? ==> op.planId != id)
    && (op.PostDecision? ==> op.planId != id)
  }

  predicate SoundCycle(c: Cycle) { GoodCycle(c) && WorkflowStatus.Orderly(c) }

  /** Plan `k` is the same in both. */
  predicate Stands(c: Cycle, d: Cycle, k: nat) {
    k < |c.plans| && |d.plans| == |c.plans| && d.plans[k] == c.plans[k]
  }

  predicate KeepsPlan(c: Cycle, o: Outcome, k: nat) { o.result.Success? ==> Stands(c, o.result.value, k) }

  lemma RefreshLeavesOthers(c: Cycle, id: string, replies: seq<Reply>, k: nat)
    requires k < |c.plans| && c.plans[k].id != id
    ensures KeepsPlan(c, RefreshPlan(c, id, replies), k)
  {
  }

  /** Asking after a decided plan's run finds its metrics there already, or no run at all. */
  lemma RefreshLeavesDecision(c: Cycle, id: string, replies: seq<Reply>, k: nat)
    requires GoodCycle(c) && k < |c.plans| && Decided(c.plans[k])
    ensures KeepsPlan(c, RefreshPlan(c, id, replies), k)
  {
    if c.plans[k].id == id {
      Advance_.FirstIndex(c.plans, k);
      assert GoodPlan(c.plans[k], c.constraints);
    } else {
      RefreshLeavesOthers(c, id, replies, k);
    }
  }

  lemma RefreshKeepsShape(c: Cycle, id: string, replies: seq<Reply>)
    requires Ranking.DistinctPlans(c.plans) && RefreshPlan(c, id, replies).result.Success?
    ensures var d := RefreshPlan(c, id, replies).result.value;
      Ranking.DistinctPlans(d.plans) && Advance_.Advancing(d) == Advance_.Advancing(c)
  {
  }

  lemma SubmitLeavesOthers(c: Cycle, id: string, replies: seq<Reply>, k: nat)
    requires k < |c.plans| && c.plans[k].id != id
    ensures KeepsPlan(c, SubmitPlan(c, id, replies), k)
  {
    if SubmitPlan(c, id, replies).result.Success? {
      var i, reply := IndexOf(c.plans, id).value, Next(replies);
      var submitted := c.plans[i].(runId := Some(reply.runId), status := if reply.status == Broke then Failed else Running);
      if reply.status == Completed {
        RefreshLeavesOthers(c.(plans := c.plans[i := submitted]), id, Rest(replies), k);
      }
    }
  }

  lemma RankLeavesDecision(c: Cycle, k: nat)
    requires k < |c.plans| && Decided(c.plans[k])
    ensures Stands(c, Ranking.Rank(c, None), k)
  {
  }

  lemma AdvanceLeavesDecision(c: Cycle, replies: seq<Reply>, k: nat)
    requires Ranking.DistinctPlans(c.plans) && Advance_.Advancing(c) && k < |c.plans| && Decided(c.plans[k])
    ensures KeepsPlan(c, Workflow.Advance(c, replies), k)
  {
    Advance_.AdvanceMoves(c, replies, k);
  }

  lemma HandleLeavesDecision(env: Scenario_.Env, c: Cycle, op: Op, k: nat)
    requires SoundCycle(c) && k < |c.plans| && Decided(c.plans[k]) && LeavesAlone(c.id, op, c.plans[k].id)
    ensures KeepsPlan(c, Handle(env, c, op), k)
  {
    match op
    case PostCreate(_) =>
    case SelectScenario(ids) =>
    case PostBaseline(replies) =>
    case PostAdvance(replies) => AdvanceLeavesDecision(c, replies, k);
    case PostPlan(id, replies) => SubmitLeavesOthers(c, id, replies, k);
    case PostPlanRefresh(id, replies) =>
      var o := RefreshPlan(c, id, replies);
      RefreshLeavesDecision(c, id, replies, k);
      if o.result.Success? {
        RefreshKeepsShape(c, id, replies);
        AdvanceLeavesDecision(o.result.value, o.rest, k);
      }
    case PostRank => RankLeavesDecision(c, k);
    case PostDecision(id, approve) =>
  }

  predicate AllLeaveAlone(cycle: string, calls: seq<(Op, bool)>, id: string) {
    forall i :: 0 <= i < |calls| && calls[i].1 ==> LeavesAlone(cycle, calls[i].0, id)
  }

  /** Over any run whose stored calls leave the plan alone, the decision stands. */
  lemma {:induction false} DecisionStands(env: Scenario_.Env, s: State, calls: seq<(Op, bool)>, k: nat)
    requires Inv(s) && WorkflowStatus.Orderly(s.cycle) && GoodCalls(calls)
    requires k < |s.cycle.plans| && Decided(s.cycle.plans[k]) && AllLeaveAlone(s.cycle.id, calls, s.cycle.plans[k].id)
    ensures Stands(s.cycle, Run(env, s, calls).cycle, k)
    decreases |calls|
  {
    if calls != [] {
      var op := calls[0].0;
      var t := Call(env, s, op, calls[0].1);
      if calls[0].1 { HandleLeavesDecision(env, s.cycle, op, k); }
      CallKeepsInv(env, s, op, calls[0].1);
      WorkflowStatus.CallStaysOrderly(env, s, op, calls[0].1);
      DecisionStands(env, t, calls[1..], k);
    }
  }
}
