/** The handlers that advance a cycle as far as they can, and what they answer when the client or the
    planner does not. */
module Handlers {
  import opened Wrappers
  import opened PlanningTypes
  import opened Workflow
  import opened Advance
  import WorkflowRuns
  import Ranking
  import Scenario_ = Scenario

  // ---- Nothing is left to do ------------------------------------------------------------------

  /** Once the baseline has its result there are plans, or none were to be had; all of them are
      submitted; and when the last one is in they are ranked. */
  predicate NothingLeft(c: Cycle) {
    c.baselineMetrics.Some? && c.status != Failed ==>
      && (c.plans == [] ==> c.status == Evaluated || c.error.Some?)
      && (forall i :: 0 <= i < |c.plans| ==> !Unsubmitted(c.plans[i]))
      && (AllInWithResult(c.plans) ==> AllRanked(c.plans))
  }

  predicate AllRanked(plans: seq<Plan>) {
    forall i :: 0 <= i < |plans| && plans[i].status == Evaluated && plans[i].metrics.Some? ==> plans[i].rank.Some?
  }

  lemma RankLeavesNothing(c: Cycle, limits: seq<(string, real)>)
    requires forall i :: 0 <= i < |c.plans| ==> !Unsubmitted(c.plans[i])
    ensures var d := Ranking.Rank(c, Some(limits));
      AllRanked(d.plans) && (forall i :: 0 <= i < |d.plans| ==> !Unsubmitted(d.plans[i])) && |d.plans| == |c.plans|
  {
    var d := Ranking.Rank(c, Some(limits));
    forall i | 0 <= i < |d.plans|
      ensures !Unsubmitted(d.plans[i])
      ensures d.plans[i].status == Evaluated && d.plans[i].metrics.Some? ==> d.plans[i].rank.Some?
    {
      assert d.plans[i] == Ranking.RankPlan(c.plans[i], Ranking.EntrySet(c.plans, limits), limits);
    }
  }

  lemma SettleLeavesNothing(c: Cycle, replies: seq<Reply>)
    requires Ranking.DistinctPlans(c.plans) && c.plans != [] && Settle(c, replies).result.Success?
    ensures NothingLeft(Settle(c, replies).result.value)
  {
    assert Ids(c.plans)[0..] == Ids(c.plans);
    LoopFrom(c, 0, replies);
    RankedIffAllIn(c, replies);
    var d := AdvancePlans(c, Ids(c.plans), replies).result.value;
    RankLeavesNothing(d, d.constraints);
  }

  lemma ProposeLeavesNothing(c: Cycle, replies: seq<Reply>)
    requires Ranking.DistinctPlans(c.plans) && GoodReplies(replies) && ProposeAndSettle(c, replies).result.Success?
    ensures NothingLeft(ProposeAndSettle(c, replies).result.value)
  {
    if c.plans != [] {
      SettleLeavesNothing(c, replies);
    } else {
      var p := ProposePlans(c, if c.objectives != [] then c.objectives else DEFAULT_OBJECTIVES, c.constraints, replies);
      if p.result.Success? && p.result.value.plans != [] {
        assert p.result.value.plans == NewPlans(Next(replies).proposals.items);
        SettleLeavesNothing(p.result.value, p.rest);
      }
    }
  }

  lemma AdvanceLeavesNothing(c: Cycle, replies: seq<Reply>)
    requires Ranking.DistinctPlans(c.plans) && GoodReplies(replies) && Workflow.Advance(c, replies).result.Success?
    ensures NothingLeft(Workflow.Advance(c, replies).result.value)
  {
    var o := if c.baselineMetrics.None? && c.baselineRun.Some? then RefreshBaseline(c, replies)
             else Outcome(Success(c), [], replies);
    WorkflowRuns.DropRest(replies);
    WorkflowRuns.DropRest(Rest(replies));
    if o.result.value.status != Failed && o.result.value.baselineMetrics.Some? { ProposeLeavesNothing(o.result.value, o.rest); }
  }

  lemma AndAdvanceLeavesNothing(o: Outcome)
    requires AndAdvance(o).result.Success? && Ranking.DistinctPlans(o.result.value.plans) && GoodReplies(o.rest)
    ensures NothingLeft(AndAdvance(o).result.value)
  {
    AdvanceLeavesNothing(o.result.value, o.rest);
  }

  /** Submitting the baseline, refreshing it or a plan, and advancing go on as far as they can:
      whatever the client answers, a call that succeeds leaves nothing to do. */
  lemma HandlersLeaveNothing(env: Scenario_.Env, c: Cycle, op: Op)
    requires Ranking.DistinctPlans(c.plans) && GoodOp(op) && (op.PostBaseline? || op.PostAdvance? || op.PostPlanRefresh?)
    requires Handle(env, c, op).result.Success?
    ensures NothingLeft(Handle(env, c, op).result.value)
  {
    match op
    case PostBaseline(replies) =>
      WorkflowRuns.RepliesLeftAreGood(c, "", replies);
      AndAdvanceLeavesNothing(SubmitBaseline(c, replies));
    case PostAdvance(replies) => AdvanceLeavesNothing(c, replies);
    case PostPlanRefresh(id, replies) =>
      WorkflowRuns.RepliesLeftAreGood(c, id, replies);
      RefreshKeepsPlans(c, id, replies);
      AndAdvanceLeavesNothing(RefreshPlan(c, id, replies));
  }

  lemma RefreshKeepsPlans(c: Cycle, id: string, replies: seq<Reply>)
    requires Ranking.DistinctPlans(c.plans) && RefreshPlan(c, id, replies).result.Success?
    ensures Ranking.DistinctPlans(RefreshPlan(c, id, replies).result.value.plans)
  {
  }

  // ---- When there is no answer ----------------------------------------------------------------

  /** The call fails with this code. */
  predicate FailsWith(o: Outcome, code: string) { o.result == Failure(GatewayError(code)) }

  /** The code a reply of the wrong kind stands for. */
  function CodeOf(r: Reply): string {
    match r
    case Unavailable(code) => code
    case _ => "CLIENT_CONTRACT_ERROR"
  }

  lemma BaselineCallFails(c: Cycle, replies: seq<Reply>)
    requires c.baselineMetrics.None? && Truthy(c.baselineRun) && replies != []
    ensures !replies[0].Status? ==> FailsWith(RefreshBaseline(c, replies), CodeOf(replies[0]))
    ensures |replies| > 1 && replies[0].Status? && replies[0].run == Completed && !replies[1].Results? ==>
      FailsWith(RefreshBaseline(c, replies), CodeOf(replies[1]))
  {
  }

  lemma SubmissionFails(c: Cycle, replies: seq<Reply>)
    requires c.baselineRun.None? && replies != []
    ensures !replies[0].Context? ==> FailsWith(SubmitBaseline(c, replies), CodeOf(replies[0])) && SubmitBaseline(c, replies).events == []
    ensures replies[0].Context? && replies[0] != Context(c.scenario.contextVersion, c.scenario.stateVersion) ==>
      SubmitBaseline(c, replies).result == Failure(ValueError) && SubmitBaseline(c, replies).events == []
    ensures |replies| > 1 && replies[0] == Context(c.scenario.contextVersion, c.scenario.stateVersion) && !replies[1].Accepted? ==>
      FailsWith(SubmitBaseline(c, replies), CodeOf(replies[1])) && |SubmitBaseline(c, replies).events| == 1
  {
  }

  lemma PlanCallFails(c: Cycle, i: nat, replies: seq<Reply>)
    requires Ranking.DistinctPlans(c.plans) && i < |c.plans| && replies != []
    ensures !replies[0].Accepted? ==> FailsWith(SubmitPlan(c, c.plans[i].id, replies), CodeOf(replies[0]))
    ensures c.plans[i].metrics.None? && Truthy(c.plans[i].runId) && !replies[0].Status? ==>
      FailsWith(RefreshPlan(c, c.plans[i].id, replies), CodeOf(replies[0]))
  {
    FirstIndex(c.plans, i);
  }

  /** Without a run there is nothing to ask for; an empty identifier is no run. */
  lemma NoRunToRefresh(c: Cycle, i: nat, replies: seq<Reply>)
    requires Ranking.DistinctPlans(c.plans) && i < |c.plans|
    ensures c.baselineMetrics.None? && c.baselineRun in {None, Some("")} ==>
      RefreshBaseline(c, replies) == Outcome(Failure(ValueError), [], replies)
    ensures c.plans[i].metrics.None? && c.plans[i].runId in {None, Some("")} ==>
      RefreshPlan(c, c.plans[i].id, replies) == Outcome(Failure(ValueError), [], replies)
  {
    FirstIndex(c.plans, i);
  }

  /** Nor is it for a plan that there is not. */
  lemma UnknownPlan(c: Cycle, id: string, replies: seq<Reply>)
    requires forall i :: 0 <= i < |c.plans| ==> c.plans[i].id != id
    ensures SubmitPlan(c, id, replies) == Outcome(Failure(LookupError), [], replies)
    ensures RefreshPlan(c, id, replies) == Outcome(Failure(LookupError), [], replies)
  {
  }

  /** A baseline with its result is kept when no plans can be had for it: the cycle only takes the
      error code, and the call succeeds. */
  lemma NoPlansKeepBaseline(c: Cycle, replies: seq<Reply>)
    requires c.baselineMetrics.Some? && c.status != Failed && c.plans == [] && replies != []
    ensures !replies[0].Planner? ==>
      Workflow.Advance(c, replies).result == Success(c.(error := Some(CodeOf(replies[0]))))
    ensures replies[0].Planner? && replies[0].proposals.GatewayFailed? ==>
      Workflow.Advance(c, replies).result == Success(c.(error := Some(replies[0].proposals.reason)))
    ensures replies[0].Planner? && replies[0].proposals.Invalid? ==> Workflow.Advance(c, replies).result == Failure(ValueError)
    ensures replies[0].Planner? && replies[0].proposals.ProviderFailed? ==>
      Workflow.Advance(c, replies).result == Failure(ProviderError)
    ensures replies[0].Planner? && replies[0].proposals == Usable([]) ==>
      Workflow.Advance(c, replies).result.Success?
      && var d := Workflow.Advance(c, replies).result.value;
         d.plans == [] && d.status == Evaluated && d.error.None? && d.baselineMetrics == c.baselineMetrics
  {
  }

  /** Where nobody said what to plan for, the planner is asked for these three. */
  lemma DefaultObjectives(c: Cycle, items: seq<Proposal>, replies: seq<Reply>)
    requires c.baselineMetrics.Some? && c.status != Failed && c.plans == [] && items != []
    requires replies != [] && replies[0] == Planner(Usable(items)) && Ranking.DistinctPlans(NewPlans(items))
    ensures Workflow.Advance(c, replies).result.Success? ==>
      Workflow.Advance(c, replies).result.value.objectives
        == if c.objectives != [] then c.objectives
           else ["minimize late shipments", "minimize average delay", "minimize total cost"]
  {
    var p := ProposePlans(c, if c.objectives != [] then c.objectives else DEFAULT_OBJECTIVES, c.constraints, replies);
    var d := p.result.value;
    assert Ids(d.plans)[0..] == Ids(d.plans);
    LoopFrom(d, 0, p.rest);
  }
}
