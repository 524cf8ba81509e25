/** What every run of the planning API keeps. */
module WorkflowRuns {
  import opened Wrappers
  import opened PlanningTypes
  import opened Workflow
  import Ranking
  import Scenario_ = Scenario

  // ---- The cycle ----------------------------------------------------------------------

  /** An evaluated, recommended or approved plan has been run, and a recommended or approved
      one came first and meets every hard constraint. A plan is rejected before its run or
      after it, never during it. */
  predicate GoodPlan(p: Plan, limits: seq<(string, real)>) {
    && p.status != Proposed && p.status != Submitted
    && (p.status == Validated ==> p.runId.None? && p.metrics.None?)
    && (p.status == Rejected ==> p.runId.None? || p.metrics.Some?)
    && (p.status in {Evaluated, Recommended, Approved} ==> Truthy(p.runId) && p.metrics.Some?)
    && (p.status in {Recommended, Approved} ==>
          p.rank == Some(1) && p.reasons == [] && p.metrics.Some? && Ranking.WithinAll(p.metrics.value, limits))
  }

  predicate GoodPlans(plans: seq<Plan>, limits: seq<(string, real)>) {
    Ranking.DistinctPlans(plans) && forall i :: 0 <= i < |plans| ==> GoodPlan(plans[i], limits)
  }

  predicate GoodCycle(c: Cycle) {
    && (c.plans != [] ==> c.baselineMetrics.Some?)
    && (c.baselineMetrics.Some? ==> Truthy(c.baselineRun))
    && GoodPlans(c.plans, c.constraints)
  }

  // ---- The log ------------------------------------------------------------------------

  /** A submission of this baseline was answered with this run before position `k`. */
  predicate SubmittedBefore(log: seq<Event>, payload: Payload, run: string, k: nat) {
    exists i :: 0 <= i < k && i < |log| && log[i] == BaselineSubmitted(payload, Some(run))
  }

  /** And the run was reported complete after that and before position `k`. */
  predicate CompletedBefore(log: seq<Event>, payload: Payload, run: string, k: nat) {
    exists j :: 0 <= j < k && j < |log| && log[j] == BaselineCompleted(run) && SubmittedBefore(log, payload, run, j)
  }

  /** Every intervention goes with the completed baseline it names, unchanged. */
  predicate GoodLog(log: seq<Event>) {
    forall k :: 0 <= k < |log| && log[k].PlanSubmitted? ==>
      log[k].baseline.Some? && CompletedBefore(log, log[k].with_, log[k].baseline.value, k)
  }

  predicate InLog(c: Cycle, log: seq<Event>) {
    && (c.baselineRun.Some? ==> SubmittedBefore(log, PayloadOf(c.scenario), c.baselineRun.value, |log|))
    && (c.baselineRun.Some? && c.baselineMetrics.Some? ==>
          CompletedBefore(log, PayloadOf(c.scenario), c.baselineRun.value, |log|))
  }

  predicate Good(c: Cycle, log: seq<Event>) { GoodCycle(c) && InLog(c, log) && GoodLog(log) }

  /** What an operation promises for a good cycle and log. */
  predicate Keeps(log: seq<Event>, o: Outcome) {
    GoodLog(log + o.events) && (o.result.Success? ==> Good(o.result.value, log + o.events))
  }

  lemma GrowKeeps(log: seq<Event>, more: seq<Event>, payload: Payload, run: string, k: nat)
    ensures SubmittedBefore(log, payload, run, k) ==> SubmittedBefore(log + more, payload, run, k)
    ensures CompletedBefore(log, payload, run, k) ==> CompletedBefore(log + more, payload, run, k)
  {
    assert forall i :: 0 <= i < |log| ==> (log + more)[i] == log[i];
    if CompletedBefore(log, payload, run, k) {
      var j :| 0 <= j < k && j < |log| && log[j] == BaselineCompleted(run) && SubmittedBefore(log, payload, run, j);
      assert (log + more)[j] == log[j] && SubmittedBefore(log + more, payload, run, j);
    }
  }

  lemma LaterToo(log: seq<Event>, payload: Payload, run: string, k: nat, l: nat)
    requires k <= l
    ensures SubmittedBefore(log, payload, run, k) ==> SubmittedBefore(log, payload, run, l)
    ensures CompletedBefore(log, payload, run, k) ==> CompletedBefore(log, payload, run, l)
  {
  }

  /** One more event that is no intervention, or one that goes with a completed baseline. */
  lemma LogGrows(log: seq<Event>, e: Event)
    requires GoodLog(log)
    requires e.PlanSubmitted? ==> e.baseline.Some? && CompletedBefore(log, e.with_, e.baseline.value, |log|)
    ensures GoodLog(log + [e])
  {
    var after := log + [e];
    forall k | 0 <= k < |after| && after[k].PlanSubmitted?
      ensures after[k].baseline.Some? && CompletedBefore(after, after[k].with_, after[k].baseline.value, k)
    {
      if k < |log| { assert after[k] == log[k]; }
      GrowKeeps(log, [e], after[k].with_, after[k].baseline.value, k);
    }
  }

  lemma InLogGrows(c: Cycle, log: seq<Event>, e: Event)
    requires InLog(c, log)
    ensures InLog(c, log + [e])
  {
    if c.baselineRun.Some? {
      var p, run := PayloadOf(c.scenario), c.baselineRun.value;
      GrowKeeps(log, [e], p, run, |log|);
      LaterToo(log + [e], p, run, |log|, |log| + 1);
    }
  }

  /** A report of results is neither a submission nor a completion. */
  lemma ReportGrows(c: Cycle, log: seq<Event>, e: Event)
    requires InLog(c, log) && GoodLog(log) && e.ResultsReported?
    ensures InLog(c, log + [e]) && GoodLog(log + [e])
  {
    LogGrows(log, e);
    InLogGrows(c, log, e);
  }

  /** The log predicates only look at the scenario and the baseline. */
  lemma SameBaseline(c: Cycle, d: Cycle, log: seq<Event>)
    requires InLog(c, log) && d.scenario == c.scenario && d.baselineRun == c.baselineRun
    requires d.baselineMetrics.Some? ==> c.baselineMetrics.Some?
    ensures InLog(d, log)
  {
  }

  lemma Nothing(log: seq<Event>)
    ensures log + [] == log
  {
  }

  // ---- Plans --------------------------------------------------------------------------

  lemma UpdateKeepsPlans(plans: seq<Plan>, limits: seq<(string, real)>, i: nat, p: Plan)
    requires GoodPlans(plans, limits) && i < |plans| && p.id == plans[i].id && GoodPlan(p, limits)
    ensures GoodPlans(plans[i := p], limits)
  {
  }

  lemma NewPlansAreGood(items: seq<Proposal>, limits: seq<(string, real)>)
    requires Ranking.DistinctPlans(NewPlans(items))
    ensures GoodPlans(NewPlans(items), limits)
  {
  }

  lemma RankKeepsPlans(plans: seq<Plan>, limits: seq<(string, real)>)
    requires GoodPlans(plans, limits)
    ensures GoodPlans(Ranking.RankPlans(plans, limits), limits)
  {
    var ranked := Ranking.RankPlans(plans, limits);
    forall i | 0 <= i < |plans| ensures GoodPlan(ranked[i], limits) && ranked[i].id == plans[i].id {
      if plans[i].metrics.Some? { Ranking.NoReasons(plans[i].metrics.value, limits); }
    }
  }

  // ---- The service --------------------------------------------------------------------

  lemma RefreshBaselineKeeps(c: Cycle, replies: seq<Reply>, log: seq<Event>)
    requires Good(c, log)
    ensures Keeps(log, RefreshBaseline(c, replies))
  {
    var o := RefreshBaseline(c, replies);
    Nothing(log);
    if o.events == [] {
      if o.result.Success? { SameBaseline(c, o.result.value, log); }
    } else {
      var run := c.baselineRun.value;
      LogGrows(log, BaselineCompleted(run));
      InLogGrows(c, log, BaselineCompleted(run));
      var after := log + [BaselineCompleted(run)];
      GrowKeeps(log, [BaselineCompleted(run)], PayloadOf(c.scenario), run, |log|);
      assert after[|log|] == BaselineCompleted(run);
      assert CompletedBefore(after, PayloadOf(c.scenario), run, |after|);
      if |o.events| == 1 {
        assert after == log + o.events;
      } else {
        var completed := c.(baselineMetrics := o.result.value.baselineMetrics);
        ReportGrows(completed, after, o.events[1]);
        assert after + [o.events[1]] == log + o.events;
        SameBaseline(completed, o.result.value, log + o.events);
      }
    }
  }

  lemma SubmitBaselineKeeps(c: Cycle, replies: seq<Reply>, log: seq<Event>)
    requires Good(c, log)
    ensures Keeps(log, SubmitBaseline(c, replies))
  {
    var o := SubmitBaseline(c, replies);
    Nothing(log);
    if o.events != [] {
      var reply, rest := Next(Rest(replies)), Rest(Rest(replies));
      var e := BaselineSubmitted(PayloadOf(c.scenario), RunOf(reply));
      LogGrows(log, e);
      var after := log + [e];
      if reply.Accepted? {
        var status := match reply.status case Broke => Failed case Completed => Submitted case _ => Running;
        var updated := c.(status := status, baselineRun := Some(reply.runId));
        assert after[|log|] == e;
        assert SubmittedBefore(after, PayloadOf(c.scenario), reply.runId, |after|);
        if reply.status == Completed {
          RefreshBaselineKeeps(updated, rest, after);
          assert log + o.events == after + RefreshBaseline(updated, rest).events;
        }
      }
    }
  }

  lemma ProposePlansKeeps(c: Cycle, objectives: seq<string>, constraints: seq<(string, real)>, replies: seq<Reply>, log: seq<Event>)
    requires Good(c, log) && GoodReplies(replies)
    ensures Keeps(log, ProposePlans(c, objectives, constraints, replies))
  {
    var o := ProposePlans(c, objectives, constraints, replies);
    Nothing(log);
    if o.result.Success? {
      assert Next(replies) == replies[0];
      NewPlansAreGood(replies[0].proposals.items, o.result.value.constraints);
      SameBaseline(c, o.result.value, log);
    }
  }

  lemma RefreshPlanKeeps(c: Cycle, id: string, replies: seq<Reply>, log: seq<Event>)
    requires Good(c, log)
    ensures Keeps(log, RefreshPlan(c, id, replies))
  {
    var o := RefreshPlan(c, id, replies);
    Nothing(log);
    if o.events != [] {
      ReportGrows(c, log, o.events[0]);
      assert o.events == [o.events[0]];
    }
    if o.result.Success? && o.result.value != c {
      var i := IndexOf(c.plans, id).value;
      UpdateKeepsPlans(c.plans, c.constraints, i, o.result.value.plans[i]);
      SameBaseline(c, o.result.value, log + o.events);
    }
  }

  lemma SubmitPlanKeeps(c: Cycle, id: string, replies: seq<Reply>, log: seq<Event>)
    requires Good(c, log)
    ensures Keeps(log, SubmitPlan(c, id, replies))
  {
    var o := SubmitPlan(c, id, replies);
    Nothing(log);
    if o.events != [] {
      var i, reply, rest := IndexOf(c.plans, id).value, Next(replies), Rest(replies);
      var plan := c.plans[i];
      var e := SubmissionOf(c, plan, reply);
      LogGrows(log, e);
      InLogGrows(c, log, e);
      if reply.Accepted? {
        var submitted := plan.(runId := Some(reply.runId), status := if reply.status == Broke then Failed else Running);
        var updated := c.(plans := c.plans[i := submitted]);
        UpdateKeepsPlans(c.plans, c.constraints, i, submitted);
        SameBaseline(c, updated, log + [e]);
        if reply.status == Completed {
          RefreshPlanKeeps(updated, id, rest, log + [e]);
          assert log + o.events == log + [e] + RefreshPlan(updated, id, rest).events;
        }
      }
    }
  }

  lemma DecideKeeps(c: Cycle, id: string, decision: Lifecycle, log: seq<Event>)
    requires Good(c, log) && Decide(c, id, decision).Success?
    ensures Good(Decide(c, id, decision).value, log)
  {
    var d, i := Decide(c, id, decision).value, IndexOf(c.plans, id).value;
    UpdateKeepsPlans(c.plans, c.constraints, i, d.plans[i]);
    SameBaseline(c, d, log);
  }

  lemma RankKeeps(c: Cycle, log: seq<Event>)
    requires Good(c, log)
    ensures Good(Ranking.Rank(c, None), log)
  {
    RankKeepsPlans(c.plans, c.constraints);
    SameBaseline(c, Ranking.Rank(c, None), log);
  }

  // ---- Advancing ----------------------------------------------------------------------

  /** Two steps after one another. */
  lemma Chain(log: seq<Event>, first: Outcome, second: Outcome)
    requires Keeps(log + first.events, second)
    ensures Keeps(log, Then(first.events, second))
  {
    assert log + (first.events + second.events) == log + first.events + second.events;
  }

  lemma AdvancePlanKeeps(c: Cycle, id: string, replies: seq<Reply>, log: seq<Event>)
    requires Good(c, log)
    ensures Keeps(log, AdvancePlan(c, id, replies))
  {
    Nothing(log);
    SubmitPlanKeeps(c, id, replies, log);
    RefreshPlanKeeps(c, id, replies, log);
  }

  lemma {:induction false} AdvancePlansKeeps(c: Cycle, ids: seq<string>, replies: seq<Reply>, log: seq<Event>)
    requires Good(c, log)
    ensures Keeps(log, AdvancePlans(c, ids, replies))
    decreases |ids|
  {
    Nothing(log);
    if ids != [] {
      var o := AdvancePlan(c, ids[0], replies);
      AdvancePlanKeeps(c, ids[0], replies, log);
      if o.result.Success? {
        AdvancePlansKeeps(o.result.value, ids[1..], o.rest, log + o.events);
        Chain(log, o, AdvancePlans(o.result.value, ids[1..], o.rest));
      }
    }
  }

  lemma SettleKeeps(c: Cycle, replies: seq<Reply>, log: seq<Event>)
    requires Good(c, log)
    ensures Keeps(log, Settle(c, replies))
  {
    var o := AdvancePlans(c, Ids(c.plans), replies);
    AdvancePlansKeeps(c, Ids(c.plans), replies, log);
    if o.result.Success? { RankKeeps(o.result.value, log + o.events); }
  }

  lemma ProposeAndSettleKeeps(c: Cycle, replies: seq<Reply>, log: seq<Event>)
    requires Good(c, log) && GoodReplies(replies)
    ensures Keeps(log, ProposeAndSettle(c, replies))
  {
    if c.plans != [] {
      SettleKeeps(c, replies, log);
    } else {
      var objectives := if c.objectives != [] then c.objectives else DEFAULT_OBJECTIVES;
      var o := ProposePlans(c, objectives, c.constraints, replies);
      ProposePlansKeeps(c, objectives, c.constraints, replies, log);
      Nothing(log);
      if o.result.Failure? {
        if o.result.error.GatewayError? { SameBaseline(c, c.(error := Some(o.result.error.code)), log); }
      } else if o.result.value.plans == [] {
        SameBaseline(o.result.value, o.result.value.(status := Evaluated), log);
      } else {
        SettleKeeps(o.result.value, o.rest, log + o.events);
        Chain(log, o, Settle(o.result.value, o.rest));
      }
    }
  }

  lemma DropRest(replies: seq<Reply>)
    requires GoodReplies(replies)
    ensures GoodReplies(Rest(replies))
  {
    assert forall i :: 0 <= i < |Rest(replies)| ==> Rest(replies)[i] == replies[i + 1];
  }

  lemma AdvanceKeeps(c: Cycle, replies: seq<Reply>, log: seq<Event>)
    requires Good(c, log) && GoodReplies(replies)
    ensures Keeps(log, Advance(c, replies))
  {
    var o := if c.baselineMetrics.None? && c.baselineRun.Some? then RefreshBaseline(c, replies)
             else Outcome(Success(c), [], replies);
    Nothing(log);
    RefreshBaselineKeeps(c, replies, log);
    DropRest(replies);
    DropRest(Rest(replies));
    if o.result.Success? && o.result.value.status != Failed && o.result.value.baselineMetrics.Some? {
      ProposeAndSettleKeeps(o.result.value, o.rest, log + o.events);
      Chain(log, o, ProposeAndSettle(o.result.value, o.rest));
    }
  }

  lemma AndAdvanceKeeps(o: Outcome, log: seq<Event>)
    requires Keeps(log, o) && GoodReplies(o.rest)
    ensures Keeps(log, AndAdvance(o))
  {
    if o.result.Success? {
      AdvanceKeeps(o.result.value, o.rest, log + o.events);
      Chain(log, o, Advance(o.result.value, o.rest));
    }
  }

  lemma RepliesLeftAreGood(c: Cycle, id: string, replies: seq<Reply>)
    requires GoodReplies(replies)
    ensures GoodReplies(SubmitBaseline(c, replies).rest) && GoodReplies(RefreshPlan(c, id, replies).rest)
  {
    DropRest(replies);
    DropRest(Rest(replies));
    DropRest(Rest(Rest(replies)));
    DropRest(Rest(Rest(Rest(replies))));
  }

  // ---- Runs ---------------------------------------------------------------------------

  lemma SelectKeeps(env: Scenario_.Env, c: Cycle, ids: seq<string>, log: seq<Event>)
    requires Good(c, log) && Scenario_.Compose(env, c, ids).Success?
    ensures Good(Scenario_.Compose(env, c, ids).value, log)
  {
    Scenario_.FrozenParts(env, c, ids);
  }

  lemma HandleKeeps(env: Scenario_.Env, c: Cycle, op: Op, log: seq<Event>)
    requires Good(c, log) && GoodOp(op)
    ensures Keeps(log, Handle(env, c, op))
  {
    Nothing(log);
    match op {
      case PostCreate(_) =>
      case SelectScenario(ids) =>
        if Scenario_.Compose(env, c, ids).Success? { SelectKeeps(env, c, ids, log); }
      case PostBaseline(replies) =>
        SubmitBaselineKeeps(c, replies, log);
        RepliesLeftAreGood(c, "", replies);
        AndAdvanceKeeps(SubmitBaseline(c, replies), log);
      case PostAdvance(replies) => AdvanceKeeps(c, replies, log);
      case PostProposals(objectives, constraints, replies) => ProposePlansKeeps(c, objectives, constraints, replies, log);
      case PostPlan(id, replies) => SubmitPlanKeeps(c, id, replies, log);
      case PostPlanRefresh(id, replies) =>
        RefreshPlanKeeps(c, id, replies, log);
        RepliesLeftAreGood(c, id, replies);
        AndAdvanceKeeps(RefreshPlan(c, id, replies), log);
      case PostRank => RankKeeps(c, log);
      case PostDecision(id, approve) =>
        var decision := if approve then Approved else Rejected;
        if Decide(c, id, decision).Success? { DecideKeeps(c, id, decision, log); }
    }
  }

  // ---- Baseline submissions -----------------------------------------------------------

  lemma {:induction false} BaselinesAdd(a: seq<Event>, b: seq<Event>)
    ensures Baselines(a + b) == Baselines(a) + Baselines(b)
  {
    if b == [] {
      assert a + b == a;
    } else {
      assert (a + b)[..|a + b| - 1] == a + b[..|b| - 1];
      BaselinesAdd(a, b[..|b| - 1]);
    }
  }

  /** A successful operation submits the baseline exactly when it gives the cycle its run. */
  predicate Counts(c: Cycle, o: Outcome) {
    o.result.Success? ==>
      Baselines(o.events) + Flag(c.baselineRun.Some?) == Flag(o.result.value.baselineRun.Some?)
  }

  lemma CountsChain(c: Cycle, first: Outcome, second: Outcome)
    requires Counts(c, first) && first.result.Success? && Counts(first.result.value, second)
    ensures Counts(c, Then(first.events, second))
  {
    BaselinesAdd(first.events, second.events);
  }

  lemma OneEvent(e: Event)
    ensures Baselines([e]) == Flag(e.BaselineSubmitted?) && Baselines([]) == 0
  {
    assert [e][..0] == [];
  }

  lemma RefreshesCount(c: Cycle, id: string, replies: seq<Reply>)
    ensures Counts(c, RefreshBaseline(c, replies)) && Counts(c, RefreshPlan(c, id, replies))
    ensures Baselines(RefreshPlan(c, id, replies).events) == 0
  {
    var baseline, plan := RefreshBaseline(c, replies), RefreshPlan(c, id, replies);
    if baseline.events != [] { OneEvent(baseline.events[0]); }
    if |baseline.events| == 2 {
      OneEvent(baseline.events[1]);
      BaselinesAdd([baseline.events[0]], [baseline.events[1]]);
    }
    if plan.events != [] {
      OneEvent(plan.events[0]);
      assert plan.events == [plan.events[0]];
    }
  }

  lemma SubmitPlanCounts(c: Cycle, id: string, replies: seq<Reply>)
    ensures Counts(c, SubmitPlan(c, id, replies))
  {
    var i := IndexOf(c.plans, id);
    if i.Some? && Next(replies).Accepted? {
      var e := SubmissionOf(c, c.plans[i.value], Next(replies));
      var submitted := SubmitPlan(c, id, replies);
      OneEvent(e);
      if Next(replies).status == Completed {
        var updated := c.(plans := c.plans[i.value := c.plans[i.value].(runId := Some(Next(replies).runId), status := Running)]);
        RefreshesCount(updated, id, Rest(replies));
        BaselinesAdd([e], RefreshPlan(updated, id, Rest(replies)).events);
      }
    }
  }

  lemma ServiceCounts(c: Cycle, id: string, replies: seq<Reply>)
    ensures Counts(c, RefreshBaseline(c, replies)) && Counts(c, RefreshPlan(c, id, replies)) && Counts(c, AdvancePlan(c, id, replies))
    ensures Counts(c, SubmitPlan(c, id, replies))
  {
    RefreshesCount(c, id, replies);
    SubmitPlanCounts(c, id, replies);
    OneEvent(BaselineCompleted(""));
  }

  lemma SubmitBaselineCounts(c: Cycle, replies: seq<Reply>)
    ensures Counts(c, SubmitBaseline(c, replies))
  {
    var o, reply, rest := SubmitBaseline(c, replies), Next(Rest(replies)), Rest(Rest(replies));
    if o.events != [] {
      OneEvent(BaselineSubmitted(PayloadOf(c.scenario), RunOf(reply)));
      if reply.Accepted? && reply.status == Completed {
        var updated := c.(status := Submitted, baselineRun := Some(reply.runId));
        ServiceCounts(updated, "", rest);
        BaselinesAdd([BaselineSubmitted(PayloadOf(c.scenario), RunOf(reply))], RefreshBaseline(updated, rest).events);
      }
    }
  }

  lemma {:induction false} AdvancePlansCounts(c: Cycle, ids: seq<string>, replies: seq<Reply>)
    ensures Counts(c, AdvancePlans(c, ids, replies))
    decreases |ids|
  {
    if ids != [] {
      var o := AdvancePlan(c, ids[0], replies);
      ServiceCounts(c, ids[0], replies);
      if o.result.Success? {
        AdvancePlansCounts(o.result.value, ids[1..], o.rest);
        CountsChain(c, o, AdvancePlans(o.result.value, ids[1..], o.rest));
      }
    }
  }

  lemma AdvanceCounts(c: Cycle, replies: seq<Reply>)
    ensures Counts(c, Advance(c, replies))
  {
    var o := if c.baselineMetrics.None? && c.baselineRun.Some? then RefreshBaseline(c, replies)
             else Outcome(Success(c), [], replies);
    ServiceCounts(c, "", replies);
    if o.result.Success? && o.result.value.status != Failed && o.result.value.baselineMetrics.Some? {
      ProposeAndSettleCounts(o.result.value, o.rest);
      CountsChain(c, o, ProposeAndSettle(o.result.value, o.rest));
    }
  }

  lemma SettleCounts(c: Cycle, replies: seq<Reply>)
    ensures Counts(c, Settle(c, replies))
  {
    AdvancePlansCounts(c, Ids(c.plans), replies);
  }

  lemma ProposeAndSettleCounts(c: Cycle, replies: seq<Reply>)
    ensures Counts(c, ProposeAndSettle(c, replies))
  {
    if c.plans != [] {
      SettleCounts(c, replies);
    } else {
      var o := ProposePlans(c, if c.objectives != [] then c.objectives else DEFAULT_OBJECTIVES, c.constraints, replies);
      if o.result.Success? && o.result.value.plans != [] {
        SettleCounts(o.result.value, o.rest);
        CountsChain(c, o, Settle(o.result.value, o.rest));
      }
    }
  }

  lemma AndAdvanceCounts(c: Cycle, o: Outcome)
    requires Counts(c, o)
    ensures Counts(c, AndAdvance(o))
  {
    if o.result.Success? {
      AdvanceCounts(o.result.value, o.rest);
      CountsChain(c, o, Advance(o.result.value, o.rest));
    }
  }

  lemma HandleCounts(env: Scenario_.Env, c: Cycle, op: Op)
    requires !Replaces(c, op)
    ensures Counts(c, Handle(env, c, op))
  {
    match op {
      case PostCreate(_) =>
      case SelectScenario(ids) => if Scenario_.Compose(env, c, ids).Success? { Scenario_.FrozenParts(env, c, ids); }
      case PostBaseline(replies) =>
        SubmitBaselineCounts(c, replies);
        AndAdvanceCounts(c, SubmitBaseline(c, replies));
      case PostAdvance(replies) => AdvanceCounts(c, replies);
      case PostProposals(_, _, _) =>
      case PostPlan(id, replies) => ServiceCounts(c, id, replies);
      case PostPlanRefresh(id, replies) =>
        ServiceCounts(c, id, replies);
        AndAdvanceCounts(c, RefreshPlan(c, id, replies));
      case PostRank =>
      case PostDecision(_, _) =>
    }
  }

  // ---- Every run ----------------------------------------------------------------------

  predicate GoodCalls(calls: seq<(Op, bool)>) { forall i :: 0 <= i < |calls| ==> GoodOp(calls[i].0) }

  ghost predicate Inv(s: State) {
    Good(s.cycle, s.log) && Baselines(s.log) == Flag(s.cycle.baselineRun.Some?) + s.lost + s.replaced
  }

  lemma CallKeepsInv(env: Scenario_.Env, s: State, op: Op, saved: bool)
    requires Inv(s) && GoodOp(op)
    ensures Inv(Call(env, s, op, saved))
  {
    var o := Handle(env, s.cycle, op);
    HandleKeeps(env, s.cycle, op, s.log);
    if !Replaces(s.cycle, op) { HandleCounts(env, s.cycle, op); }
    BaselinesAdd(s.log, o.events);
    if !(saved && o.result.Success?) && s.cycle.baselineRun.Some? {
      var p, run := PayloadOf(s.cycle.scenario), s.cycle.baselineRun.value;
      GrowKeeps(s.log, o.events, p, run, |s.log|);
      LaterToo(s.log + o.events, p, run, |s.log|, |s.log + o.events|);
    }
  }

  lemma {:induction false} RunKeepsInv(env: Scenario_.Env, s: State, calls: seq<(Op, bool)>)
    requires Inv(s) && GoodCalls(calls)
    ensures Inv(Run(env, s, calls))
    decreases |calls|
  {
    if calls != [] {
      CallKeepsInv(env, s, calls[0].0, calls[0].1);
      RunKeepsInv(env, Call(env, s, calls[0].0, calls[0].1), calls[1..]);
    }
  }

  /** Over every run of the API on a draft, failing and unsaved calls included: plans imply a
      completed baseline, evaluated plans have been run, recommended and approved ones came
      first within the constraints; every intervention names a completed baseline and carries
      its payload unchanged; and the client saw as many baselines as are stored, lost, or
      replaced by a new draft. */
  lemma EveryRun(env: Scenario_.Env, draft: Cycle, calls: seq<(Op, bool)>)
    requires Draft(draft) && GoodCalls(calls)
    ensures var t := Run(env, State(draft, [], 0, 0), calls);
      && GoodCycle(t.cycle) && GoodLog(t.log) && InLog(t.cycle, t.log)
      && Baselines(t.log) == Flag(t.cycle.baselineRun.Some?) + t.lost + t.replaced
  {
    RunKeepsInv(env, State(draft, [], 0, 0), calls);
  }

  /** Nothing is lost when every call that submits the baseline succeeds and is saved: then the
      baseline is submitted once for the cycle as stored and once for each replaced one. */
  lemma {:induction false} NothingLost(env: Scenario_.Env, s: State, calls: seq<(Op, bool)>)
    requires Inv(s) && GoodCalls(calls) && s.lost == 0 && AllStored(env, s, calls)
    ensures var t := Run(env, s, calls);
      t.lost == 0 && Baselines(t.log) == Flag(t.cycle.baselineRun.Some?) + t.replaced
    decreases |calls|
  {
    if calls != [] {
      CallKeepsInv(env, s, calls[0].0, calls[0].1);
      NothingLost(env, Call(env, s, calls[0].0, calls[0].1), calls[1..]);
    }
  }

  /** No call that submits the baseline fails afterwards or goes unsaved. */
  ghost predicate AllStored(env: Scenario_.Env, s: State, calls: seq<(Op, bool)>)
    decreases |calls|
  {
    calls == [] ||
    (var o := Handle(env, s.cycle, calls[0].0);
     && (Baselines(o.events) == 0 || (calls[0].1 && o.result.Success?))
     && AllStored(env, Call(env, s, calls[0].0, calls[0].1), calls[1..]))
  }

  lemma QueuedBaseline(env: Scenario_.Env, draft: Cycle, run: string)
    requires Draft(draft) && run != ""
    ensures var context := Context(draft.scenario.contextVersion, draft.scenario.stateVersion);
      var o := Handle(env, draft, PostBaseline([context, Accepted(run, Queued), Status(Queued, None)]));
      o.result.Success? && o.events == [BaselineSubmitted(PayloadOf(draft.scenario), Some(run))]
  {
    var context := Context(draft.scenario.contextVersion, draft.scenario.stateVersion);
    var replies := [context, Accepted(run, Queued), Status(Queued, None)];
    assert Rest(replies) == [Accepted(run, Queued), Status(Queued, None)] && Rest(Rest(replies)) == [Status(Queued, None)];
    var o := SubmitBaseline(draft, replies);
    assert o.result.Success? && o.events == [BaselineSubmitted(PayloadOf(draft.scenario), Some(run))];
    assert RefreshBaseline(o.result.value, [Status(Queued, None)]).events == [];
  }

  /** A submission whose answer never arrives leaves no trace in the stored cycle, so the next
      attempt submits the baseline a second time. */
  lemma LostAnswerSubmitsTwice(env: Scenario_.Env, draft: Cycle, run: string)
    requires Draft(draft) && run != ""
    ensures var context := Context(draft.scenario.contextVersion, draft.scenario.stateVersion);
      var calls := [(PostBaseline([context, Unavailable("CLIENT_TIMEOUT")]), true),
                    (PostBaseline([context, Accepted(run, Queued), Status(Queued, None)]), true)];
      Run(env, State(draft, [], 0, 0), calls).log
        == [BaselineSubmitted(PayloadOf(draft.scenario), None), BaselineSubmitted(PayloadOf(draft.scenario), Some(run))]
  {
    var context := Context(draft.scenario.contextVersion, draft.scenario.stateVersion);
    var first := (PostBaseline([context, Unavailable("CLIENT_TIMEOUT")]), true);
    var second := (PostBaseline([context, Accepted(run, Queued), Status(Queued, None)]), true);
    var s := State(draft, [], 0, 0);
    assert Rest([context, Unavailable("CLIENT_TIMEOUT")]) == [Unavailable("CLIENT_TIMEOUT")];
    var s1 := Call(env, s, first.0, true);
    assert s1.cycle == draft && s1.log == [BaselineSubmitted(PayloadOf(draft.scenario), None)];
    QueuedBaseline(env, draft, run);
    var s2 := Call(env, s1, second.0, true);
    assert [first, second][1..] == [second] && [second][1..] == [];
    assert Run(env, s1, [second]) == Run(env, s2, []);
  }
}
