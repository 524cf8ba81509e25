/** What the client was sent for a cycle and what it answered: every run of the cycle was accepted for
    its scenario and plan as they are stored, and every metric is one that the client reported for
    the run it belongs to. */
module Provenance {
  import opened Wrappers
  import opened Json
  import opened PlanningTypes
  import opened Workflow
  import WorkflowRuns
  import Ranking
  import Scenario_ = Scenario

  /** The client reported these results for the run. */
  predicate Reported(log: seq<Event>, run: string, metrics: Metrics) { ResultsReported(run, metrics) in log }

  /** The submission shows the scenario as it is. */
  predicate Shows(p: Payload, s: PlanningTypes.Scenario) {
    && p.contextVersion == s.contextVersion && p.stateVersion == s.stateVersion
    && p.disruptions == s.disruptions && p.active == s.active && p.signals == s.signals && p.probability == s.probability
  }

  predicate IsBaseline(e: Event, s: PlanningTypes.Scenario, run: string) {
    e.BaselineSubmitted? && e.run == Some(run) && Shows(e.payload, s)
  }

  /** The baseline was submitted with the scenario and answered with the run. */
  predicate BaselineAccepted(log: seq<Event>, s: PlanningTypes.Scenario, run: string) {
    exists i :: 0 <= i < |log| && IsBaseline(log[i], s, run)
  }

  /** What the submission of a plan has to say. */
  datatype Order = Order(plan: string, interventions: Json, baseline: Option<string>, scenario: PlanningTypes.Scenario)

  function OrderOf(c: Cycle, p: Plan): Order { Order(p.id, p.interventions, c.baselineRun, c.scenario) }

  predicate IsAcceptance(e: Event, w: Order, run: string) {
    && e.PlanSubmitted? && e.accepted == Some(run)
    && e.planId == w.plan && e.interventions == w.interventions && e.baseline == w.baseline && Shows(e.with_, w.scenario)
  }

  /** Such a submission was answered with this run. */
  predicate AcceptedFor(log: seq<Event>, w: Order, run: string) {
    exists i :: 0 <= i < |log| && IsAcceptance(log[i], w, run)
  }

  /** The plan's run was accepted for it, and its metrics were reported for such a run. */
  predicate Earned(w: Order, run: Option<string>, metrics: Option<Metrics>, log: seq<Event>) {
    && (run.Some? ==> AcceptedFor(log, w, run.value))
    && (metrics.Some? ==> HasReport(w, metrics.value, log))
  }

  predicate HasReport(w: Order, metrics: Metrics, log: seq<Event>) {
    exists i :: 0 <= i < |log| && log[i].ResultsReported? && log[i].reported == metrics && AcceptedFor(log, w, log[i].reportedRun)
  }

  predicate PlanEarned(c: Cycle, p: Plan, log: seq<Event>) { Earned(OrderOf(c, p), p.runId, p.metrics, log) }

  predicate Carried(c: Cycle, log: seq<Event>) {
    && (c.baselineRun.Some? ==> BaselineAccepted(log, c.scenario, c.baselineRun.value))
    && (c.baselineMetrics.Some? ==> c.baselineRun.Some? && Reported(log, c.baselineRun.value, c.baselineMetrics.value))
    && (c.plans != [] ==> c.baselineRun.Some?)
    && forall i :: 0 <= i < |c.plans| ==> PlanEarned(c, c.plans[i], log)
  }

  /** The operation keeps it. */
  predicate Carries(c: Cycle, log: seq<Event>, o: Outcome) {
    Carried(c, log + o.events) && (o.result.Success? ==> Carried(o.result.value, log + o.events))
  }

  lemma EarnedGrows(w: Order, run: Option<string>, metrics: Option<Metrics>, log: seq<Event>, more: seq<Event>)
    requires Earned(w, run, metrics, log)
    ensures Earned(w, run, metrics, log + more)
  {
    var after := log + more;
    assert forall i :: 0 <= i < |log| ==> after[i] == log[i];
    if run.Some? { AcceptanceGrows(log, more, w, run.value); }
    if metrics.Some? {
      var i :| 0 <= i < |log| && log[i].ResultsReported? && log[i].reported == metrics.value && AcceptedFor(log, w, log[i].reportedRun);
      AcceptanceGrows(log, more, w, log[i].reportedRun);
      assert after[i] == log[i];
    }
  }

  lemma AcceptanceGrows(log: seq<Event>, more: seq<Event>, w: Order, run: string)
    requires AcceptedFor(log, w, run)
    ensures AcceptedFor(log + more, w, run)
  {
    var i :| 0 <= i < |log| && IsAcceptance(log[i], w, run);
    assert (log + more)[i] == log[i];
  }

  lemma CarriedGrows(c: Cycle, log: seq<Event>, more: seq<Event>)
    requires Carried(c, log)
    ensures Carried(c, log + more)
  {
    if c.baselineRun.Some? {
      var i :| 0 <= i < |log| && IsBaseline(log[i], c.scenario, c.baselineRun.value);
      assert (log + more)[i] == log[i];
    }
    forall i | 0 <= i < |c.plans| ensures PlanEarned(c, c.plans[i], log + more) {
      EarnedGrows(OrderOf(c, c.plans[i]), c.plans[i].runId, c.plans[i].metrics, log, more);
    }
  }

  // ---- The service ----------------------------------------------------------------------------

  /** Reading the results of a finished baseline stores exactly those. */
  lemma RefreshBaselineStores(c: Cycle, replies: seq<Reply>)
    requires c.baselineMetrics.None? && RefreshBaseline(c, replies).result.Success?
    ensures var d := RefreshBaseline(c, replies).result.value;
      && Truthy(c.baselineRun) && |replies| > 0 && replies[0].Status?
      && (d.baselineMetrics.Some? <==> replies[0].run == Completed)
      && (replies[0].run == Completed ==>
            |replies| > 1 && replies[1].Results? && d.baselineMetrics == Some(replies[1].metrics) && d.status == Validated)
      && (replies[0].run == Broke ==>
            d.status == Failed
            && d.error == Some(if Truthy(replies[0].errorCode) then replies[0].errorCode.value else "SIMULATION_FAILED"))
      && (replies[0].run in {Queued, InProgress} ==> d == c.(status := Running))
    ensures var o, run := RefreshBaseline(c, replies), c.baselineRun.value;
      o.events == (if replies[0].run == Completed then [BaselineCompleted(run), ResultsReported(run, replies[1].metrics)] else [])
      && o.rest == replies[if replies[0].run == Completed then 2 else 1..]
  {
    assert |replies| > 1 ==> replies[1..][1..] == replies[2..];
  }

  /** And of a finished plan run. */
  lemma RefreshPlanStores(c: Cycle, i: nat, replies: seq<Reply>)
    requires Ranking.DistinctPlans(c.plans) && i < |c.plans| && c.plans[i].metrics.None?
    requires RefreshPlan(c, c.plans[i].id, replies).result.Success?
    ensures var d := RefreshPlan(c, c.plans[i].id, replies).result.value;
      && Truthy(c.plans[i].runId) && |replies| > 0 && replies[0].Status? && |d.plans| == |c.plans|
      && (forall k :: 0 <= k < |c.plans| && k != i ==> d.plans[k] == c.plans[k])
      && (replies[0].run == Completed ==>
            |replies| > 1 && replies[1].Results?
            && d.plans[i] == c.plans[i].(status := Evaluated, metrics := Some(replies[1].metrics)))
      && (replies[0].run == Broke ==> d.plans[i] == c.plans[i].(status := Failed))
      && (replies[0].run in {Queued, InProgress} ==> d == c)
    ensures var o := RefreshPlan(c, c.plans[i].id, replies);
      o.events == (if replies[0].run == Completed then [ResultsReported(c.plans[i].runId.value, replies[1].metrics)] else [])
      && o.rest == replies[if replies[0].run == Completed then 2 else 1..]
  {
    assert |replies| > 1 ==> replies[1..][1..] == replies[2..];
    FirstAt(c.plans, i);
  }

  /** Proposing takes a baseline with its result; the plans are then exactly the proposals, in their
      order and untouched, and objectives and constraints that were given replace the others. */
  lemma ProposalsStore(c: Cycle, objectives: seq<string>, constraints: seq<(string, real)>, replies: seq<Reply>)
    ensures var r := ProposePlans(c, objectives, constraints, replies).result;
      && (r.Success? <==>
            c.baselineMetrics.Some? && c.status != Failed && |replies| > 0 && replies[0].Planner? && replies[0].proposals.Usable?)
      && (r.Success? ==>
            var items, d := replies[0].proposals.items, r.value;
            && |d.plans| == |items|
            && (forall k :: 0 <= k < |items| ==>
                  && d.plans[k].id == items[k].planId && d.plans[k].proposalId == items[k].proposalId
                  && d.plans[k].interventions == items[k].interventions && d.plans[k].status == Validated
                  && d.plans[k].runId.None? && d.plans[k].metrics.None? && d.plans[k].rank.None? && d.plans[k].reasons == [])
            && (objectives != [] ==> d.objectives == objectives) && (objectives == [] ==> d.objectives == c.objectives)
            && (constraints != [] ==> d.constraints == constraints) && (constraints == [] ==> d.constraints == c.constraints)
            && d.error.None? && d == c.(plans := d.plans, objectives := d.objectives, constraints := d.constraints, error := None))
  {
  }

  /** Submitting the baseline takes an unchanged context and an answer; the run is the one the client
      named. */
  lemma SubmitBaselineStores(c: Cycle, replies: seq<Reply>)
    requires SubmitBaseline(c, replies).result.Success?
    ensures var d := SubmitBaseline(c, replies).result.value;
      && c.baselineRun.None? && |replies| > 1 && replies[1].Accepted?
      && replies[0] == Context(c.scenario.contextVersion, c.scenario.stateVersion)
      && (replies[1].status == Broke ==> d == c.(status := Failed, baselineRun := Some(replies[1].runId)))
      && (replies[1].status in {Queued, InProgress} ==> d == c.(status := Running, baselineRun := Some(replies[1].runId)))
      && (replies[1].status == Completed ==>
            RefreshBaseline(c.(status := Submitted, baselineRun := Some(replies[1].runId)), replies[2..]).result == Success(d))
  {
    assert Rest(replies) == replies[1..] && Rest(Rest(replies)) == replies[2..];
  }

  /** And so for a plan, of which everything but run and status stays as it was. */
  lemma SubmitPlanStores(c: Cycle, i: nat, replies: seq<Reply>)
    requires Ranking.DistinctPlans(c.plans) && i < |c.plans| && SubmitPlan(c, c.plans[i].id, replies).result.Success?
    ensures var d := SubmitPlan(c, c.plans[i].id, replies).result.value;
      && |replies| > 0 && replies[0].Accepted?
      && var sent := c.plans[i].(runId := Some(replies[0].runId));
         && (replies[0].status == Broke ==> d == c.(plans := c.plans[i := sent.(status := Failed)]))
         && (replies[0].status in {Queued, InProgress} ==> d == c.(plans := c.plans[i := sent.(status := Running)]))
         && (replies[0].status == Completed ==>
               RefreshPlan(c.(plans := c.plans[i := sent.(status := Running)]), c.plans[i].id, replies[1..]).result == Success(d))
  {
    FirstAt(c.plans, i);
  }

  lemma FirstAt(plans: seq<Plan>, i: nat)
    requires Ranking.DistinctPlans(plans) && i < |plans|
    ensures IndexOf(plans, plans[i].id) == Some(i)
  {
  }

  lemma RefreshBaselineCarries(c: Cycle, replies: seq<Reply>, log: seq<Event>)
    requires Carried(c, log)
    ensures Carries(c, log, RefreshBaseline(c, replies))
  {
    var o := RefreshBaseline(c, replies);
    CarriedGrows(c, log, o.events);
    if |o.events| == 2 { assert (log + o.events)[|log| + 1] == o.events[1]; }
  }

  lemma SubmitBaselineCarries(c: Cycle, replies: seq<Reply>, log: seq<Event>)
    requires Carried(c, log)
    ensures Carries(c, log, SubmitBaseline(c, replies))
  {
    var o := SubmitBaseline(c, replies);
    CarriedGrows(c, log, o.events);
    if o.events != [] {
      var reply, rest := Next(Rest(replies)), Rest(Rest(replies));
      var e := BaselineSubmitted(PayloadOf(c.scenario), RunOf(reply));
      CarriedGrows(c, log, [e]);
      assert (log + [e])[|log|] == e && (log + o.events)[|log|] == e;
      if reply.Accepted? && reply.status == Completed {
        var updated := c.(status := Submitted, baselineRun := Some(reply.runId));
        RefreshBaselineCarries(updated, rest, log + [e]);
        assert log + [e] + RefreshBaseline(updated, rest).events == log + o.events;
      }
    }
  }

  lemma PlansCarried(c: Cycle, d: Cycle, log: seq<Event>)
    requires Carried(c, log) && d.scenario == c.scenario
    requires d.baselineRun == c.baselineRun && d.baselineMetrics == c.baselineMetrics && (d.plans == [] <==> c.plans == [])
    requires forall i :: 0 <= i < |d.plans| ==> PlanEarned(c, d.plans[i], log)
    ensures Carried(d, log)
  {
  }

  lemma RefreshPlanCarries(c: Cycle, id: string, replies: seq<Reply>, log: seq<Event>)
    requires Carried(c, log)
    ensures Carries(c, log, RefreshPlan(c, id, replies))
  {
    var o := RefreshPlan(c, id, replies);
    CarriedGrows(c, log, o.events);
    if o.result.Success? && o.result.value != c {
      var k := IndexOf(c.plans, id).value;
      var p, q := c.plans[k], o.result.value.plans[k];
      assert PlanEarned(c, p, log + o.events);
      if o.events != [] {
        assert (log + o.events)[|log|] == o.events[0];
        assert HasReport(OrderOf(c, q), q.metrics.value, log + o.events);
      }
      PlansCarried(c, o.result.value, log + o.events);
    }
  }

  /** An answered submission of plan `k`, before its run is asked after. */
  lemma PlanSent(c: Cycle, k: nat, reply: Reply, status: Lifecycle, log: seq<Event>)
    requires Carried(c, log) && k < |c.plans| && reply.Accepted?
    ensures Carried(c.(plans := c.plans[k := c.plans[k].(runId := Some(reply.runId), status := status)]),
                    log + [SubmissionOf(c, c.plans[k], reply)])
  {
    var e := SubmissionOf(c, c.plans[k], reply);
    var submitted := c.plans[k].(runId := Some(reply.runId), status := status);
    var after := log + [e];
    CarriedGrows(c, log, [e]);
    assert PlanEarned(c, c.plans[k], after) && IsAcceptance(after[|log|], OrderOf(c, submitted), reply.runId);
    assert PlanEarned(c, submitted, after);
    PlansCarried(c, c.(plans := c.plans[k := submitted]), after);
  }

  lemma SubmitPlanCarries(c: Cycle, id: string, replies: seq<Reply>, log: seq<Event>)
    requires Carried(c, log)
    ensures Carries(c, log, SubmitPlan(c, id, replies))
  {
    var o := SubmitPlan(c, id, replies);
    CarriedGrows(c, log, o.events);
    if o.events != [] {
      var k, reply, rest := IndexOf(c.plans, id).value, Next(replies), Rest(replies);
      var e := SubmissionOf(c, c.plans[k], reply);
      if reply.Accepted? {
        var status := if reply.status == Broke then Failed else Running;
        var updated := c.(plans := c.plans[k := c.plans[k].(runId := Some(reply.runId), status := status)]);
        PlanSent(c, k, reply, status, log);
        if reply.status == Completed {
          RefreshPlanCarries(updated, id, rest, log + [e]);
          assert log + [e] + RefreshPlan(updated, id, rest).events == log + o.events;
        }
      }
    }
  }

  lemma ProposePlansCarries(c: Cycle, objectives: seq<string>, constraints: seq<(string, real)>, replies: seq<Reply>, log: seq<Event>)
    requires Carried(c, log)
    ensures Carries(c, log, ProposePlans(c, objectives, constraints, replies))
  {
    assert log + [] == log;
  }

  lemma RankCarries(c: Cycle, log: seq<Event>)
    requires Carried(c, log)
    ensures Carried(Ranking.Rank(c, None), log)
  {
    var d := Ranking.Rank(c, None);
    forall i | 0 <= i < |d.plans| ensures PlanEarned(d, d.plans[i], log) {
      assert PlanEarned(c, c.plans[i], log);
      SameRun(c, d, c.plans[i], d.plans[i], log);
    }
  }

  lemma SameRun(c: Cycle, d: Cycle, p: Plan, q: Plan, log: seq<Event>)
    requires PlanEarned(c, p, log) && d.scenario == c.scenario && d.baselineRun == c.baselineRun
    requires q.id == p.id && q.interventions == p.interventions && q.runId == p.runId && q.metrics == p.metrics
    ensures PlanEarned(d, q, log)
  {
  }

  lemma DecideCarries(c: Cycle, id: string, decision: Lifecycle, log: seq<Event>)
    requires Carried(c, log) && Decide(c, id, decision).Success?
    ensures Carried(Decide(c, id, decision).value, log)
  {
    var d, k := Decide(c, id, decision).value, IndexOf(c.plans, id).value;
    assert PlanEarned(c, c.plans[k], log);
    SameRun(c, d, c.plans[k], d.plans[k], log);
  }

  // ---- Every run --------------------------------------------------------------------------------

  /** Two steps after one another. */
  lemma Chain(c: Cycle, log: seq<Event>, first: Outcome)
    requires first.result.Success? && Carries(c, log, first)
    ensures forall second :: Carries(first.result.value, log + first.events, second) ==> Carries(c, log, Then(first.events, second))
  {
    forall second | Carries(first.result.value, log + first.events, second) ensures Carries(c, log, Then(first.events, second)) {
      assert log + first.events + second.events == log + (first.events + second.events);
      CarriedGrows(c, log + first.events, second.events);
    }
  }

  lemma NoEvents(c: Cycle, log: seq<Event>, d: Cycle, replies: seq<Reply>)
    requires Carried(c, log) && Carried(d, log)
    ensures Carries(c, log, Outcome(Success(d), [], replies))
  {
    assert log + [] == log;
  }

  lemma AdvancePlanCarries(c: Cycle, id: string, replies: seq<Reply>, log: seq<Event>)
    requires Carried(c, log)
    ensures Carries(c, log, AdvancePlan(c, id, replies))
  {
    SubmitPlanCarries(c, id, replies, log);
    RefreshPlanCarries(c, id, replies, log);
    assert log + [] == log;
  }

  lemma {:induction false} AdvancePlansCarries(c: Cycle, ids: seq<string>, replies: seq<Reply>, log: seq<Event>)
    requires Carried(c, log)
    ensures Carries(c, log, AdvancePlans(c, ids, replies))
    decreases |ids|
  {
    if ids == [] {
      NoEvents(c, log, c, replies);
    } else {
      var o := AdvancePlan(c, ids[0], replies);
      AdvancePlanCarries(c, ids[0], replies, log);
      if o.result.Success? {
        AdvancePlansCarries(o.result.value, ids[1..], o.rest, log + o.events);
        Chain(c, log, o);
      }
    }
  }

  lemma SettleCarries(c: Cycle, replies: seq<Reply>, log: seq<Event>)
    requires Carried(c, log)
    ensures Carries(c, log, Settle(c, replies))
  {
    var o := AdvancePlans(c, Ids(c.plans), replies);
    AdvancePlansCarries(c, Ids(c.plans), replies, log);
    if o.result.Success? { RankCarries(o.result.value, log + o.events); }
  }

  lemma ProposeAndSettleCarries(c: Cycle, replies: seq<Reply>, log: seq<Event>)
    requires Carried(c, log)
    ensures Carries(c, log, ProposeAndSettle(c, replies))
  {
    if c.plans != [] {
      SettleCarries(c, replies, log);
    } else {
      var objectives := if c.objectives != [] then c.objectives else DEFAULT_OBJECTIVES;
      var o := ProposePlans(c, objectives, c.constraints, replies);
      ProposePlansCarries(c, objectives, c.constraints, replies, log);
      if o.result.Success? && o.result.value.plans != [] {
        SettleCarries(o.result.value, o.rest, log + o.events);
        Chain(c, log, o);
      }
    }
  }

  lemma AdvanceCarries(c: Cycle, replies: seq<Reply>, log: seq<Event>)
    requires Carried(c, log)
    ensures Carries(c, log, Workflow.Advance(c, replies))
  {
    var o := if c.baselineMetrics.None? && c.baselineRun.Some? then RefreshBaseline(c, replies)
             else Outcome(Success(c), [], replies);
    RefreshBaselineCarries(c, replies, log);
    NoEvents(c, log, c, replies);
    if o.result.Success? {
      ProposeAndSettleCarries(o.result.value, o.rest, log + o.events);
      Chain(c, log, o);
    }
  }

  lemma AndAdvanceCarries(c: Cycle, o: Outcome, log: seq<Event>)
    requires Carries(c, log, o)
    ensures Carries(c, log, AndAdvance(o))
  {
    if o.result.Success? {
      AdvanceCarries(o.result.value, o.rest, log + o.events);
      Chain(c, log, o);
    }
  }

  lemma HandleCarries(env: Scenario_.Env, c: Cycle, op: Op, log: seq<Event>)
    requires Carried(c, log) && GoodOp(op)
    ensures Carries(c, log, Handle(env, c, op))
  {
    assert log + [] == log;
    match op
    case PostCreate(_) =>
    case SelectScenario(ids) => if Scenario_.Compose(env, c, ids).Success? { Scenario_.FrozenParts(env, c, ids); }
    case PostBaseline(replies) =>
      SubmitBaselineCarries(c, replies, log);
      AndAdvanceCarries(c, SubmitBaseline(c, replies), log);
    case PostAdvance(replies) => AdvanceCarries(c, replies, log);
    case PostProposals(objectives, constraints, replies) => ProposePlansCarries(c, objectives, constraints, replies, log);
    case PostPlan(id, replies) => SubmitPlanCarries(c, id, replies, log);
    case PostPlanRefresh(id, replies) =>
      RefreshPlanCarries(c, id, replies, log);
      AndAdvanceCarries(c, RefreshPlan(c, id, replies), log);
    case PostRank => RankCarries(c, log);
    case PostDecision(id, approve) =>
      var decision := if approve then Approved else Rejected;
      if Decide(c, id, decision).Success? { DecideCarries(c, id, decision, log); }
  }

  /** Over every run of the API: the baseline run was accepted for the scenario that is stored, part
      by part, and a plan's run for that plan with its interventions, the same scenario and the
      baseline run; the baseline metrics are what the client reported for the baseline run, and
      those of a plan what it reported for a run accepted for the plan. */
  lemma {:induction false} EveryRun(env: Scenario_.Env, s: State, calls: seq<(Op, bool)>)
    requires Carried(s.cycle, s.log) && WorkflowRuns.GoodCalls(calls)
    ensures Carried(Run(env, s, calls).cycle, Run(env, s, calls).log)
    decreases |calls|
  {
    if calls != [] {
      HandleCarries(env, s.cycle, calls[0].0, s.log);
      EveryRun(env, Call(env, s, calls[0].0, calls[0].1), calls[1..]);
    }
  }

  lemma DraftIsCarried(draft: Cycle, log: seq<Event>)
    requires Draft(draft)
    ensures Carried(draft, log)
  {
  }
}
