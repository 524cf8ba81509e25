/** What the status of a stored cycle tells, and what never changes once it was submitted. */
module WorkflowStatus {
  import opened Wrappers
  import opened PlanningTypes
  import opened Workflow
  import WorkflowRuns
  import Ranking
  import Scenario_ = Scenario

  /** Every status but `Evaluated` tells the truth about the baseline. In particular no stored
      cycle is ever `Submitted`. */
  predicate Orderly(c: Cycle) {
    && (c.baselineMetrics.Some? ==> c.baselineRun.Some?)
    && (c.plans != [] ==> c.baselineMetrics.Some?)
    && match c.status
       case Proposed => c.baselineRun.None?
       case Submitted => false
       case Running => c.baselineRun.Some? && c.baselineMetrics.None?
       case Failed => c.baselineRun.Some? && c.baselineMetrics.None?
       case Validated => c.baselineMetrics.Some?
       case Evaluated => true
       case _ => c.baselineMetrics.Some?
  }

  /** The status tells the truth: `Evaluated`, too, means that the baseline has its result. */
  predicate Honest(c: Cycle) { Orderly(c) && (c.status == Evaluated ==> c.baselineMetrics.Some?) }

  /** What was submitted as the baseline stays as it was, and so does its result. */
  predicate Frozen(c: Cycle, d: Cycle) {
    && (c.baselineRun.Some? ==>
          && d.baselineRun == c.baselineRun && d.scenario == c.scenario
          && d.generated == c.generated && d.selected == c.selected)
    && (c.baselineMetrics.Some? ==> d.baselineMetrics == c.baselineMetrics)
    && d.id == c.id
  }

  predicate Continues(c: Cycle, d: Cycle) { Orderly(c) ==> Orderly(d) && Frozen(c, d) }

  predicate Follows(c: Cycle, d: Cycle) { Continues(c, d) && (Honest(c) ==> Honest(d)) }

  predicate Leads(c: Cycle, o: Outcome) { o.result.Success? ==> Follows(c, o.result.value) }

  // ---- The service --------------------------------------------------------------------

  /** Also from the state in which `submit_baseline` hands over. */
  lemma RefreshBaselineLeads(c: Cycle, replies: seq<Reply>)
    requires RefreshBaseline(c, replies).result.Success?
    ensures var d := RefreshBaseline(c, replies).result.value;
      && Follows(c, d)
      && (c.status == Submitted && c.baselineRun.Some? && c.baselineMetrics.None? && c.plans == [] ==>
            Honest(d) && Frozen(c, d))
  {
  }

  lemma SubmitBaselineLeads(c: Cycle, replies: seq<Reply>)
    ensures Leads(c, SubmitBaseline(c, replies))
  {
    if Orderly(c) && SubmitBaseline(c, replies).result.Success? {
      var reply, rest := Next(Rest(replies)), Rest(Rest(replies));
      if reply.status == Completed {
        RefreshBaselineLeads(c.(status := Submitted, baselineRun := Some(reply.runId)), rest);
      }
    }
  }

  lemma ProposePlansLeads(c: Cycle, objectives: seq<string>, constraints: seq<(string, real)>, replies: seq<Reply>)
    ensures Leads(c, ProposePlans(c, objectives, constraints, replies))
  {
  }

  lemma RefreshPlanLeads(c: Cycle, id: string, replies: seq<Reply>)
    ensures Leads(c, RefreshPlan(c, id, replies))
  {
  }

  lemma SubmitPlanLeads(c: Cycle, id: string, replies: seq<Reply>)
    ensures Leads(c, SubmitPlan(c, id, replies))
  {
    if SubmitPlan(c, id, replies).result.Success? {
      var i, reply := IndexOf(c.plans, id).value, Next(replies);
      var submitted := c.plans[i].(runId := Some(reply.runId), status := if reply.status == Broke then Failed else Running);
      var updated := c.(plans := c.plans[i := submitted]);
      assert Follows(c, updated);
      if reply.status == Completed {
        RefreshPlanLeads(updated, id, Rest(replies));
        FollowsOn(c, updated, RefreshPlan(updated, id, Rest(replies)).result.value);
      }
    }
  }

  lemma AdvancePlanLeads(c: Cycle, id: string, replies: seq<Reply>)
    ensures Leads(c, AdvancePlan(c, id, replies))
  {
    SubmitPlanLeads(c, id, replies);
    RefreshPlanLeads(c, id, replies);
  }

  lemma RankLeads(c: Cycle)
    requires c.plans != []
    ensures Follows(c, Ranking.Rank(c, None))
  {
  }

  lemma RankOfNothing(c: Cycle)
    requires c.plans == []
    ensures Continues(c, Ranking.Rank(c, None)) && Ranking.Rank(c, None).status == Evaluated
  {
    assert Ranking.RankPlans(c.plans, c.constraints) == [];
  }

  lemma DecideLeads(c: Cycle, id: string, decision: Lifecycle)
    requires Decide(c, id, decision).Success?
    ensures Follows(c, Decide(c, id, decision).value)
  {
  }

  lemma SelectLeads(env: Scenario_.Env, c: Cycle, ids: seq<string>)
    requires Scenario_.Compose(env, c, ids).Success?
    ensures Follows(c, Scenario_.Compose(env, c, ids).value)
  {
  }

  // ---- Advancing ----------------------------------------------------------------------

  lemma FollowsOn(c: Cycle, d: Cycle, e: Cycle)
    requires Follows(c, d) && Follows(d, e)
    ensures Follows(c, e)
  {
  }

  lemma {:induction false} AdvancePlansLeads(c: Cycle, ids: seq<string>, replies: seq<Reply>)
    ensures Leads(c, AdvancePlans(c, ids, replies))
    decreases |ids|
  {
    if ids != [] {
      var o := AdvancePlan(c, ids[0], replies);
      AdvancePlanLeads(c, ids[0], replies);
      if o.result.Success? { AdvancePlansLeads(o.result.value, ids[1..], o.rest); }
    }
  }

  lemma SettleLeads(c: Cycle, replies: seq<Reply>)
    ensures Leads(c, Settle(c, replies))
  {
    var o := AdvancePlans(c, Ids(c.plans), replies);
    AdvancePlansLeads(c, Ids(c.plans), replies);
    if o.result.Success? && ReadyToRank(o.result.value.plans) { RankLeads(o.result.value); }
  }

  lemma ProposeAndSettleLeads(c: Cycle, replies: seq<Reply>)
    ensures Leads(c, ProposeAndSettle(c, replies))
  {
    var objectives := if c.objectives != [] then c.objectives else DEFAULT_OBJECTIVES;
    var o := ProposePlans(c, objectives, c.constraints, replies);
    ProposePlansLeads(c, objectives, c.constraints, replies);
    SettleLeads(c, replies);
    if o.result.Success? { SettleLeads(o.result.value, o.rest); }
  }

  lemma AdvanceLeads(c: Cycle, replies: seq<Reply>)
    ensures Leads(c, Workflow.Advance(c, replies))
  {
    if c.baselineMetrics.None? && c.baselineRun.Some? {
      var o := RefreshBaseline(c, replies);
      if o.result.Success? {
        RefreshBaselineLeads(c, replies);
        ProposeAndSettleLeads(o.result.value, o.rest);
      }
    } else {
      ProposeAndSettleLeads(c, replies);
    }
  }

  lemma AndAdvanceLeads(c: Cycle, o: Outcome)
    requires Leads(c, o)
    ensures Leads(c, AndAdvance(o))
  {
    if o.result.Success? { AdvanceLeads(o.result.value, o.rest); }
  }

  // ---- Every run ----------------------------------------------------------------------

  /** Ranking is asked for before the baseline has its result. */
  predicate RanksEarly(c: Cycle, op: Op) { op.PostRank? && c.baselineMetrics.None? }

  lemma HandleLeads(env: Scenario_.Env, c: Cycle, op: Op)
    requires !Replaces(c, op) && Handle(env, c, op).result.Success?
    ensures var d := Handle(env, c, op).result.value;
      Continues(c, d) && (!RanksEarly(c, op) ==> Follows(c, d))
  {
    match op
    case PostCreate(_) =>
    case SelectScenario(ids) => SelectLeads(env, c, ids);
    case PostBaseline(replies) =>
      SubmitBaselineLeads(c, replies);
      AndAdvanceLeads(c, SubmitBaseline(c, replies));
    case PostAdvance(replies) => AdvanceLeads(c, replies);
    case PostProposals(objectives, constraints, replies) => ProposePlansLeads(c, objectives, constraints, replies);
    case PostPlan(id, replies) => SubmitPlanLeads(c, id, replies);
    case PostPlanRefresh(id, replies) =>
      RefreshPlanLeads(c, id, replies);
      AndAdvanceLeads(c, RefreshPlan(c, id, replies));
    case PostRank => if c.plans == [] { RankOfNothing(c); } else { RankLeads(c); }
    case PostDecision(id, approve) => DecideLeads(c, id, if approve then Approved else Rejected);
  }

  /** A call on an honest cycle leaves an honest one, unless it ranks before there is a result:
      then the cycle says `Evaluated`, and nothing was. */
  lemma HonestIff(env: Scenario_.Env, c: Cycle, op: Op)
    requires Honest(c) && GoodOp(op) && Handle(env, c, op).result.Success?
    ensures Honest(Handle(env, c, op).result.value) <==> !RanksEarly(c, op)
  {
    if RanksEarly(c, op) {
      RankOfNothing(c);
    } else if !Replaces(c, op) {
      HandleLeads(env, c, op);
    }
  }

  lemma CallStaysOrderly(env: Scenario_.Env, s: State, op: Op, saved: bool)
    requires Orderly(s.cycle) && GoodOp(op)
    ensures Orderly(Call(env, s, op, saved).cycle) && Call(env, s, op, saved).cycle.id == s.cycle.id
    ensures !(saved && Replaces(s.cycle, op)) ==> Frozen(s.cycle, Call(env, s, op, saved).cycle)
  {
    if !Replaces(s.cycle, op) && Handle(env, s.cycle, op).result.Success? { HandleLeads(env, s.cycle, op); }
  }

  /** The calls that replace a stored cycle with this identifier. */
  predicate Replacing(id: string, call: (Op, bool)) { call.1 && call.0.PostCreate? && call.0.draft.id == id }

  predicate NoneReplacing(id: string, calls: seq<(Op, bool)>) {
    forall i :: 0 <= i < |calls| ==> !Replacing(id, calls[i])
  }

  /** However many calls follow, saved or not: the cycle stays orderly, and up to the next create
      call for the same cycle a baseline that was stored as submitted stays with the scenario
      and the result it was stored with. */
  lemma {:induction false} EveryRun(env: Scenario_.Env, s: State, calls: seq<(Op, bool)>)
    requires Orderly(s.cycle) && WorkflowRuns.GoodCalls(calls)
    ensures Orderly(Run(env, s, calls).cycle)
    ensures NoneReplacing(s.cycle.id, calls) ==>
      Frozen(s.cycle, Run(env, s, calls).cycle) && Run(env, s, calls).replaced == s.replaced
    decreases |calls|
  {
    if calls != [] {
      var t := Call(env, s, calls[0].0, calls[0].1);
      CallStaysOrderly(env, s, calls[0].0, calls[0].1);
      EveryRun(env, t, calls[1..]);
      if NoneReplacing(s.cycle.id, calls) {
        assert !Replacing(s.cycle.id, calls[0]);
        FrozenOn(s.cycle, t.cycle, Run(env, s, calls).cycle);
      }
    }
  }

  lemma FrozenOn(c: Cycle, d: Cycle, e: Cycle)
    requires Frozen(c, d) && Frozen(d, e)
    ensures Frozen(c, e)
  {
  }

  /** No call that ranks early has its result stored. */
  ghost predicate NeverRanksEarly(env: Scenario_.Env, s: State, calls: seq<(Op, bool)>)
    decreases |calls|
  {
    calls == [] ||
    (!(calls[0].1 && RanksEarly(s.cycle, calls[0].0)) && NeverRanksEarly(env, Call(env, s, calls[0].0, calls[0].1), calls[1..]))
  }

  /** The cycle is honest now and after each of the calls. */
  ghost predicate AlwaysHonest(env: Scenario_.Env, s: State, calls: seq<(Op, bool)>)
    decreases |calls|
  {
    && Honest(s.cycle)
    && (calls == [] || AlwaysHonest(env, Call(env, s, calls[0].0, calls[0].1), calls[1..]))
  }

  /** Over every run: the status is true all along exactly if nothing is ranked early. */
  lemma {:induction false} AlwaysHonestIff(env: Scenario_.Env, s: State, calls: seq<(Op, bool)>)
    requires Honest(s.cycle) && WorkflowRuns.GoodCalls(calls)
    ensures AlwaysHonest(env, s, calls) <==> NeverRanksEarly(env, s, calls)
    decreases |calls|
  {
    if calls != [] {
      var op, saved := calls[0].0, calls[0].1;
      var t := Call(env, s, op, saved);
      if saved && Handle(env, s.cycle, op).result.Success? { HonestIff(env, s.cycle, op); }
      assert Honest(t.cycle) <==> !(saved && RanksEarly(s.cycle, op));
      if Honest(t.cycle) { AlwaysHonestIff(env, t, calls[1..]); }
    }
  }

  /** A draft that is ranked counts as evaluated although no baseline was ever submitted. */
  lemma RankedDraft(env: Scenario_.Env, draft: Cycle)
    requires Draft(draft)
    ensures var t := Run(env, State(draft, [], 0, 0), [(PostRank, true)]);
      Honest(draft) && t.cycle.status == Evaluated && t.cycle.baselineRun.None? && !Honest(t.cycle)
  {
    var s := State(draft, [], 0, 0);
    RankOfNothing(draft);
    HandleLeads(env, draft, PostRank);
    assert [(PostRank, true)][1..] == [];
    assert Run(env, s, [(PostRank, true)]) == Run(env, Call(env, s, PostRank, true), []);
  }

  /** And a failed or running baseline counts as evaluated. */
  lemma RankedFailure(env: Scenario_.Env, c: Cycle)
    requires Honest(c) && (c.status == Failed || c.status == Running)
    ensures var o := Handle(env, c, PostRank);
      o.result.Success? && o.result.value.status == Evaluated && o.result.value.baselineMetrics.None? && !Honest(o.result.value)
  {
    RankOfNothing(c);
    HandleLeads(env, c, PostRank);
  }

  /** A draft's baseline is submitted at most once when every submission is stored and the cycle
      is not created again. */
  lemma SubmittedAtMostOnce(env: Scenario_.Env, draft: Cycle, calls: seq<(Op, bool)>)
    requires Draft(draft) && WorkflowRuns.GoodCalls(calls)
    requires WorkflowRuns.AllStored(env, State(draft, [], 0, 0), calls) && NoneReplacing(draft.id, calls)
    ensures Baselines(Run(env, State(draft, [], 0, 0), calls).log) <= 1
  {
    WorkflowRuns.NothingLost(env, State(draft, [], 0, 0), calls);
    EveryRun(env, State(draft, [], 0, 0), calls);
  }

  /** A submission of the draft that the client queues. */
  function Submission(draft: Cycle, run: string): (Op, bool) {
    var context := Context(draft.scenario.contextVersion, draft.scenario.stateVersion);
    (PostBaseline([context, Accepted(run, Queued), Status(Queued, None)]), true)
  }

  lemma SubmissionIsStored(env: Scenario_.Env, s: State, run: string)
    requires Draft(s.cycle) && run != ""
    ensures var t := Call(env, s, Submission(s.cycle, run).0, true);
      && t.cycle.baselineRun.Some? && t.cycle.id == s.cycle.id && t.lost == s.lost && t.replaced == s.replaced
      && t.log == s.log + [BaselineSubmitted(PayloadOf(s.cycle.scenario), Some(run))]
  {
    var op := Submission(s.cycle, run).0;
    WorkflowRuns.QueuedBaseline(env, s.cycle, run);
    WorkflowRuns.OneEvent(BaselineSubmitted(PayloadOf(s.cycle.scenario), Some(run)));
    WorkflowRuns.HandleCounts(env, s.cycle, op);
    HandleLeads(env, s.cycle, op);
  }

  lemma ThreeCalls(env: Scenario_.Env, s: State, a: (Op, bool), b: (Op, bool), c: (Op, bool))
    ensures Run(env, s, [a, b, c]) == Call(env, Call(env, Call(env, s, a.0, a.1), b.0, b.1), c.0, c.1)
  {
    var s1 := Call(env, s, a.0, a.1);
    var s2 := Call(env, s1, b.0, b.1);
    assert [a, b, c][1..] == [b, c] && [b, c][1..] == [c] && [c][1..] == [];
    assert Run(env, s1, [b, c]) == Run(env, s2, [c]) == Run(env, Call(env, s2, c.0, c.1), []);
  }

  /** Creating the cycle again discards a submission that was stored, and the baseline is
      submitted a second time although no answer and no save was lost. */
  lemma CreatingAgainSubmitsTwice(env: Scenario_.Env, draft: Cycle, run: string)
    requires Draft(draft) && run != ""
    ensures var submit := Submission(draft, run);
      var t := Run(env, State(draft, [], 0, 0), [submit, (PostCreate(draft), true), submit]);
      Baselines(t.log) == 2 && t.lost == 0 && t.replaced == 1
  {
    var submit, again := Submission(draft, run), (PostCreate(draft), true);
    var s, e := State(draft, [], 0, 0), BaselineSubmitted(PayloadOf(draft.scenario), Some(run));
    SubmissionIsStored(env, s, run);
    SubmissionIsStored(env, State(draft, [e], 0, 1), run);
    ThreeCalls(env, s, submit, again, submit);
    WorkflowRuns.OneEvent(e);
    WorkflowRuns.BaselinesAdd([e], [e]);
  }
}
