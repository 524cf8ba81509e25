/** The automatic advance of `_advance_to_approval`: its loop, what it does to each plan, and
    where repeated advances end. */
module Advance {
  import opened Wrappers
  import opened PlanningTypes
  import opened Workflow
  import Ranking
  import Scenario_ = Scenario

  // ---- The handler's loop -------------------------------------------------------------

  lemma ThenTwice(a: seq<Event>, b: seq<Event>, o: Outcome)
    ensures Then(a, Then(b, o)) == Then(a + b, o) && Then([], o) == o
  {
    assert a + (b + o.events) == a + b + o.events && [] + o.events == o.events;
  }

  /** `for plan in list(cycle.plans)`. */
  method AdvanceEachPlan(c: Cycle, replies: seq<Reply>) returns (o: Outcome)
    ensures o == AdvancePlans(c, Ids(c.plans), replies)
  {
    var plans, cycle, rest := c.plans, c, replies;
    var events: seq<Event> := [];
    var i := 0;
    ThenTwice([], [], AdvancePlans(c, Ids(plans), replies));
    assert Ids(plans)[0..] == Ids(plans);
    while i < |plans|
      invariant i <= |plans|
      invariant Then(events, AdvancePlans(cycle, Ids(plans)[i..], rest)) == AdvancePlans(c, Ids(c.plans), replies)
    {
      assert Ids(plans)[i..][0] == plans[i].id && Ids(plans)[i..][1..] == Ids(plans)[i + 1..];
      var index := IndexOf(cycle.plans, plans[i].id);
      if index.None? {
        assert events + [] == events;
        return Outcome(Failure(LookupError), events, rest);
      }
      var current := cycle.plans[index.value];
      var step := Outcome(Success(cycle), [], rest);
      if current.status == Validated && current.runId.None? {
        step := SubmitPlan(cycle, current.id, rest);
      } else if current.status == Running {
        step := RefreshPlan(cycle, current.id, rest);
      }
      assert step == AdvancePlan(cycle, plans[i].id, rest);
      if step.result.Failure? {
        return Outcome(step.result, events + step.events, step.rest);
      }
      ThenTwice(events, step.events, AdvancePlans(step.result.value, Ids(plans)[i + 1..], step.rest));
      cycle, events, rest := step.result.value, events + step.events, step.rest;
      i := i + 1;
    }
    assert events + [] == events;
    o := Outcome(Success(cycle), events, rest);
  }

  /** `_advance_to_approval`. */
  method AdvanceToApproval(c: Cycle, replies: seq<Reply>) returns (o: Outcome)
    ensures o == Workflow.Advance(c, replies)
  {
    var cycle, rest := c, replies;
    var events: seq<Event> := [];
    if cycle.baselineMetrics.None? && cycle.baselineRun.Some? {
      var refreshed := RefreshBaseline(cycle, rest);
      if refreshed.result.Failure? {
        return refreshed;
      }
      cycle, events, rest := refreshed.result.value, refreshed.events, refreshed.rest;
    }
    if cycle.status == Failed || cycle.baselineMetrics.None? {
      return Outcome(Success(cycle), events, rest);
    }
    if cycle.plans == [] {
      var proposed := ProposePlans(cycle, if cycle.objectives != [] then cycle.objectives else DEFAULT_OBJECTIVES,
                                   cycle.constraints, rest);
      assert proposed.events == [];
      if proposed.result.Failure? && proposed.result.error.GatewayError? {
        assert events + [] == events;
        return Outcome(Success(cycle.(error := Some(proposed.result.error.code))), events, proposed.rest);
      }
      if proposed.result.Failure? {
        assert events + [] == events;
        return Outcome(proposed.result, events, proposed.rest);
      }
      cycle, rest := proposed.result.value, proposed.rest;
      if cycle.plans == [] {
        assert events + [] == events;
        return Outcome(Success(cycle.(status := Evaluated)), events, rest);
      }
      ThenTwice([], [], Settle(cycle, rest));
    }
    var advanced := AdvanceEachPlan(cycle, rest);
    if advanced.result.Failure? {
      return Outcome(advanced.result, events + advanced.events, advanced.rest);
    }
    cycle := advanced.result.value;
    if ReadyToRank(cycle.plans) {
      cycle := Ranking.Rank(cycle, None);
    }
    o := Outcome(Success(cycle), events + advanced.events, advanced.rest);
  }

  // ---- What an advance does to a plan -------------------------------------------------

  /** A plan that still has to be submitted. */
  predicate Unsubmitted(p: Plan) { p.status == Validated && p.runId.None? }

  /** A plan that was submitted again after it had been evaluated: it counts as running, and
      nothing asks after its run any more. */
  predicate Stuck(p: Plan) { p.status == Running && p.metrics.Some? }

  function Weight(p: Plan): nat { if Unsubmitted(p) then 2 else if p.status == Running then 1 else 0 }

  function Submissions(log: seq<Event>, id: string): nat {
    if log == [] then 0
    else Submissions(log[..|log| - 1], id) + (var e := log[|log| - 1]; if e.PlanSubmitted? && e.planId == id then 1 else 0)
  }

  lemma {:induction false} SubmissionsAdd(a: seq<Event>, b: seq<Event>, id: string)
    ensures Submissions(a + b, id) == Submissions(a, id) + Submissions(b, id)
  {
    if b == [] {
      assert a + b == a;
    } else {
      assert (a + b)[..|a + b| - 1] == a + b[..|b| - 1];
      SubmissionsAdd(a, b[..|b| - 1], id);
    }
  }

  /** One step of the loop on a plan: only plans with work left change, a submitted plan is
      never unsubmitted again, and weight does not rise. */
  predicate Stepped(before: Plan, after: Plan) {
    && after == before.(runId := after.runId, status := after.status, metrics := after.metrics)
    && (Weight(before) == 0 || Stuck(before) ==> after == before)
    && !Unsubmitted(after) && Weight(after) <= Weight(before)
    && (after.status in {Validated, Approved, Rejected, Recommended} ==> after == before)
  }

  lemma FirstIndex(plans: seq<Plan>, i: nat)
    requires Ranking.DistinctPlans(plans) && i < |plans|
    ensures IndexOf(plans, plans[i].id) == Some(i)
  {
    var r := IndexOf(plans, plans[i].id);
    assert plans[r.value].id == plans[i].id;
  }

  /** Of the cycle only plan `i` changes, by one step. */
  predicate StepsAt(before: Cycle, after: Cycle, i: nat)
    requires i < |before.plans|
  {
    && |after.plans| == |before.plans|
    && after == before.(plans := before.plans[i := after.plans[i]])
    && Stepped(before.plans[i], after.plans[i])
  }

  /** The report of results at the end of a step, if there is one. */
  function Reports(events: seq<Event>): seq<Event> {
    if events != [] && events[|events| - 1].ResultsReported? then [events[|events| - 1]] else []
  }

  lemma ReportsAreNoSubmissions(events: seq<Event>, id: string)
    ensures Submissions(Reports(events), id) == 0
  {
    if Reports(events) != [] { assert Reports(events)[..0] == []; }
  }

  lemma RefreshSteps(c: Cycle, i: nat, replies: seq<Reply>)
    requires Ranking.DistinctPlans(c.plans) && i < |c.plans| && c.plans[i].status == Running
    ensures var o := RefreshPlan(c, c.plans[i].id, replies);
      o.events == Reports(o.events) && (o.result.Success? ==> StepsAt(c, o.result.value, i))
  {
    FirstIndex(c.plans, i);
    assert c.plans[i := c.plans[i]] == c.plans;
  }

  lemma SubmitSteps(c: Cycle, i: nat, replies: seq<Reply>)
    requires Ranking.DistinctPlans(c.plans) && i < |c.plans| && Unsubmitted(c.plans[i])
    ensures var o := SubmitPlan(c, c.plans[i].id, replies);
      && o.events == [SubmissionOf(c, c.plans[i], Next(replies))] + Reports(o.events)
      && (o.result.Success? ==> StepsAt(c, o.result.value, i))
  {
    FirstIndex(c.plans, i);
    if Next(replies).Accepted? && Next(replies).status == Completed {
      var submitted := c.plans[i].(runId := Some(Next(replies).runId), status := Running);
      var updated := c.(plans := c.plans[i := submitted]);
      RefreshSteps(updated, i, Rest(replies));
      var r := RefreshPlan(updated, c.plans[i].id, Rest(replies)).result;
      if r.Success? {
        assert c.plans[i := submitted][i := r.value.plans[i]] == c.plans[i := r.value.plans[i]];
      }
    }
  }

  /** The step for plan `i`: nothing but that plan changes, and the client sees a submission of
      it exactly if it was unsubmitted. */
  lemma PlanSteps(c: Cycle, i: nat, replies: seq<Reply>)
    requires Ranking.DistinctPlans(c.plans) && i < |c.plans|
    ensures var o := AdvancePlan(c, c.plans[i].id, replies);
      && o.events == (if Unsubmitted(c.plans[i]) then [SubmissionOf(c, c.plans[i], Next(replies))] else []) + Reports(o.events)
      && (o.result.Success? ==> StepsAt(c, o.result.value, i))
  {
    FirstIndex(c.plans, i);
    assert c.plans[i := c.plans[i]] == c.plans;
    if c.plans[i].status == Running {
      RefreshSteps(c, i, replies);
    } else if Unsubmitted(c.plans[i]) {
      SubmitSteps(c, i, replies);
    }
  }

  // ---- What the loop does -------------------------------------------------------------

  /** The first `from` plans are as before, the others have made their step. */
  predicate LoopSteps(before: Cycle, after: Cycle, from: nat) {
    && |after.plans| == |before.plans| && after == before.(plans := after.plans)
    && forall k :: 0 <= k < |before.plans| ==>
         if k < from then after.plans[k] == before.plans[k] else Stepped(before.plans[k], after.plans[k])
  }

  lemma OneSubmission(e: Event, id: string)
    ensures Submissions([e], id) == Flag(e.PlanSubmitted? && e.planId == id) && Submissions([], id) == 0
  {
    assert [e][..0] == [];
  }

  lemma StepThenLoop(c: Cycle, d: Cycle, e: Cycle, from: nat)
    requires from < |c.plans| && StepsAt(c, d, from) && LoopSteps(d, e, from + 1)
    ensures LoopSteps(c, e, from)
  {
  }

  lemma StepKeepsIds(c: Cycle, d: Cycle, i: nat)
    requires Ranking.DistinctPlans(c.plans) && i < |c.plans| && StepsAt(c, d, i)
    ensures Ids(d.plans) == Ids(c.plans) && Ranking.DistinctPlans(d.plans)
  {
  }

  lemma LoopEnds(c: Cycle, replies: seq<Reply>)
    ensures AdvancePlans(c, Ids(c.plans)[|c.plans|..], replies) == Outcome(Success(c), [], replies)
  {
  }

  /** The rest of the loop, from plan `from` on: every remaining plan makes its step. */
  lemma {:induction false} LoopFrom(c: Cycle, from: nat, replies: seq<Reply>)
    requires Ranking.DistinctPlans(c.plans) && from <= |c.plans|
    ensures var o := AdvancePlans(c, Ids(c.plans)[from..], replies);
      o.result.Success? ==> LoopSteps(c, o.result.value, from)
    decreases |c.plans| - from
  {
    if from == |c.plans| {
      LoopEnds(c, replies);
    } else {
      var ids := Ids(c.plans)[from..];
      assert ids[0] == c.plans[from].id && ids[1..] == Ids(c.plans)[from + 1..];
      var first := AdvancePlan(c, ids[0], replies);
      PlanSteps(c, from, replies);
      if first.result.Success? {
        var d := first.result.value;
        StepKeepsIds(c, d, from);
        LoopFrom(d, from + 1, first.rest);
        var second := AdvancePlans(d, Ids(d.plans)[from + 1..], first.rest);
        if second.result.Success? { StepThenLoop(c, d, second.result.value, from); }
      }
    }
  }

  /** Plan `k` is submitted exactly if it is the one whose turn it is, and stays what it is if not. */
  predicate SubmitsInTurn(c: Cycle, o: Outcome, from: nat, k: nat)
    requires k < |c.plans|
  {
    && Submissions(o.events, c.plans[k].id) == Flag(from == k && Unsubmitted(c.plans[k]))
    && (o.result.Success? ==>
          && |o.result.value.plans| == |c.plans| && Ids(o.result.value.plans) == Ids(c.plans)
          && Ranking.DistinctPlans(o.result.value.plans)
          && o.result.value.plans[k].id == c.plans[k].id && (k != from ==> o.result.value.plans[k] == c.plans[k]))
  }

  lemma StepSubmits(c: Cycle, from: nat, replies: seq<Reply>, k: nat)
    requires Ranking.DistinctPlans(c.plans) && from < |c.plans| && k < |c.plans|
    ensures SubmitsInTurn(c, AdvancePlan(c, c.plans[from].id, replies), from, k)
  {
    var o := AdvancePlan(c, c.plans[from].id, replies);
    PlanSteps(c, from, replies);
    OneSubmission(SubmissionOf(c, c.plans[from], Next(replies)), c.plans[k].id);
    ReportsAreNoSubmissions(o.events, c.plans[k].id);
    SubmissionsAdd(if Unsubmitted(c.plans[from]) then [SubmissionOf(c, c.plans[from], Next(replies))] else [],
                   Reports(o.events), c.plans[k].id);
    if o.result.Success? { StepKeepsIds(c, o.result.value, from); }
  }

  /** From plan `from` on, plan `k` is submitted exactly if it was unsubmitted. */
  predicate SubmitsRest(c: Cycle, o: Outcome, from: nat, k: nat)
    requires k < |c.plans|
  {
    o.result.Success? ==> Submissions(o.events, c.plans[k].id) == Flag(from <= k && Unsubmitted(c.plans[k]))
  }

  lemma TurnThenRest(c: Cycle, first: Outcome, second: Outcome, from: nat, k: nat)
    requires k < |c.plans| && SubmitsInTurn(c, first, from, k) && first.result.Success?
    requires SubmitsRest(first.result.value, second, from + 1, k)
    ensures SubmitsRest(c, Then(first.events, second), from, k)
  {
    SubmissionsAdd(first.events, second.events, c.plans[k].id);
  }

  /** The loop takes one plan and goes on with the next. */
  lemma LoopUnfolds(c: Cycle, from: nat, replies: seq<Reply>, k: nat) returns (first: Outcome, second: Outcome)
    requires Ranking.DistinctPlans(c.plans) && from < |c.plans| && k < |c.plans|
    ensures SubmitsInTurn(c, first, from, k)
    ensures first.result.Success? ==>
      second == AdvancePlans(first.result.value, Ids(first.result.value.plans)[from + 1..], first.rest)
    ensures AdvancePlans(c, Ids(c.plans)[from..], replies) == if first.result.Failure? then first else Then(first.events, second)
  {
    var ids := Ids(c.plans)[from..];
    assert ids[0] == c.plans[from].id && ids[1..] == Ids(c.plans)[from + 1..];
    first := AdvancePlan(c, c.plans[from].id, replies);
    StepSubmits(c, from, replies, k);
    second := if first.result.Success? then AdvancePlans(first.result.value, ids[1..], first.rest) else first;
  }

  lemma FailsEarly(c: Cycle, o: Outcome, from: nat, k: nat)
    requires k < |c.plans| && o.result.Failure?
    ensures SubmitsRest(c, o, from, k)
  {
  }

  lemma {:induction false} LoopSubmits(c: Cycle, from: nat, replies: seq<Reply>, k: nat)
    requires Ranking.DistinctPlans(c.plans) && from <= |c.plans| && k < |c.plans|
    ensures SubmitsRest(c, AdvancePlans(c, Ids(c.plans)[from..], replies), from, k)
    decreases |c.plans| - from
  {
    if from == |c.plans| {
      LoopEnds(c, replies);
    } else {
      var first, second := LoopUnfolds(c, from, replies, k);
      if first.result.Failure? {
        FailsEarly(c, first, from, k);
      } else {
        LoopSubmits(first.result.value, from + 1, first.rest, k);
        TurnThenRest(c, first, second, from, k);
      }
    }
  }

  /** The cycle after a successful advance that had plans to look after. */
  predicate Advancing(c: Cycle) { c.baselineMetrics.Some? && c.status != Failed && c.plans != [] }

  /** A plan after an advance: its step, and then perhaps its rank. */
  predicate Moved(before: Plan, after: Plan) {
    && after.id == before.id && after.interventions == before.interventions
    && !Unsubmitted(after) && Weight(after) <= Weight(before)
    && (before.status in {Approved, Rejected} || Stuck(before) ==> after == before)
  }

  lemma RankMoves(before: Plan, p: Plan, entries: set<Ranking.Entry>, limits: seq<(string, real)>)
    requires Stepped(before, p)
    ensures Moved(before, Ranking.RankPlan(p, entries, limits))
  {
  }

  /** One successful advance: no plan is decided over, weights do not rise, and each plan is
      submitted exactly if it was unsubmitted, never to be unsubmitted again. */
  lemma AdvanceMoves(c: Cycle, replies: seq<Reply>, k: nat)
    requires Ranking.DistinctPlans(c.plans) && Advancing(c) && k < |c.plans|
    ensures var o := Workflow.Advance(c, replies);
      o.result.Success? ==>
        && |o.result.value.plans| == |c.plans| && Moved(c.plans[k], o.result.value.plans[k])
        && o.result.value.baselineMetrics == c.baselineMetrics && o.result.value.baselineRun == c.baselineRun
        && Submissions(o.events, c.plans[k].id) == Flag(Unsubmitted(c.plans[k]))
  {
    var o := AdvancePlans(c, Ids(c.plans), replies);
    assert Ids(c.plans)[0..] == Ids(c.plans);
    LoopFrom(c, 0, replies);
    LoopSubmits(c, 0, replies, k);
    ThenTwice([], [], Settle(c, replies));
    if o.result.Success? {
      RankMoves(c.plans[k], o.result.value.plans[k], Ranking.EntrySet(o.result.value.plans, c.constraints), c.constraints);
    }
  }

  // ---- Any sequence of advances -------------------------------------------------------

  /** The stored cycle, what the client saw, and the part of it that belongs to calls whose
      result was not stored. */
  datatype Record = Record(cycle: Cycle, log: seq<Event>, unstored: seq<Event>)

  function AdvanceOnce(r: Record, replies: seq<Reply>, saved: bool): Record {
    var o := Workflow.Advance(r.cycle, replies);
    if saved && o.result.Success? then Record(o.result.value, r.log + o.events, r.unstored)
    else Record(r.cycle, r.log + o.events, r.unstored + o.events)
  }

  function Advances(r: Record, calls: seq<(seq<Reply>, bool)>): Record
    decreases |calls|
  {
    if calls == [] then r else Advances(AdvanceOnce(r, calls[0].0, calls[0].1), calls[1..])
  }

  lemma AdvanceKeepsShape(c: Cycle, replies: seq<Reply>)
    requires Ranking.DistinctPlans(c.plans) && Advancing(c) && Workflow.Advance(c, replies).result.Success?
    ensures var d := Workflow.Advance(c, replies).result.value;
      && Advancing(d) && |d.plans| == |c.plans| && Ranking.DistinctPlans(d.plans)
      && forall k :: 0 <= k < |c.plans| ==> Moved(c.plans[k], d.plans[k])
  {
    var d := Workflow.Advance(c, replies).result.value;
    var o := AdvancePlans(c, Ids(c.plans), replies);
    forall k | 0 <= k < |c.plans| ensures |d.plans| == |c.plans| && Moved(c.plans[k], d.plans[k]) {
      AdvanceMoves(c, replies, k);
    }
    assert Ids(c.plans)[0..] == Ids(c.plans);
    LoopFrom(c, 0, replies);
    assert o.result.value.status == c.status;
  }

  /** Over any sequence of advances from a list of plans: the weight of a plan does not rise, a
      decided plan stays as it is, and a plan is submitted at most once, not counting the
      submissions of calls whose result was not stored. */
  lemma {:induction false} AnyAdvances(r: Record, calls: seq<(seq<Reply>, bool)>, k: nat)
    requires Ranking.DistinctPlans(r.cycle.plans) && Advancing(r.cycle) && k < |r.cycle.plans|
    ensures var t := Advances(r, calls);
      && |t.cycle.plans| == |r.cycle.plans|
      && (var before, after := r.cycle.plans[k], t.cycle.plans[k];
          && after.id == before.id && Weight(after) <= Weight(before)
          && (before.status in {Approved, Rejected} || Stuck(before) ==> after == before)
          && Submissions(t.log, before.id) + Submissions(r.unstored, before.id) + Flag(Unsubmitted(after))
             == Submissions(r.log, before.id) + Submissions(t.unstored, before.id) + Flag(Unsubmitted(before)))
    decreases |calls|
  {
    if calls != [] {
      var o, id := Workflow.Advance(r.cycle, calls[0].0), r.cycle.plans[k].id;
      var next := AdvanceOnce(r, calls[0].0, calls[0].1);
      SubmissionsAdd(r.log, o.events, id);
      SubmissionsAdd(r.unstored, o.events, id);
      if calls[0].1 && o.result.Success? {
        AdvanceMoves(r.cycle, calls[0].0, k);
        AdvanceKeepsShape(r.cycle, calls[0].0);
      }
      AnyAdvances(next, calls[1..], k);
    }
  }

  /** A freshly proposed plan list: submitted at most once each when every result is stored. */
  lemma FreshPlansSubmittedOnce(c: Cycle, calls: seq<(seq<Reply>, bool)>, k: nat)
    requires Ranking.DistinctPlans(c.plans) && Advancing(c) && k < |c.plans| && Unsubmitted(c.plans[k])
    ensures var t := Advances(Record(c, [], []), calls);
      && Submissions(t.log, c.plans[k].id) <= 1 + Submissions(t.unstored, c.plans[k].id)
      && (t.unstored == [] ==> Submissions(t.log, c.plans[k].id) <= 1)
  {
    AnyAdvances(Record(c, [], []), calls, k);
  }

  // ---- Where advances end -------------------------------------------------------------

  /** Every poll finds the run finished. */
  predicate TerminalPolls(replies: seq<Reply>) {
    forall i :: 0 <= i < |replies| && replies[i].Status? ==> replies[i].run in {Completed, Broke}
  }

  /** The advances that a plan can still use. */
  function Work(p: Plan): nat {
    if Unsubmitted(p) then 2 else if p.status == Running && p.metrics.None? then 1 else 0
  }

  lemma RestTerminal(replies: seq<Reply>)
    requires TerminalPolls(replies)
    ensures TerminalPolls(Rest(replies))
    ensures Next(replies).Status? ==> Next(replies).run in {Completed, Broke}
  {
    assert forall i :: 0 <= i < |Rest(replies)| ==> Rest(replies)[i] == replies[i + 1];
  }

  predicate Progressed(before: Plan, after: Plan) {
    && (Work(after) < Work(before) || Work(before) == 0 == Work(after))
    && (Stuck(before) ==> after == before)
    && (Stuck(after) ==> before.metrics.Some? && (before.status == Validated || Stuck(before)))
    && (after.status == Validated ==> after == before)
  }

  lemma RefreshFinishes(c: Cycle, i: nat, replies: seq<Reply>)
    requires Ranking.DistinctPlans(c.plans) && i < |c.plans| && c.plans[i].status == Running
    requires TerminalPolls(replies)
    ensures var o := RefreshPlan(c, c.plans[i].id, replies);
      && TerminalPolls(o.rest)
      && (o.result.Success? ==>
            && |o.result.value.plans| == |c.plans| && Progressed(c.plans[i], o.result.value.plans[i])
            && Work(o.result.value.plans[i]) == 0)
  {
    FirstIndex(c.plans, i);
    RestTerminal(replies);
    RestTerminal(Rest(replies));
  }

  lemma PlanProgresses(c: Cycle, i: nat, replies: seq<Reply>)
    requires Ranking.DistinctPlans(c.plans) && i < |c.plans| && TerminalPolls(replies)
    ensures var o := AdvancePlan(c, c.plans[i].id, replies);
      && TerminalPolls(o.rest)
      && (o.result.Success? ==> |o.result.value.plans| == |c.plans| && Progressed(c.plans[i], o.result.value.plans[i]))
  {
    FirstIndex(c.plans, i);
    RestTerminal(replies);
    if c.plans[i].status == Running {
      RefreshFinishes(c, i, replies);
    } else if Unsubmitted(c.plans[i]) && Next(replies).Accepted? && Next(replies).status == Completed {
      var submitted := c.plans[i].(runId := Some(Next(replies).runId), status := Running);
      RefreshFinishes(c.(plans := c.plans[i := submitted]), i, Rest(replies));
    }
  }

  lemma {:induction false} LoopProgresses(c: Cycle, from: nat, replies: seq<Reply>, k: nat)
    requires Ranking.DistinctPlans(c.plans) && from <= k < |c.plans| && TerminalPolls(replies)
    ensures var o := AdvancePlans(c, Ids(c.plans)[from..], replies);
      o.result.Success? ==> |o.result.value.plans| == |c.plans| && Progressed(c.plans[k], o.result.value.plans[k])
    decreases |c.plans| - from
  {
    var ids := Ids(c.plans)[from..];
    assert ids[0] == c.plans[from].id && ids[1..] == Ids(c.plans)[from + 1..];
    var first := AdvancePlan(c, ids[0], replies);
    PlanSteps(c, from, replies);
    PlanProgresses(c, from, replies);
    if first.result.Success? {
      var d := first.result.value;
      StepKeepsIds(c, d, from);
      if from < k {
        LoopProgresses(d, from + 1, first.rest, k);
      } else {
        LoopFrom(d, from + 1, first.rest);
      }
    }
  }

  lemma RankKeepsProgress(before: Plan, p: Plan, entries: set<Ranking.Entry>, limits: seq<(string, real)>)
    requires Progressed(before, p)
    ensures Progressed(before, Ranking.RankPlan(p, entries, limits))
  {
  }

  lemma AdvanceProgresses(c: Cycle, replies: seq<Reply>)
    requires Ranking.DistinctPlans(c.plans) && Advancing(c) && TerminalPolls(replies)
    requires Workflow.Advance(c, replies).result.Success?
    ensures var d := Workflow.Advance(c, replies).result.value;
      |d.plans| == |c.plans| && forall k :: 0 <= k < |c.plans| ==> Progressed(c.plans[k], d.plans[k])
  {
    var d := Workflow.Advance(c, replies).result.value;
    var o := AdvancePlans(c, Ids(c.plans), replies);
    assert Ids(c.plans)[0..] == Ids(c.plans);
    AdvanceKeepsShape(c, replies);
    forall k | 0 <= k < |c.plans| ensures Progressed(c.plans[k], d.plans[k]) {
      LoopProgresses(c, 0, replies, k);
      RankKeepsProgress(c.plans[k], o.result.value.plans[k], Ranking.EntrySet(o.result.value.plans, c.constraints), c.constraints);
    }
  }

  /** With no work left the loop asks the client nothing and changes nothing. */
  lemma {:induction false} IdleLoop(c: Cycle, from: nat, replies: seq<Reply>)
    requires Ranking.DistinctPlans(c.plans) && from <= |c.plans|
    requires forall k :: 0 <= k < |c.plans| ==> Work(c.plans[k]) == 0
    ensures AdvancePlans(c, Ids(c.plans)[from..], replies) == Outcome(Success(c), [], replies)
    decreases |c.plans| - from
  {
    if from < |c.plans| {
      var ids := Ids(c.plans)[from..];
      assert ids[0] == c.plans[from].id && ids[1..] == Ids(c.plans)[from + 1..];
      FirstIndex(c.plans, from);
      IdleLoop(c, from + 1, replies);
    } else {
      LoopEnds(c, replies);
    }
  }

  /** Every plan has its result or has failed, and there is a result. */
  predicate AllInWithResult(plans: seq<Plan>) {
    && (forall i :: 0 <= i < |plans| ==> plans[i].status == Evaluated || plans[i].status == Failed)
    && exists i :: 0 <= i < |plans| && plans[i].status == Evaluated
  }

  /** After the loop the plans are ranked, by the cycle's own constraints, exactly if that is so; in
      particular neither while one of them is running or decided over, nor when all have failed. */
  lemma RankedIffAllIn(c: Cycle, replies: seq<Reply>)
    requires AdvancePlans(c, Ids(c.plans), replies).result.Success?
    ensures var d := AdvancePlans(c, Ids(c.plans), replies).result.value;
      Settle(c, replies).result == Success(if AllInWithResult(d.plans) then Ranking.Rank(d, Some(d.constraints)) else d)
  {
  }

  /** Ranking settles: what it made of the plans it does not change when asked again. */
  lemma RankSettles(c: Cycle)
    ensures RankIfReady(RankIfReady(c)) == RankIfReady(c)
  {
    if ReadyToRank(c.plans) {
      var once := Ranking.RankPlans(c.plans, c.constraints);
      if ReadyToRank(once) {
        forall i | 0 <= i < |once|
          ensures once[i].status != Recommended && Ranking.Rankable(once[i]) == Ranking.Rankable(c.plans[i])
        {
        }
        RankedAgain(c.plans, c.constraints);
      }
    }
  }

  lemma RankedAgain(plans: seq<Plan>, limits: seq<(string, real)>)
    requires !Ranking.AnyRecommended(Ranking.RankPlans(plans, limits))
    ensures Ranking.RankPlans(Ranking.RankPlans(plans, limits), limits) == Ranking.RankPlans(plans, limits)
  {
    var once := Ranking.RankPlans(plans, limits);
    assert forall i :: 0 <= i < |once| ==> once[i].status != Recommended;
    assert Ranking.EntrySet(once, limits) == Ranking.EntrySet(plans, limits) by {
      forall i | 0 <= i < |plans|
        ensures Ranking.Rankable(once[i]) == Ranking.Rankable(plans[i])
        ensures Ranking.Rankable(plans[i]) ==> Ranking.EntryOf(once[i], limits) == Ranking.EntryOf(plans[i], limits)
      {
      }
      SameEntries(plans, once, limits);
    }
  }

  lemma SameEntries(plans: seq<Plan>, once: seq<Plan>, limits: seq<(string, real)>)
    requires |once| == |plans|
    requires forall i :: 0 <= i < |plans| ==> Ranking.Rankable(once[i]) == Ranking.Rankable(plans[i])
    requires forall i :: 0 <= i < |plans| && Ranking.Rankable(plans[i]) ==>
      Ranking.Rankable(once[i]) && Ranking.EntryOf(once[i], limits) == Ranking.EntryOf(plans[i], limits)
    ensures Ranking.EntrySet(once, limits) == Ranking.EntrySet(plans, limits)
  {
    forall e ensures e in Ranking.EntrySet(once, limits) <==> e in Ranking.EntrySet(plans, limits) {
      if e in Ranking.EntrySet(once, limits) {
        var p :| p in once && Ranking.Rankable(p) && Ranking.EntryOf(p, limits) == e;
        var i :| 0 <= i < |once| && once[i] == p;
        Ranking.EntryInSet(plans, limits, i);
      }
      if e in Ranking.EntrySet(plans, limits) {
        var p :| p in plans && Ranking.Rankable(p) && Ranking.EntryOf(p, limits) == e;
        var i :| 0 <= i < |plans| && plans[i] == p;
        Ranking.EntryInSet(once, limits, i);
      }
    }
  }

  /** The cycle after two advances with terminal polls. */
  predicate TwiceAdvanced(c: Cycle, first: seq<Reply>, second: seq<Reply>, d: Cycle) {
    && TerminalPolls(first) && TerminalPolls(second)
    && var one := Workflow.Advance(c, first).result;
       one.Success? && Workflow.Advance(one.value, second).result == Success(d)
  }

  lemma NoWorkLeft(c: Cycle, first: seq<Reply>, second: seq<Reply>, d: Cycle, k: nat)
    requires Ranking.DistinctPlans(c.plans) && Advancing(c) && TwiceAdvanced(c, first, second, d) && k < |c.plans|
    ensures |d.plans| == |c.plans| && Work(d.plans[k]) == 0
    ensures Stuck(c.plans[k]) ==> Stuck(d.plans[k])
    ensures Stuck(d.plans[k]) ==> c.plans[k].metrics.Some? && (c.plans[k].status == Validated || Stuck(c.plans[k]))
  {
    var one := Workflow.Advance(c, first).result.value;
    AdvanceKeepsShape(c, first);
    AdvanceProgresses(c, first);
    AdvanceProgresses(one, second);
    assert Progressed(c.plans[k], one.plans[k]) && Progressed(one.plans[k], d.plans[k]);
  }

  /** When every poll is terminal, two advances do all there is to do: whatever the client
      answers, a third asks it nothing and returns the cycle as it is. */
  lemma TwoAdvancesReachFixpoint(c: Cycle, first: seq<Reply>, second: seq<Reply>, d: Cycle, third: seq<Reply>)
    requires Ranking.DistinctPlans(c.plans) && Advancing(c) && TwiceAdvanced(c, first, second, d)
    ensures Workflow.Advance(d, third) == Outcome(Success(d), [], third)
  {
    var one := Workflow.Advance(c, first).result.value;
    AdvanceKeepsShape(c, first);
    AdvanceKeepsShape(one, second);
    forall k | 0 <= k < |d.plans| ensures Work(d.plans[k]) == 0 { NoWorkLeft(c, first, second, d, k); }
    IdleLoop(d, 0, third);
    assert Ids(d.plans)[0..] == Ids(d.plans);
    RankSettles(AdvancePlans(one, Ids(one.plans), second).result.value);
    ThenTwice([], [], Settle(d, third));
  }

  /** Which plans are left running then: those that were submitted again after an evaluation.
      As long as there is one, no later advance ranks the plans. */
  lemma StuckPlansStayRunning(c: Cycle, first: seq<Reply>, second: seq<Reply>, d: Cycle, k: nat)
    requires Ranking.DistinctPlans(c.plans) && Advancing(c) && TwiceAdvanced(c, first, second, d) && k < |c.plans|
    requires c.plans[k].status == Validated ==> c.plans[k].metrics.None?
    ensures |d.plans| == |c.plans| && (d.plans[k].status == Running <==> Stuck(c.plans[k]))
    ensures Stuck(c.plans[k]) ==> !ReadyToRank(d.plans)
  {
    NoWorkLeft(c, first, second, d, k);
  }

  /** Submitting an evaluated plan again gets it there, when the client queues the run. */
  lemma ResubmissionSticks(c: Cycle, k: nat, run: string)
    requires Ranking.DistinctPlans(c.plans) && k < |c.plans| && c.plans[k].metrics.Some?
    ensures var o := SubmitPlan(c, c.plans[k].id, [Accepted(run, Queued)]);
      && o.result.Success?
      && var d := o.result.value;
         && |d.plans| == |c.plans| && Stuck(d.plans[k]) && Ranking.DistinctPlans(d.plans)
         && (Advancing(c) ==> Advancing(d))
  {
    FirstIndex(c.plans, k);
  }

  predicate OnlyAdvances(calls: seq<(Op, bool)>) { forall i :: 0 <= i < |calls| ==> calls[i].0.PostAdvance? }

  lemma {:induction false} StuckThroughAdvances(env: Scenario_.Env, s: State, calls: seq<(Op, bool)>, k: nat)
    requires Ranking.DistinctPlans(s.cycle.plans) && Advancing(s.cycle) && k < |s.cycle.plans| && Stuck(s.cycle.plans[k])
    requires OnlyAdvances(calls)
    ensures var t := Run(env, s, calls);
      |t.cycle.plans| == |s.cycle.plans| && t.cycle.plans[k] == s.cycle.plans[k] && !ReadyToRank(t.cycle.plans)
    decreases |calls|
  {
    if calls != [] {
      var replies := calls[0].0.replies;
      var t := Call(env, s, calls[0].0, calls[0].1);
      if calls[0].1 && Workflow.Advance(s.cycle, replies).result.Success? {
        AdvanceMoves(s.cycle, replies, k);
        AdvanceKeepsShape(s.cycle, replies);
      }
      StuckThroughAdvances(env, t, calls[1..], k);
    }
  }

  /** A run that gets stuck: an evaluated plan is submitted again, and however often the cycle is
      advanced afterwards, whatever the client answers, the plan stays running and nothing is
      ranked. */
  lemma ResubmittedPlanIsStuck(env: Scenario_.Env, s: State, k: nat, run: string, advances: seq<(Op, bool)>)
    requires Ranking.DistinctPlans(s.cycle.plans) && Advancing(s.cycle) && k < |s.cycle.plans|
    requires s.cycle.plans[k].status == Evaluated && s.cycle.plans[k].metrics.Some? && OnlyAdvances(advances)
    ensures var again := (PostPlan(s.cycle.plans[k].id, [Accepted(run, Queued)]), true);
      var t := Run(env, s, [again] + advances);
      |t.cycle.plans| == |s.cycle.plans| && t.cycle.plans[k].status == Running && !ReadyToRank(t.cycle.plans)
  {
    var again := (PostPlan(s.cycle.plans[k].id, [Accepted(run, Queued)]), true);
    ResubmissionSticks(s.cycle, k, run);
    assert ([again] + advances)[1..] == advances;
    StuckThroughAdvances(env, Call(env, s, again.0, true), advances, k);
  }
}
