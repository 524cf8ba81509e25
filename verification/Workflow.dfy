/** The planning workflow: what the service and the API handlers do to one cycle, with the
    client's simulation gateway as an arbitrary sequence of replies and a log of what was
    submitted to it. */
module Workflow {
  import opened Wrappers
  import opened Json
  import opened PlanningTypes
  import Ranking
  import Scenario_ = Scenario

  // ---- The gateway --------------------------------------------------------------------

  datatype RunStatus = Queued | InProgress | Completed | Broke

  datatype Proposal = Proposal(planId: string, proposalId: string, interventions: Json)

  /** What came of asking the planner: its validated proposals, or the kind of failure. */
  datatype Proposals = Usable(items: seq<Proposal>) | Invalid | GatewayFailed(reason: string) | ProviderFailed

  /** The answer to one gateway call. A call that gets no answer of its kind fails. */
  datatype Reply =
    | Unavailable(code: string)
    | Context(contextVersion: string, stateVersion: string)
    | Accepted(runId: string, status: RunStatus)
    | Status(run: RunStatus, errorCode: Option<string>)
    | Results(metrics: Metrics)
    | Planner(proposals: Proposals)

  function Next(replies: seq<Reply>): Reply { if replies == [] then Unavailable("CLIENT_UNAVAILABLE") else replies[0] }

  function Rest(replies: seq<Reply>): seq<Reply> { if replies == [] then [] else replies[1..] }

  /** What a submission carries of a scenario. */
  datatype Payload = Payload(
    contextVersion: string, stateVersion: string, disruptions: seq<Disruption>, active: seq<(string, Json)>,
    signals: seq<string>, probability: real)

  function PayloadOf(s: PlanningTypes.Scenario): Payload {
    Payload(s.contextVersion, s.stateVersion, s.disruptions, s.active, s.signals, s.probability)
  }

  /** What the client sees; `run` is the identifier it answered with, if its answer arrived. */
  datatype Event =
    | BaselineSubmitted(payload: Payload, run: Option<string>)
    | BaselineCompleted(completed: string)
    | ResultsReported(reportedRun: string, reported: Metrics)
    | PlanSubmitted(planId: string, baseline: Option<string>, with_: Payload, interventions: Json, accepted: Option<string>)

  /** The error code of a call that was not answered as it should. */
  function Fault(r: Reply): WorkflowError { GatewayError(if r.Unavailable? then r.code else "CLIENT_CONTRACT_ERROR") }

  datatype WorkflowError = GatewayError(code: string) | ValueError | LookupError | ProviderError

  datatype Outcome = Outcome(result: Result<Cycle, WorkflowError>, events: seq<Event>, rest: seq<Reply>)

  function Then(events: seq<Event>, o: Outcome): Outcome { o.(events := events + o.events) }

  function RunOf(r: Reply): Option<string> { if r.Accepted? then Some(r.runId) else None }

  predicate Truthy(s: Option<string>) { s.Some? && s.value != "" }

  // ---- The service --------------------------------------------------------------------

  /** `refresh_baseline`. */
  function RefreshBaseline(c: Cycle, replies: seq<Reply>): Outcome {
    if c.baselineMetrics.Some? then Outcome(Success(c), [], replies)
    else if !Truthy(c.baselineRun) then Outcome(Failure(ValueError), [], replies)
    else
      var status, rest := Next(replies), Rest(replies);
      if !status.Status? then Outcome(Failure(Fault(status)), [], rest)
      else
        match status.run
        case Broke =>
          Outcome(Success(c.(status := Failed,
                             error := Some(if Truthy(status.errorCode) then status.errorCode.value else "SIMULATION_FAILED"))),
                  [], rest)
        case Completed =>
          var events := [BaselineCompleted(c.baselineRun.value)];
          if !Next(rest).Results? then Outcome(Failure(Fault(Next(rest))), events, Rest(rest))
          else
            Outcome(Success(c.(status := Validated, baselineMetrics := Some(Next(rest).metrics))),
                    events + [ResultsReported(c.baselineRun.value, Next(rest).metrics)], Rest(rest))
        case _ => Outcome(Success(c.(status := Running)), [], rest)
  }

  /** `submit_baseline`. */
  function SubmitBaseline(c: Cycle, replies: seq<Reply>): Outcome {
    if c.baselineRun.Some? then Outcome(Failure(ValueError), [], replies)
    else
      var context, rest := Next(replies), Rest(replies);
      if !context.Context? then Outcome(Failure(Fault(context)), [], rest)
      else if context != Context(c.scenario.contextVersion, c.scenario.stateVersion) then Outcome(Failure(ValueError), [], rest)
      else
        var reply := Next(rest);
        var events := [BaselineSubmitted(PayloadOf(c.scenario), RunOf(reply))];
        if !reply.Accepted? then Outcome(Failure(Fault(reply)), events, Rest(rest))
        else
          var status := match reply.status
            case Broke => Failed
            case Completed => Submitted
            case _ => Running;
          var updated := c.(status := status, baselineRun := Some(reply.runId));
          if reply.status == Completed then Then(events, RefreshBaseline(updated, Rest(rest)))
          else Outcome(Success(updated), events, Rest(rest))
  }

  function NewPlan(p: Proposal): Plan {
    Plan(p.planId, p.proposalId, Validated, p.interventions, None, None, None, [])
  }

  function NewPlans(items: seq<Proposal>): seq<Plan> { seq(|items|, i requires 0 <= i < |items| => NewPlan(items[i])) }

  /** `propose_plans`, its effect on the cycle. */
  function ProposePlans(c: Cycle, objectives: seq<string>, constraints: seq<(string, real)>, replies: seq<Reply>): Outcome {
    if c.baselineMetrics.None? || c.status == Failed then Outcome(Failure(ValueError), [], replies)
    else
      var reply, rest := Next(replies), Rest(replies);
      if !reply.Planner? then Outcome(Failure(Fault(reply)), [], rest)
      else
        match reply.proposals
        case Invalid => Outcome(Failure(ValueError), [], rest)
        case GatewayFailed(reason) => Outcome(Failure(GatewayError(reason)), [], rest)
        case ProviderFailed => Outcome(Failure(ProviderError), [], rest)
        case Usable(items) =>
          Outcome(Success(c.(plans := NewPlans(items),
                             objectives := if objectives != [] then objectives else c.objectives,
                             constraints := if constraints != [] then constraints else c.constraints,
                             error := None)),
                  [], rest)
  }

  /** The first plan with that identifier. */
  function IndexOf(plans: seq<Plan>, id: string): (r: Option<nat>)
    ensures r.Some? ==> r.value < |plans| && plans[r.value].id == id
    ensures r.None? <==> forall i :: 0 <= i < |plans| ==> plans[i].id != id
  {
    if plans == [] then None
    else if plans[0].id == id then Some(0)
    else
      match IndexOf(plans[1..], id)
      case None => None
      case Some(i) => Some(i + 1)
  }

  /** `refresh_plan`. */
  function RefreshPlan(c: Cycle, id: string, replies: seq<Reply>): Outcome {
    var index := IndexOf(c.plans, id);
    if index.None? then Outcome(Failure(LookupError), [], replies)
    else
      var plan := c.plans[index.value];
      if plan.metrics.Some? then Outcome(Success(c), [], replies)
      else if !Truthy(plan.runId) then Outcome(Failure(ValueError), [], replies)
      else
        var status, rest := Next(replies), Rest(replies);
        if !status.Status? then Outcome(Failure(Fault(status)), [], rest)
        else
          match status.run
          case Broke => Outcome(Success(c.(plans := c.plans[index.value := plan.(status := Failed)])), [], rest)
          case Completed =>
            if !Next(rest).Results? then Outcome(Failure(Fault(Next(rest))), [], Rest(rest))
            else
              var evaluated := plan.(status := Evaluated, metrics := Some(Next(rest).metrics));
              Outcome(Success(c.(plans := c.plans[index.value := evaluated])),
                      [ResultsReported(plan.runId.value, Next(rest).metrics)], Rest(rest))
          case _ => Outcome(Success(c), [], rest)
  }

  function SubmissionOf(c: Cycle, plan: Plan, reply: Reply): Event {
    PlanSubmitted(plan.id, c.baselineRun, PayloadOf(c.scenario), plan.interventions, RunOf(reply))
  }

  /** `submit_plan`. */
  function SubmitPlan(c: Cycle, id: string, replies: seq<Reply>): Outcome {
    var index := IndexOf(c.plans, id);
    if index.None? then Outcome(Failure(LookupError), [], replies)
    else
      var plan, reply, rest := c.plans[index.value], Next(replies), Rest(replies);
      var events := [SubmissionOf(c, plan, reply)];
      if !reply.Accepted? then Outcome(Failure(Fault(reply)), events, rest)
      else
        var submitted := plan.(runId := Some(reply.runId), status := if reply.status == Broke then Failed else Running);
        var updated := c.(plans := c.plans[index.value := submitted]);
        if reply.status == Completed then Then(events, RefreshPlan(updated, id, rest))
        else Outcome(Success(updated), events, rest)
  }

  /** `decide`. */
  function Decide(c: Cycle, id: string, decision: Lifecycle): Result<Cycle, WorkflowError> {
    if decision != Approved && decision != Rejected then Failure(ValueError)
    else
      var index := IndexOf(c.plans, id);
      if index.None? then Failure(LookupError)
      else
        var plan := c.plans[index.value];
        if decision == Approved && plan.status != Recommended && plan.status != Approved then Failure(ValueError)
        else if decision == Rejected && (plan.status == Running || plan.status == Failed) then Failure(ValueError)
        else
          Success(c.(plans := c.plans[index.value := plan.(status := decision)],
                     status := if decision == Approved || plan.status == Recommended then decision else c.status))
  }

  // ---- Advancing ----------------------------------------------------------------------

  const DEFAULT_OBJECTIVES := ["minimize late shipments", "minimize average delay", "minimize total cost"]

  /** What `_advance_to_approval` does for one plan. */
  function AdvancePlan(c: Cycle, id: string, replies: seq<Reply>): Outcome {
    var index := IndexOf(c.plans, id);
    if index.None? then Outcome(Failure(LookupError), [], replies)
    else if c.plans[index.value].status == Validated && c.plans[index.value].runId.None? then SubmitPlan(c, id, replies)
    else if c.plans[index.value].status == Running then RefreshPlan(c, id, replies)
    else Outcome(Success(c), [], replies)
  }

  /** The loop over the plans. */
  function AdvancePlans(c: Cycle, ids: seq<string>, replies: seq<Reply>): Outcome
    decreases |ids|
  {
    if ids == [] then Outcome(Success(c), [], replies)
    else
      var o := AdvancePlan(c, ids[0], replies);
      if o.result.Failure? then o
      else Then(o.events, AdvancePlans(o.result.value, ids[1..], o.rest))
  }

  predicate Terminal(s: Lifecycle) { s == Evaluated || s == Failed || s == Recommended }

  predicate ReadyToRank(plans: seq<Plan>) {
    && plans != []
    && (forall i :: 0 <= i < |plans| ==> Terminal(plans[i].status))
    && (exists i :: 0 <= i < |plans| && plans[i].status == Evaluated)
    && !(exists i :: 0 <= i < |plans| && plans[i].status == Recommended)
  }

  function RankIfReady(c: Cycle): Cycle { if ReadyToRank(c.plans) then Ranking.Rank(c, None) else c }

  function Ids(plans: seq<Plan>): seq<string> { seq(|plans|, i requires 0 <= i < |plans| => plans[i].id) }

  /** The loop and the ranking at the end of `_advance_to_approval`. */
  function Settle(c: Cycle, replies: seq<Reply>): Outcome {
    var o := AdvancePlans(c, Ids(c.plans), replies);
    if o.result.Failure? then o else o.(result := Success(RankIfReady(o.result.value)))
  }

  /** From a completed baseline on: propose plans if there are none, then settle them. */
  function ProposeAndSettle(c: Cycle, replies: seq<Reply>): Outcome {
    if c.plans != [] then Settle(c, replies)
    else
      var o := ProposePlans(c, if c.objectives != [] then c.objectives else DEFAULT_OBJECTIVES, c.constraints, replies);
      if o.result.Failure? && o.result.error.GatewayError? then o.(result := Success(c.(error := Some(o.result.error.code))))
      else if o.result.Failure? then o
      else if o.result.value.plans == [] then o.(result := Success(o.result.value.(status := Evaluated)))
      else Then(o.events, Settle(o.result.value, o.rest))
  }

  /** `_advance_to_approval`. */
  function Advance(c: Cycle, replies: seq<Reply>): Outcome {
    var o := if c.baselineMetrics.None? && c.baselineRun.Some? then RefreshBaseline(c, replies)
             else Outcome(Success(c), [], replies);
    if o.result.Failure? then o
    else if o.result.value.status == Failed || o.result.value.baselineMetrics.None? then o
    else Then(o.events, ProposeAndSettle(o.result.value, o.rest))
  }

  function AndAdvance(o: Outcome): Outcome {
    if o.result.Failure? then o else Then(o.events, Advance(o.result.value, o.rest))
  }

  // ---- The API ------------------------------------------------------------------------

  datatype Op =
    | PostCreate(draft: Cycle)
    | SelectScenario(ids: seq<string>)
    | PostBaseline(replies: seq<Reply>)
    | PostAdvance(replies: seq<Reply>)
    | PostProposals(objectives: seq<string>, constraints: seq<(string, real)>, replies: seq<Reply>)
    | PostPlan(planId: string, replies: seq<Reply>)
    | PostPlanRefresh(planId: string, replies: seq<Reply>)
    | PostRank
    | PostDecision(planId: string, approve: bool)

  /** A create call whose draft has this cycle's identifier: the identifier is a hash of the
      generated scenarios, so generating the same ones again gives it again. */
  predicate Replaces(c: Cycle, op: Op) { op.PostCreate? && op.draft.id == c.id }

  /** What a call leaves for the stored cycle. A create call does not look at it; any other
      handler computes from it. Refreshing the baseline and advancing are the same handler
      body. */
  ghost function Handle(env: Scenario_.Env, c: Cycle, op: Op): Outcome {
    match op
    case PostCreate(draft) => Outcome(Success(if draft.id == c.id then draft else c), [], [])
    case SelectScenario(ids) =>
      (match Scenario_.Compose(env, c, ids)
       case Success(next) => Outcome(Success(next), [], [])
       case Failure(_) => Outcome(Failure(ValueError), [], []))
    case PostBaseline(replies) => AndAdvance(SubmitBaseline(c, replies))
    case PostAdvance(replies) => Advance(c, replies)
    case PostProposals(objectives, constraints, replies) => ProposePlans(c, objectives, constraints, replies)
    case PostPlan(id, replies) => SubmitPlan(c, id, replies)
    case PostPlanRefresh(id, replies) => AndAdvance(RefreshPlan(c, id, replies))
    case PostRank => Outcome(Success(Ranking.Rank(c, None)), [], [])
    case PostDecision(id, approve) => Outcome(Decide(c, id, if approve then Approved else Rejected), [], [])
  }

  /** The stored cycle, what the client has seen, how many baseline submissions belong to calls
      whose result was never stored, and how many submitted cycles were replaced by a draft. */
  datatype State = State(cycle: Cycle, log: seq<Event>, lost: nat, replaced: nat)

  function Flag(b: bool): nat { if b then 1 else 0 }

  function Baselines(log: seq<Event>): nat {
    if log == [] then 0 else Baselines(log[..|log| - 1]) + if log[|log| - 1].BaselineSubmitted? then 1 else 0
  }

  /** One call: the result is stored unless the handler fails or the save is refused. */
  ghost function Call(env: Scenario_.Env, s: State, op: Op, saved: bool): State {
    var o := Handle(env, s.cycle, op);
    if saved && o.result.Success? then
      State(o.result.value, s.log + o.events, s.lost,
            s.replaced + Flag(Replaces(s.cycle, op) && s.cycle.baselineRun.Some?))
    else State(s.cycle, s.log + o.events, s.lost + Baselines(o.events), s.replaced)
  }

  ghost function Run(env: Scenario_.Env, s: State, calls: seq<(Op, bool)>): State
    decreases |calls|
  {
    if calls == [] then s else Run(env, Call(env, s, calls[0].0, calls[0].1), calls[1..])
  }

  /** Planners return proposals with distinct plan identifiers. */
  predicate GoodReplies(replies: seq<Reply>) {
    forall i :: 0 <= i < |replies| && replies[i].Planner? && replies[i].proposals.Usable? ==>
      Ranking.DistinctPlans(NewPlans(replies[i].proposals.items))
  }

  predicate GoodOp(op: Op) {
    match op
    case PostCreate(draft) => Draft(draft)
    case PostBaseline(replies) => GoodReplies(replies)
    case PostAdvance(replies) => GoodReplies(replies)
    case PostProposals(_, _, replies) => GoodReplies(replies)
    case PostPlan(_, replies) => GoodReplies(replies)
    case PostPlanRefresh(_, replies) => GoodReplies(replies)
    case _ => true
  }
}
