/** The planning cycle and what it consists of. */
module PlanningTypes {
  import opened Wrappers
  import opened Json

  datatype Lifecycle =
    | Proposed | Validated | Submitted | Running | Evaluated | Failed | Recommended | Approved | Rejected

  /** One reconciled disruption; `applied` means that the simulation has to apply it, and
      `details` stands for the entries the service only carries along. */
  datatype Disruption = Disruption(
    id: string,
    kind: string,
    payload: Json,
    signal: Option<string>,
    applied: bool,
    details: string)

  datatype Scenario = Scenario(
    id: string,
    proposalId: string,
    contextVersion: string,
    stateVersion: string,
    disruptions: seq<Disruption>,
    active: seq<(string, Json)>,
    probability: real,
    signals: seq<string>,
    sources: set<string>)

  /** Metrics by name; numbers are real. */
  type Metrics = map<string, real>

  datatype Plan = Plan(
    id: string,
    proposalId: string,
    status: Lifecycle,
    interventions: Json,
    runId: Option<string>,
    metrics: Option<Metrics>,
    rank: Option<nat>,
    reasons: seq<(string, real)>)

  datatype Cycle = Cycle(
    id: string,
    scenario: Scenario,
    generated: seq<Scenario>,
    selected: seq<string>,
    objectives: seq<string>,
    constraints: seq<(string, real)>,
    status: Lifecycle,
    baselineRun: Option<string>,
    baselineMetrics: Option<Metrics>,
    plans: seq<Plan>,
    error: Option<string>)

  /** A cycle as `create_draft` leaves it. */
  predicate Draft(c: Cycle) {
    c.plans == [] && c.baselineRun.None? && c.baselineMetrics.None? && c.status == Proposed && c.error.None?
  }
}
