/** The planning service as a whole: interleaved handlers over the versioned store. What they
    commit is a run of the workflow, one call after another. */
module PlanningSystem {
  import opened Wrappers
  import opened DynamoTable
  import opened PlanningTypes
  import opened PlanningStore
  import opened PlanningConcurrency
  import Workflow
  import WorkflowRuns
  import WorkflowStatus
  import Ranking
  import Scenario_ = Scenario

  // ---- What callers do with a cycle ------------------------------------------------------

  /** How a caller may go from the snapshot it holds to the one it saves, and which snapshots may
      be saved without holding one. Neither looks at the version. */
  datatype Rules = Rules(next: (Snapshot, Snapshot) -> bool, first: Snapshot -> bool) {
    ghost predicate Blind() {
      && (forall a: Snapshot, b: Snapshot, v: nat :: next(a, b) ==> next(a, b.(version := v)))
      && (forall a: Snapshot, v: nat :: first(a) ==> first(a.(version := v)))
    }
  }

  predicate Allowed(rules: Rules, origin: Option<Snapshot>, cycle: Snapshot, expected: Option<nat>) {
    match origin
    case None => rules.first(cycle)
    case Some(base) => rules.next(base, cycle) && expected.Some?
  }

  ghost predicate StepAllowed(rules: Rules, s: State, step: Step) {
    match step
    case Compute(c, result) => At(s, c).Holding? ==> rules.next(At(s, c).base, result)
    case Create(_, cycle, _) => rules.first(cycle)
    case _ => true
  }

  ghost predicate AllAllowed(rules: Rules, s: State, id: string, codec: Codec, steps: seq<Step>)
    decreases |steps|
  {
    steps == [] || (StepAllowed(rules, s, steps[0]) && AllAllowed(rules, Do(s, id, codec, steps[0]), id, codec, steps[1..]))
  }

  predicate PhaseAllowed(rules: Rules, p: Phase) {
    match p
    case Saving(origin, cycle, expected) => Allowed(rules, origin, cycle, expected)
    case VersionRead(origin, cycle, expected, _) => Allowed(rules, origin, cycle, expected)
    case SectionsRead(origin, cycle, expected, _, _) => Allowed(rules, origin, cycle, expected)
    case _ => true
  }

  predicate CommitAllowed(rules: Rules, c: Commit) { Allowed(rules, c.origin, c.saved, c.expected) }

  ghost predicate Backed(rules: Rules, s: State) {
    && (forall c: nat :: PhaseAllowed(rules, At(s, c)))
    && (forall i :: 0 <= i < |s.commits| ==> CommitAllowed(rules, s.commits[i]))
  }

  lemma PhaseStaysAllowed(rules: Rules, s: State, id: string, codec: Codec, step: Step, c: nat)
    requires PhaseAllowed(rules, At(s, c)) && StepAllowed(rules, s, step)
    ensures PhaseAllowed(rules, At(Do(s, id, codec, step), c))
  {
    match step {
      case SaveReadsMeta(d) => if At(s, d).Saving? { var p := AfterMetaRead(s, id, codec, At(s, d)); }
      case _ =>
    }
  }

  lemma CommitsStayAllowed(rules: Rules, s: State, id: string, codec: Codec, step: Step, i: nat)
    requires rules.Blind() && Backed(rules, s) && i < |Do(s, id, codec, step).commits|
    ensures CommitAllowed(rules, Do(s, id, codec, step).commits[i])
  {
    if i < |s.commits| {
      assert CommitAllowed(rules, s.commits[i]);
    } else {
      assert PhaseAllowed(rules, At(s, step.caller));
    }
  }

  lemma {:induction false} RunIsBacked(rules: Rules, s: State, id: string, codec: Codec, steps: seq<Step>)
    requires rules.Blind() && Backed(rules, s) && AllAllowed(rules, s, id, codec, steps)
    ensures Backed(rules, Run(s, id, codec, steps))
    decreases |steps|
  {
    if steps != [] {
      var t := Do(s, id, codec, steps[0]);
      forall c: nat ensures PhaseAllowed(rules, At(t, c)) { PhaseStaysAllowed(rules, s, id, codec, steps[0], c); }
      forall i | 0 <= i < |t.commits| ensures CommitAllowed(rules, t.commits[i]) {
        CommitsStayAllowed(rules, s, id, codec, steps[0], i);
      }
      RunIsBacked(rules, t, id, codec, steps[1..]);
    }
  }

  /** A save that names the version of the snapshot it was computed from. */
  predicate Guarded(c: Commit) { c.origin.Some? }

  predicate CommitIsSequential(rules: Rules, s: State, i: nat)
    requires i < |s.commits|
  {
    if Guarded(s.commits[i]) then i > 0 && rules.next(s.commits[i - 1].saved, s.commits[i].saved)
    else rules.first(s.commits[i].saved)
  }

  /** Each commit is a first snapshot, or follows from the commit immediately before it. */
  predicate Sequential(rules: Rules, s: State) {
    forall i: nat :: i < |s.commits| ==> CommitIsSequential(rules, s, i)
  }

  lemma CommitFollows(rules: Rules, s: State, i: nat)
    requires Backed(rules, s) && NoLostUpdate(s) && i < |s.commits|
    ensures Guarded(s.commits[i]) ==> i > 0 && rules.next(s.commits[i - 1].saved, s.commits[i].saved)
    ensures !Guarded(s.commits[i]) ==> rules.first(s.commits[i].saved)
  {
    assert CommitAllowed(rules, s.commits[i]);
    if Guarded(s.commits[i]) { assert SawTheLast(s, i); }
  }

  lemma EveryRunIsSequential(rules: Rules, s: State, id: string, codec: Codec, steps: seq<Step>)
    requires rules.Blind() && codec.Lawful() && Initial(s, id, codec) && AllAllowed(rules, s, id, codec, steps)
    ensures Sequential(rules, Run(s, id, codec, steps))
  {
    RunIsBacked(rules, s, id, codec, steps);
    EveryRun(s, id, codec, steps);
    var t := Run(s, id, codec, steps);
    forall i: nat | i < |t.commits| ensures CommitIsSequential(rules, t, i) { CommitFollows(rules, t, i); }
  }

  // ---- The planning API as such callers ----------------------------------------------------

  /** The API over stored snapshots: `view` reads the cycle off a snapshot. A caller that holds a
      snapshot saves what a handler computes from it; one that holds none saves a draft. */
  ghost function ApiRules(env: Scenario_.Env, view: Snapshot -> Cycle): Rules {
    Rules((a: Snapshot, b: Snapshot) => Computed(env, view(a), view(b)), (a: Snapshot) => Draft(view(a)))
  }

  ghost predicate Computed(env: Scenario_.Env, before: Cycle, after: Cycle) {
    exists op :: IsCallOf(env, before, op, after)
  }

  ghost predicate IsCallOf(env: Scenario_.Env, before: Cycle, op: Workflow.Op, after: Cycle) {
    Workflow.GoodOp(op) && Workflow.Handle(env, before, op).result == Success(after)
  }

  /** The view does not show the version, and shows the identifier. */
  ghost predicate Faithful(view: Snapshot -> Cycle) {
    && (forall a: Snapshot, v: nat :: view(a.(version := v)) == view(a))
    && (forall a: Snapshot :: view(a).id == a.id)
  }

  lemma {:induction false} RunThenCall(env: Scenario_.Env, s: Workflow.State, calls: seq<(Workflow.Op, bool)>, last: (Workflow.Op, bool))
    ensures Workflow.Run(env, s, calls + [last]) == Workflow.Call(env, Workflow.Run(env, s, calls), last.0, last.1)
    decreases |calls|
  {
    if calls == [] {
      assert [] + [last] == [last] && [last][1..] == [];
      assert Workflow.Run(env, Workflow.Call(env, s, last.0, last.1), []) == Workflow.Call(env, s, last.0, last.1);
    } else {
      assert (calls + [last])[1..] == calls[1..] + [last];
      RunThenCall(env, Workflow.Call(env, s, calls[0].0, calls[0].1), calls[1..], last);
    }
  }

  /** The workflow state of a draft nobody has touched. */
  function Untouched(c: Cycle): Workflow.State { Workflow.State(c, [], 0, 0) }

  /** The commits up to number `n` are what one run of the workflow stores, starting from the
      first. */
  ghost predicate IsRun(env: Scenario_.Env, view: Snapshot -> Cycle, s: State, n: nat, calls: seq<(Workflow.Op, bool)>)
    requires n < |s.commits|
  {
    && WorkflowRuns.GoodCalls(calls)
    && Workflow.Run(env, Untouched(view(s.commits[0].saved)), calls).cycle == view(s.commits[n].saved)
  }

  lemma NextCall(env: Scenario_.Env, view: Snapshot -> Cycle, s: State, n: nat, op: Workflow.Op,
                 calls: seq<(Workflow.Op, bool)>)
    requires n + 1 < |s.commits| && IsRun(env, view, s, n, calls)
    requires IsCallOf(env, view(s.commits[n].saved), op, view(s.commits[n + 1].saved))
    ensures IsRun(env, view, s, n + 1, calls + [(op, true)])
  {
    RunThenCall(env, Untouched(view(s.commits[0].saved)), calls, (op, true));
  }

  /** Every commit is the outcome of a call on the commit before it; creating is a call too. */
  lemma StepIsCall(env: Scenario_.Env, view: Snapshot -> Cycle, s: State, n: nat) returns (op: Workflow.Op)
    requires Faithful(view) && Sequential(ApiRules(env, view), s) && n + 1 < |s.commits|
    requires s.commits[n].saved.id == s.commits[n + 1].saved.id
    ensures IsCallOf(env, view(s.commits[n].saved), op, view(s.commits[n + 1].saved))
  {
    assert CommitIsSequential(ApiRules(env, view), s, n + 1);
    var a, b := s.commits[n].saved, s.commits[n + 1].saved;
    if Guarded(s.commits[n + 1]) {
      assert Computed(env, view(a), view(b));
      op :| IsCallOf(env, view(a), op, view(b));
    } else {
      assert view(a).id == a.id && view(b).id == b.id;
      op := Workflow.PostCreate(view(b));
    }
  }

  /** All commits are of one cycle. */
  predicate OneCycle(s: State, id: string) { forall i :: 0 <= i < |s.commits| ==> s.commits[i].saved.id == id }

  lemma OneCallMore(env: Scenario_.Env, view: Snapshot -> Cycle, s: State, id: string, n: nat, calls: seq<(Workflow.Op, bool)>)
    returns (more: seq<(Workflow.Op, bool)>)
    requires Faithful(view) && Sequential(ApiRules(env, view), s) && OneCycle(s, id) && n + 1 < |s.commits|
    requires IsRun(env, view, s, n, calls)
    ensures IsRun(env, view, s, n + 1, more)
  {
    var op := StepIsCall(env, view, s, n);
    NextCall(env, view, s, n, op, calls);
    more := calls + [(op, true)];
  }

  lemma NoCalls(env: Scenario_.Env, view: Snapshot -> Cycle, s: State)
    requires s.commits != []
    ensures IsRun(env, view, s, 0, [])
  {
  }

  lemma {:induction false} CommitsAreARun(env: Scenario_.Env, view: Snapshot -> Cycle, s: State, id: string, n: nat)
    returns (calls: seq<(Workflow.Op, bool)>)
    requires Faithful(view) && Sequential(ApiRules(env, view), s) && OneCycle(s, id) && n < |s.commits|
    ensures IsRun(env, view, s, n, calls)
    decreases n
  {
    if n == 0 {
      NoCalls(env, view, s);
      calls := [];
    } else {
      calls := CommitsAreARun(env, view, s, id, n - 1);
      calls := OneCallMore(env, view, s, id, n - 1, calls);
    }
  }

  predicate Sound(c: Cycle) { WorkflowRuns.GoodCycle(c) && WorkflowStatus.Orderly(c) }

  lemma CommitIsSound(env: Scenario_.Env, view: Snapshot -> Cycle, s: State, id: string, n: nat)
    requires Faithful(view) && Sequential(ApiRules(env, view), s) && OneCycle(s, id) && n < |s.commits|
    ensures Sound(view(s.commits[n].saved))
  {
    var calls := CommitsAreARun(env, view, s, id, n);
    var draft := view(s.commits[0].saved);
    assert CommitIsSequential(ApiRules(env, view), s, 0);
    assert Draft(draft);
    WorkflowRuns.EveryRun(env, draft, calls);
    WorkflowStatus.EveryRun(env, Untouched(draft), calls);
  }

  lemma {:induction false} RunIsOfOneCycle(s: State, id: string, codec: Codec, steps: seq<Step>)
    requires codec.Lawful() && Inv(s, id, codec) && OneCycle(s, id)
    ensures OneCycle(Run(s, id, codec, steps), id)
    decreases |steps|
  {
    if steps != [] {
      var t := Do(s, id, codec, steps[0]);
      DoKeepsInv(s, id, codec, steps[0]);
      if steps[0].SaveTransacts? { assert GoodPhase(s, id, codec, At(s, steps[0].caller)); }
      assert OneCycle(t, id);
      RunIsOfOneCycle(t, id, codec, steps[1..]);
    }
  }

  lemma ApiRulesAreBlind(env: Scenario_.Env, view: Snapshot -> Cycle)
    requires Faithful(view)
    ensures ApiRules(env, view).Blind()
  {
    var rules := ApiRules(env, view);
    forall a: Snapshot, b: Snapshot, v: nat | rules.next(a, b) ensures rules.next(a, b.(version := v)) {
      assert view(b.(version := v)) == view(b);
    }
    forall a: Snapshot, v: nat | rules.first(a) ensures rules.first(a.(version := v)) {
      assert view(a.(version := v)) == view(a);
    }
  }

  /** The commit stores what ranking made of a cycle whose baseline has no result. */
  predicate RankedEarly(view: Snapshot -> Cycle, s: State, n: nat)
    requires 0 < n < |s.commits|
  {
    var before, after := view(s.commits[n - 1].saved), view(s.commits[n].saved);
    Guarded(s.commits[n]) && before.baselineMetrics.None? && after == Ranking.Rank(before, None)
  }

  /** Honest cycles follow honest cycles, unless one is ranked early. */
  lemma CommitIsHonestIff(env: Scenario_.Env, view: Snapshot -> Cycle, s: State, id: string, n: nat)
    requires Faithful(view) && Sequential(ApiRules(env, view), s) && OneCycle(s, id) && 0 < n < |s.commits|
    requires WorkflowStatus.Honest(view(s.commits[n - 1].saved))
    ensures WorkflowStatus.Honest(view(s.commits[n].saved)) <==> !RankedEarly(view, s, n)
  {
    var before, after := view(s.commits[n - 1].saved), view(s.commits[n].saved);
    assert CommitIsSequential(ApiRules(env, view), s, n);
    if Guarded(s.commits[n]) {
      var op := StepIsCall(env, view, s, n - 1);
      WorkflowStatus.HonestIff(env, before, op);
      if RankedEarly(view, s, n) { WorkflowStatus.HonestIff(env, before, Workflow.PostRank); }
    } else {
      assert Draft(after);
    }
  }

  lemma {:induction false} CommitsAreHonest(env: Scenario_.Env, view: Snapshot -> Cycle, s: State, id: string, n: nat)
    requires Faithful(view) && Sequential(ApiRules(env, view), s) && OneCycle(s, id) && n < |s.commits|
    requires forall i :: 0 < i <= n ==> !RankedEarly(view, s, i)
    ensures WorkflowStatus.Honest(view(s.commits[n].saved))
    decreases n
  {
    if n == 0 {
      assert CommitIsSequential(ApiRules(env, view), s, 0);
    } else {
      CommitsAreHonest(env, view, s, id, n - 1);
      CommitIsHonestIff(env, view, s, id, n);
    }
  }

  predicate AllHonest(view: Snapshot -> Cycle, s: State) {
    forall n :: 0 <= n < |s.commits| ==> WorkflowStatus.Honest(view(s.commits[n].saved))
  }

  predicate NoneRankedEarly(view: Snapshot -> Cycle, s: State) {
    forall n :: 0 < n < |s.commits| ==> !RankedEarly(view, s, n)
  }

  lemma AllHonestIff(env: Scenario_.Env, view: Snapshot -> Cycle, s: State, id: string)
    requires Faithful(view) && Sequential(ApiRules(env, view), s) && OneCycle(s, id)
    ensures AllHonest(view, s) <==> NoneRankedEarly(view, s)
  {
    if NoneRankedEarly(view, s) {
      forall n | 0 <= n < |s.commits| ensures WorkflowStatus.Honest(view(s.commits[n].saved)) {
        CommitsAreHonest(env, view, s, id, n);
      }
    }
    if AllHonest(view, s) {
      forall n | 0 < n < |s.commits| ensures !RankedEarly(view, s, n) { CommitIsHonestIff(env, view, s, id, n); }
    }
  }

  /** In every interleaving of the API's handlers, creating included, each guarded commit is what
      a handler computes from the commit just before it, every other one is a draft, and what
      the workflow keeps over its runs holds of every snapshot ever committed. Every status
      ever committed is true exactly if nothing is ranked early. */
  lemma EveryCommitIsSound(env: Scenario_.Env, view: Snapshot -> Cycle, s: State, id: string, codec: Codec, steps: seq<Step>)
    requires Faithful(view) && codec.Lawful() && Initial(s, id, codec)
    requires AllAllowed(ApiRules(env, view), s, id, codec, steps)
    ensures var t := Run(s, id, codec, steps);
      && Sequential(ApiRules(env, view), t)
      && (forall n :: 0 <= n < |t.commits| ==> Sound(view(t.commits[n].saved)))
      && (AllHonest(view, t) <==> NoneRankedEarly(view, t))
  {
    var t := Run(s, id, codec, steps);
    ApiRulesAreBlind(env, view);
    EveryRunIsSequential(ApiRules(env, view), s, id, codec, steps);
    RunIsOfOneCycle(s, id, codec, steps);
    AllHonestIff(env, view, t, id);
    forall n | 0 <= n < |t.commits| ensures Sound(view(t.commits[n].saved)) { CommitIsSound(env, view, t, id, n); }
  }
}
