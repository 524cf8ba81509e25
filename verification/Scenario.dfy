/** Review of generated scenarios: freezing a subset of their disruptions into one scenario. */
module Scenario {
  import opened Wrappers
  import opened Json
  import opened PlanningTypes

  const MAX_DISRUPTIONS: nat := 20
  const MAX_SCENARIOS: nat := 20

  datatype Relationship = Relationship(source: string, target: string, kind: RelationshipKind)

  datatype RelationshipKind = MutuallyExclusive | Requires | Supersedes | OtherKind

  /** What the service asks of its libraries: the content key of a disruption, the words its
      type contains, the targets its payload names, and the identity of a scenario. */
  datatype Env = Env(
    key: (string, Json) -> string,
    closes: string -> bool,
    delays: string -> bool,
    targets: Json -> set<string>,
    identity: (string, string, seq<Disruption>, seq<(string, Json)>) -> string,
    relationships: seq<Relationship>)

  datatype ComposeError =
    | AlreadySubmitted | NothingSelected | TooMany | Disagreement | UnknownDisruption | DuplicateDisruption
    | ClosedAndDelayed | RelationshipBroken

  // ---- Selections ---------------------------------------------------------------------

  /** `list(dict.fromkeys(ids))`. */
  function Dedup(ids: seq<string>): (r: seq<string>)
    ensures forall x :: x in r <==> x in ids
    ensures forall i, j :: 0 <= i < j < |r| ==> r[i] != r[j]
    ensures |r| <= |ids|
  {
    if ids == [] then []
    else
      var r := Dedup(ids[..|ids| - 1]);
      if ids[|ids| - 1] in r then r else r + [ids[|ids| - 1]]
  }

  lemma {:induction false} DedupDistinct(ids: seq<string>)
    requires forall i, j :: 0 <= i < j < |ids| ==> ids[i] != ids[j]
    ensures Dedup(ids) == ids
  {
    if ids != [] {
      DedupDistinct(ids[..|ids| - 1]);
      assert ids[|ids| - 1] !in ids[..|ids| - 1];
    }
  }

  // ---- What is available --------------------------------------------------------------

  /** The disruptions of the scenarios in order, each with the scenario it belongs to. */
  function Pairs(s: Scenario): seq<(Disruption, Scenario)> {
    seq(|s.disruptions|, i requires 0 <= i < |s.disruptions| => (s.disruptions[i], s))
  }

  function Entries(generated: seq<Scenario>): seq<(Disruption, Scenario)> {
    if generated == [] then [] else Entries(generated[..|generated| - 1]) + Pairs(generated[|generated| - 1])
  }

  /** No identifier stands for two different disruptions. */
  predicate Agree(entries: seq<(Disruption, Scenario)>) {
    forall i, j :: 0 <= i < |entries| && 0 <= j < |entries| && entries[i].0.id == entries[j].0.id ==> entries[i].0 == entries[j].0
  }

  datatype Offer = Offer(disruption: Disruption, owners: seq<Scenario>)

  function Extend(index: map<string, Offer>, entry: (Disruption, Scenario)): map<string, Offer> {
    var (d, owner) := entry;
    index[d.id := Offer(d, if d.id in index then index[d.id].owners + [owner] else [owner])]
  }

  /** What can be selected, by identifier, with the scenarios that offer it. */
  function Offers(entries: seq<(Disruption, Scenario)>): map<string, Offer> {
    if entries == [] then map[] else Extend(Offers(entries[..|entries| - 1]), entries[|entries| - 1])
  }

  lemma AgreePrefix(entries: seq<(Disruption, Scenario)>, n: nat)
    requires Agree(entries) && n <= |entries|
    ensures Agree(entries[..n])
  {
    assert forall i :: 0 <= i < n ==> entries[..n][i] == entries[i];
  }

  lemma {:induction false} EntryIsOffered(entries: seq<(Disruption, Scenario)>, i: nat)
    requires Agree(entries) && i < |entries|
    ensures entries[i].0.id in Offers(entries)
    ensures Offers(entries)[entries[i].0.id].disruption == entries[i].0
    ensures entries[i].1 in Offers(entries)[entries[i].0.id].owners
    decreases |entries|
  {
    var n := |entries| - 1;
    if i < n {
      AgreePrefix(entries, n);
      EntryIsOffered(entries[..n], i);
      assert entries[..n][i] == entries[i];
    }
  }

  lemma {:induction false} OfferIsEntry(entries: seq<(Disruption, Scenario)>, x: string)
    requires Agree(entries) && x in Offers(entries)
    ensures var offer := Offers(entries)[x];
      && offer.disruption.id == x && offer.owners != []
      && forall o :: o in offer.owners ==> (offer.disruption, o) in entries
  {
    var n := |entries| - 1;
    var before, offer := Offers(entries[..n]), Offers(entries)[x];
    assert entries == entries[..n] + [entries[n]];
    AgreePrefix(entries, n);
    if x in before {
      OfferIsEntry(entries[..n], x);
      if entries[n].0.id == x {
        var o := before[x].owners[0];
        var i :| 0 <= i < n && entries[..n][i] == (before[x].disruption, o);
        assert entries[i].0 == before[x].disruption && entries[i].0.id == entries[n].0.id;
      }
    }
  }

  /** The index, once the scenarios agree: every entry is on offer with its owner, and nothing
      else is. */
  lemma OffersAre(entries: seq<(Disruption, Scenario)>)
    requires Agree(entries)
    ensures var index := Offers(entries);
      && (forall i :: 0 <= i < |entries| ==>
            && entries[i].0.id in index
            && index[entries[i].0.id].disruption == entries[i].0 && entries[i].1 in index[entries[i].0.id].owners)
      && (forall x :: x in index ==> index[x].disruption.id == x && index[x].owners != [])
      && (forall x, o :: x in index && o in index[x].owners ==> (index[x].disruption, o) in entries)
  {
    forall i | 0 <= i < |entries|
      ensures entries[i].0.id in Offers(entries) && Offers(entries)[entries[i].0.id].disruption == entries[i].0
      ensures entries[i].1 in Offers(entries)[entries[i].0.id].owners
    {
      EntryIsOffered(entries, i);
    }
    forall x | x in Offers(entries)
      ensures Offers(entries)[x].disruption.id == x && Offers(entries)[x].owners != []
      ensures forall o :: o in Offers(entries)[x].owners ==> (Offers(entries)[x].disruption, o) in entries
    {
      OfferIsEntry(entries, x);
    }
  }

  // ---- Rules for a selection ----------------------------------------------------------

  function KeyOf(env: Env, d: Disruption): string { env.key(d.kind, d.payload) }

  predicate DistinctContent(env: Env, ds: seq<Disruption>) {
    forall i, j :: 0 <= i < j < |ds| ==> KeyOf(env, ds[i]) != KeyOf(env, ds[j])
  }

  function ModeOf(env: Env, d: Disruption): string {
    if env.closes(d.kind) then "closed" else if env.delays(d.kind) then "delayed" else d.kind
  }

  /** Some target is closed by one disruption and delayed by another. */
  ghost predicate Clash(env: Env, ds: seq<Disruption>) {
    exists i, j, t ::
      0 <= i < |ds| && 0 <= j < |ds| && t in env.targets(ds[i].payload) && t in env.targets(ds[j].payload)
      && ModeOf(env, ds[i]) == "closed" && ModeOf(env, ds[j]) == "delayed"
  }

  predicate RuleHolds(r: Relationship, signals: seq<string>) {
    match r.kind
    case MutuallyExclusive => !(r.source in signals && r.target in signals)
    case Requires => r.source in signals ==> r.target in signals
    case Supersedes => !(r.source in signals && r.target in signals)
    case OtherKind => true
  }

  predicate RulesHold(rules: seq<Relationship>, signals: seq<string>) {
    forall i :: 0 <= i < |rules| ==> RuleHolds(rules[i], signals)
  }

  function SignalsOf(ds: seq<Disruption>): seq<string> {
    if ds == [] then []
    else SignalsOf(ds[..|ds| - 1])
         + (var s := ds[|ds| - 1].signal; if s.Some? && s.value != "" then [s.value] else [])
  }

  function ActiveOf(ds: seq<Disruption>): seq<(string, Json)> {
    if ds == [] then []
    else ActiveOf(ds[..|ds| - 1])
         + (var d := ds[|ds| - 1]; if d.applied then [(d.kind, d.payload)] else [])
  }

  // ---- Contributing scenarios ---------------------------------------------------------

  /** `{owner.id: owner for item in selected for owner in owners[item]}`. */
  function AddOwners(found: map<string, Scenario>, owners: seq<Scenario>): map<string, Scenario> {
    if owners == [] then found
    else AddOwners(found, owners[..|owners| - 1])[owners[|owners| - 1].id := owners[|owners| - 1]]
  }

  function Contributing(index: map<string, Offer>, selected: seq<string>): map<string, Scenario>
    requires forall i :: 0 <= i < |selected| ==> selected[i] in index
  {
    if selected == [] then map[]
    else AddOwners(Contributing(index, selected[..|selected| - 1]), index[selected[|selected| - 1]].owners)
  }

  predicate IsGreatest(p: real, found: map<string, Scenario>) {
    (exists x :: x in found && found[x].probability == p) && forall x :: x in found ==> found[x].probability <= p
  }

  lemma {:induction false} GreatestExists(found: map<string, Scenario>)
    requires found != map[]
    ensures exists p :: IsGreatest(p, found)
    decreases |found|
  {
    var x :| x in found;
    var rest := found - {x};
    if rest == map[] {
      assert forall y :: y in found ==> y == x || y in rest;
      assert IsGreatest(found[x].probability, found);
    } else {
      GreatestExists(rest);
      var p :| IsGreatest(p, rest);
      var best := if p < found[x].probability then found[x].probability else p;
      assert forall y :: y in found ==> y == x || y in rest;
      assert IsGreatest(best, found);
    }
  }

  function Greatest(found: map<string, Scenario>): (p: real)
    requires found != map[]
    ensures IsGreatest(p, found)
  {
    GreatestExists(found);
    var p :| IsGreatest(p, found);
    p
  }

  lemma {:induction false} AddOwnersAre(found: map<string, Scenario>, owners: seq<Scenario>)
    ensures forall o :: o in owners ==> o.id in AddOwners(found, owners)
    ensures found.Keys <= AddOwners(found, owners).Keys
    ensures forall x :: x in AddOwners(found, owners) ==>
      (x in found && AddOwners(found, owners)[x] == found[x])
      || (AddOwners(found, owners)[x] in owners && AddOwners(found, owners)[x].id == x)
  {
    if owners != [] {
      AddOwnersAre(found, owners[..|owners| - 1]);
    }
  }

  /** Every contributing scenario offers one of the selected disruptions, under its own name. */
  lemma {:induction false} ContributingAre(index: map<string, Offer>, selected: seq<string>)
    requires forall i :: 0 <= i < |selected| ==> selected[i] in index
    ensures var found := Contributing(index, selected);
      && (forall i, o :: 0 <= i < |selected| && o in index[selected[i]].owners ==> o.id in found)
      && (forall x :: x in found ==>
            found[x].id == x && exists i :: 0 <= i < |selected| && found[x] in index[selected[i]].owners)
  {
    if selected != [] {
      var n := |selected| - 1;
      ContributingAre(index, selected[..n]);
      AddOwnersAre(Contributing(index, selected[..n]), index[selected[n]].owners);
      var found := Contributing(index, selected);
      forall x | x in found
        ensures found[x].id == x && exists i :: 0 <= i < |selected| && found[x] in index[selected[i]].owners
      {
        var before := Contributing(index, selected[..n]);
        if x in before && found[x] == before[x] {
          var i :| 0 <= i < n && before[x] in index[selected[..n][i]].owners;
          assert selected[..n][i] == selected[i];
        } else {
          assert found[x] in index[selected[n]].owners;
        }
      }
      forall i, o | 0 <= i < |selected| && o in index[selected[i]].owners ensures o.id in found {
        if i < n { assert selected[..n][i] == selected[i]; }
      }
    }
  }

  // ---- Composition --------------------------------------------------------------------

  /** `cycle.generated_scenarios or [cycle.scenario]`. */
  function Basis(c: Cycle): seq<Scenario> { if c.generated != [] then c.generated else [c.scenario] }

  function Chosen(index: map<string, Offer>, selected: seq<string>): seq<Disruption>
    requires forall i :: 0 <= i < |selected| ==> selected[i] in index
  {
    seq(|selected|, i requires 0 <= i < |selected| => index[selected[i]].disruption)
  }

  /** The checks on a selection, in the order the service makes them. */
  ghost function Check(env: Env, basis: seq<Scenario>, selected: seq<string>): Result<seq<Disruption>, ComposeError> {
    if selected == [] then Failure(NothingSelected)
    else if |selected| > MAX_DISRUPTIONS then Failure(TooMany)
    else if !Agree(Entries(basis)) then Failure(Disagreement)
    else if exists i :: 0 <= i < |selected| && selected[i] !in Offers(Entries(basis)) then Failure(UnknownDisruption)
    else
      var ds := Chosen(Offers(Entries(basis)), selected);
      if !DistinctContent(env, ds) then Failure(DuplicateDisruption)
      else if Clash(env, ds) then Failure(ClosedAndDelayed)
      else if !RulesHold(env.relationships, Dedup(SignalsOf(ds))) then Failure(RelationshipBroken)
      else Success(ds)
  }

  /** The scenario frozen from the chosen disruptions and the scenarios they come from. */
  function Freeze(env: Env, contextVersion: string, stateVersion: string, ds: seq<Disruption>, found: map<string, Scenario>)
    : Scenario
    requires found != map[]
  {
    Scenario(env.identity(contextVersion, stateVersion, ds, ActiveOf(ds)), "user-reviewed", contextVersion, stateVersion,
             ds, ActiveOf(ds), Greatest(found), Dedup(SignalsOf(ds)), found.Keys)
  }

  lemma SomeContribute(basis: seq<Scenario>, selected: seq<string>)
    requires Agree(Entries(basis)) && selected != []
    requires forall i :: 0 <= i < |selected| ==> selected[i] in Offers(Entries(basis))
    ensures Contributing(Offers(Entries(basis)), selected) != map[]
  {
    var index := Offers(Entries(basis));
    ContributingAre(index, selected);
    OfferIsEntry(Entries(basis), selected[0]);
    assert index[selected[0]].owners[0].id in Contributing(index, selected);
  }

  function Reviewed(c: Cycle, scenario: Scenario, selected: seq<string>): Cycle {
    c.(scenario := scenario, selected := selected, status := Proposed, plans := [], baselineMetrics := None, error := None)
  }

  /** What `compose_scenario` freezes from a basis. */
  ghost function ComposeFrom(env: Env, basis: seq<Scenario>, contextVersion: string, stateVersion: string, selected: seq<string>)
    : Result<Scenario, ComposeError>
  {
    match Check(env, basis, selected)
    case Failure(e) => Failure(e)
    case Success(ds) =>
      SomeContribute(basis, selected);
      Success(Freeze(env, contextVersion, stateVersion, ds, Contributing(Offers(Entries(basis)), selected)))
  }

  /** `compose_scenario`. */
  ghost function Compose(env: Env, c: Cycle, ids: seq<string>): Result<Cycle, ComposeError> {
    if c.baselineRun.Some? then Failure(AlreadySubmitted)
    else
      match ComposeFrom(env, Basis(c), c.scenario.contextVersion, c.scenario.stateVersion, Dedup(ids))
      case Failure(e) => Failure(e)
      case Success(scenario) => Success(Reviewed(c, scenario, Dedup(ids)))
  }

  // ---- What a composition is --------------------------------------------------------------

  predicate InSome(basis: seq<Scenario>, d: Disruption) {
    exists k :: 0 <= k < |basis| && d in basis[k].disruptions
  }

  /** The disruptions named by `selected`, in that order, each from one of the scenarios. */
  predicate Drawn(basis: seq<Scenario>, selected: seq<string>, ds: seq<Disruption>) {
    |ds| == |selected| && forall i :: 0 <= i < |ds| ==> ds[i].id == selected[i] && InSome(basis, ds[i])
  }

  ghost predicate ListsSignals(s: Scenario) {
    forall x :: x in s.signals <==> x != "" && exists i :: 0 <= i < |s.disruptions| && s.disruptions[i].signal == Some(x)
  }

  ghost predicate ListsActive(s: Scenario) {
    forall a :: a in s.active <==>
      exists i :: 0 <= i < |s.disruptions| && s.disruptions[i].applied && a == (s.disruptions[i].kind, s.disruptions[i].payload)
  }

  /** The promises of a composed scenario. */
  ghost predicate Sound(env: Env, basis: seq<Scenario>, ids: seq<string>, s: Scenario) {
    && 1 <= |s.disruptions| <= 20
    && Drawn(basis, Dedup(ids), s.disruptions)
    && ContentsApart(env, s.disruptions) && NoneBoth(env, s.disruptions) && RulesMet(env.relationships, s.disruptions)
    && ListsSignals(s) && ListsActive(s)
  }

  predicate BelongsTo(generated: seq<Scenario>, e: (Disruption, Scenario)) {
    exists k :: 0 <= k < |generated| && e.1 == generated[k] && e.0 in generated[k].disruptions
  }

  lemma PairsAre(s: Scenario, e: (Disruption, Scenario))
    ensures e in Pairs(s) <==> e.1 == s && e.0 in s.disruptions
  {
    if e.1 == s && e.0 in s.disruptions {
      var j :| 0 <= j < |s.disruptions| && s.disruptions[j] == e.0;
      assert Pairs(s)[j] == e;
    }
  }

  lemma BelongsToMore(generated: seq<Scenario>, last: Scenario, e: (Disruption, Scenario))
    ensures BelongsTo(generated + [last], e) <==> BelongsTo(generated, e) || (e.1 == last && e.0 in last.disruptions)
  {
    var more := generated + [last];
    assert more[|generated|] == last && forall k :: 0 <= k < |generated| ==> more[k] == generated[k];
    if BelongsTo(generated, e) {
      var k :| 0 <= k < |generated| && e.1 == generated[k] && e.0 in generated[k].disruptions;
      assert e.1 == more[k];
    }
  }

  lemma {:induction false} EntryIff(generated: seq<Scenario>, e: (Disruption, Scenario))
    ensures e in Entries(generated) <==> BelongsTo(generated, e)
  {
    if generated != [] {
      var n := |generated| - 1;
      EntryIff(generated[..n], e);
      PairsAre(generated[n], e);
      assert generated == generated[..n] + [generated[n]];
      BelongsToMore(generated[..n], generated[n], e);
    }
  }

  lemma EntriesAre(generated: seq<Scenario>)
    ensures forall e :: e in Entries(generated) <==> BelongsTo(generated, e)
  {
    forall e ensures e in Entries(generated) <==> BelongsTo(generated, e) { EntryIff(generated, e); }
  }

  lemma {:induction false} SignalsAre(ds: seq<Disruption>)
    ensures forall x :: x in SignalsOf(ds) <==> x != "" && exists i :: 0 <= i < |ds| && ds[i].signal == Some(x)
  {
    if ds != [] {
      var n := |ds| - 1;
      SignalsAre(ds[..n]);
      forall x ensures x in SignalsOf(ds) <==> x != "" && exists i :: 0 <= i < |ds| && ds[i].signal == Some(x) {
        if x in SignalsOf(ds[..n]) {
          var i :| 0 <= i < n && ds[..n][i].signal == Some(x);
          assert ds[i] == ds[..n][i];
        }
        if i :| x != "" && 0 <= i < n && ds[i].signal == Some(x) { assert ds[..n][i] == ds[i]; }
      }
    }
  }

  lemma {:induction false} ActivesAre(ds: seq<Disruption>)
    ensures forall a :: a in ActiveOf(ds) <==>
      exists i :: 0 <= i < |ds| && ds[i].applied && a == (ds[i].kind, ds[i].payload)
  {
    if ds != [] {
      var n := |ds| - 1;
      ActivesAre(ds[..n]);
      forall a ensures a in ActiveOf(ds) <==> exists i :: 0 <= i < |ds| && ds[i].applied && a == (ds[i].kind, ds[i].payload) {
        if a in ActiveOf(ds[..n]) {
          var i :| 0 <= i < n && ds[..n][i].applied && a == (ds[..n][i].kind, ds[..n][i].payload);
          assert ds[i] == ds[..n][i];
        }
        if i :| 0 <= i < n && ds[i].applied && a == (ds[i].kind, ds[i].payload) { assert ds[..n][i] == ds[i]; }
      }
    }
  }

  /** Signals and active entries are listed in the order of the disruptions. */
  lemma {:induction false} ListedInOrder(first: seq<Disruption>, more: seq<Disruption>)
    ensures SignalsOf(first + more) == SignalsOf(first) + SignalsOf(more)
    ensures ActiveOf(first + more) == ActiveOf(first) + ActiveOf(more)
  {
    if more == [] {
      assert first + more == first;
    } else {
      var n := |more| - 1;
      assert (first + more)[..|first| + n] == first + more[..n];
      ListedInOrder(first, more[..n]);
    }
  }

  /** Of several equal identifiers the first is kept, in its place. */
  lemma {:induction false} DedupInOrder(first: seq<string>, more: seq<string>)
    ensures Dedup(first) <= Dedup(first + more)
  {
    if more == [] {
      assert first + more == first;
    } else {
      var n := |more| - 1;
      assert (first + more)[..|first| + n] == first + more[..n];
      DedupInOrder(first, more[..n]);
    }
  }

  lemma ChosenAreDrawn(basis: seq<Scenario>, selected: seq<string>)
    requires Agree(Entries(basis)) && forall i :: 0 <= i < |selected| ==> selected[i] in Offers(Entries(basis))
    ensures Drawn(basis, selected, Chosen(Offers(Entries(basis)), selected))
  {
    var entries := Entries(basis);
    var ds := Chosen(Offers(entries), selected);
    forall i | 0 <= i < |ds| ensures ds[i].id == selected[i] && InSome(basis, ds[i]) {
      OfferIsEntry(entries, selected[i]);
      EntriesAre(basis);
      assert (ds[i], Offers(entries)[selected[i]].owners[0]) in entries;
    }
  }

  /** No two disruptions have the same type and payload, as far as their keys tell. */
  predicate ContentsApart(env: Env, ds: seq<Disruption>) {
    forall i, j :: 0 <= i < j < |ds| ==> env.key(ds[i].kind, ds[i].payload) != env.key(ds[j].kind, ds[j].payload)
  }

  /** The type says that the targets are closed; one that speaks of delays as well closes them. */
  predicate Closes(env: Env, d: Disruption) { env.closes(d.kind) || (!env.delays(d.kind) && d.kind == "closed") }

  predicate Delays(env: Env, d: Disruption) { !env.closes(d.kind) && (env.delays(d.kind) || d.kind == "delayed") }

  /** No target is closed and delayed. */
  ghost predicate NoneBoth(env: Env, ds: seq<Disruption>) {
    forall i, j, t ::
      0 <= i < |ds| && 0 <= j < |ds| && t in env.targets(ds[i].payload) && t in env.targets(ds[j].payload) ==>
        !Closes(env, ds[i]) || !Delays(env, ds[j])
  }

  /** Some disruption was drawn from that signal. */
  predicate Named(ds: seq<Disruption>, x: string) { x != "" && exists i :: 0 <= i < |ds| && ds[i].signal == Some(x) }

  predicate RuleMet(r: Relationship, ds: seq<Disruption>) {
    && (r.kind == MutuallyExclusive || r.kind == Supersedes ==> !Named(ds, r.source) || !Named(ds, r.target))
    && (r.kind == Requires && Named(ds, r.source) ==> Named(ds, r.target))
  }

  predicate RulesMet(rules: seq<Relationship>, ds: seq<Disruption>) {
    forall i :: 0 <= i < |rules| ==> RuleMet(rules[i], ds)
  }

  lemma ModesAre(env: Env, d: Disruption)
    ensures ModeOf(env, d) == "closed" <==> Closes(env, d)
    ensures ModeOf(env, d) == "delayed" <==> Delays(env, d)
  {
  }

  lemma ClashIff(env: Env, ds: seq<Disruption>)
    ensures Clash(env, ds) <==> !NoneBoth(env, ds)
  {
    forall i | 0 <= i < |ds|
      ensures ModeOf(env, ds[i]) == "closed" <==> Closes(env, ds[i])
      ensures ModeOf(env, ds[i]) == "delayed" <==> Delays(env, ds[i])
    {
      ModesAre(env, ds[i]);
    }
  }

  lemma RulesIff(rules: seq<Relationship>, ds: seq<Disruption>)
    ensures RulesHold(rules, Dedup(SignalsOf(ds))) <==> RulesMet(rules, ds)
  {
    SignalsAre(ds);
    forall x ensures x in Dedup(SignalsOf(ds)) <==> Named(ds, x) {}
    forall i | 0 <= i < |rules| ensures RuleHolds(rules[i], Dedup(SignalsOf(ds))) <==> RuleMet(rules[i], ds) {}
  }

  /** The rules for a selection, in terms of the disruptions alone. */
  lemma ChecksAre(env: Env, ds: seq<Disruption>)
    ensures DistinctContent(env, ds) <==> ContentsApart(env, ds)
    ensures Clash(env, ds) <==> !NoneBoth(env, ds)
    ensures RulesHold(env.relationships, Dedup(SignalsOf(ds))) <==> RulesMet(env.relationships, ds)
  {
    ClashIff(env, ds);
    RulesIff(env.relationships, ds);
  }

  lemma CheckedIsFit(env: Env, basis: seq<Scenario>, selected: seq<string>)
    requires Check(env, basis, selected).Success?
    ensures var ds := Check(env, basis, selected).value;
      && 1 <= |ds| <= 20 && Drawn(basis, selected, ds)
      && ContentsApart(env, ds) && NoneBoth(env, ds) && RulesMet(env.relationships, ds)
  {
    ChosenAreDrawn(basis, selected);
    ChecksAre(env, Check(env, basis, selected).value);
  }

  /** Every composed scenario is drawn from the generated ones, with distinct contents, no
      target both closed and delayed, and the relationship rules met. */
  lemma ComposedIsSound(env: Env, c: Cycle, ids: seq<string>)
    requires Compose(env, c, ids).Success?
    ensures Sound(env, Basis(c), ids, Compose(env, c, ids).value.scenario)
    ensures Compose(env, c, ids).value.plans == [] && Compose(env, c, ids).value.baselineMetrics.None?
  {
    CheckedIsFit(env, Basis(c), Dedup(ids));
    var ds := Check(env, Basis(c), Dedup(ids)).value;
    SignalsAre(ds);
    ActivesAre(ds);
  }

  /** What a selection stands for, if it can be composed. */
  ghost predicate Fit(env: Env, basis: seq<Scenario>, ids: seq<string>, ds: seq<Disruption>) {
    && 1 <= |ds| <= 20 && Drawn(basis, Dedup(ids), ds)
    && ContentsApart(env, ds) && NoneBoth(env, ds) && RulesMet(env.relationships, ds)
  }

  /** The scenarios do not contradict each other about a disruption. */
  ghost predicate Consistent(basis: seq<Scenario>) {
    forall d: Disruption, e: Disruption :: InSome(basis, d) && InSome(basis, e) && d.id == e.id ==> d == e
  }

  lemma ConsistentIff(basis: seq<Scenario>)
    ensures Agree(Entries(basis)) <==> Consistent(basis)
  {
    var entries := Entries(basis);
    EntriesAre(basis);
    forall d: Disruption, e: Disruption | Agree(entries) && InSome(basis, d) && InSome(basis, e) && d.id == e.id ensures d == e {
      var k :| 0 <= k < |basis| && d in basis[k].disruptions;
      var l :| 0 <= l < |basis| && e in basis[l].disruptions;
      assert (d, basis[k]) in entries && (e, basis[l]) in entries;
    }
    forall i, j | Consistent(basis) && 0 <= i < |entries| && 0 <= j < |entries| && entries[i].0.id == entries[j].0.id
      ensures entries[i].0 == entries[j].0
    {
      assert entries[i] in entries && entries[j] in entries;
      assert InSome(basis, entries[i].0) && InSome(basis, entries[j].0);
    }
  }

  lemma DrawnIsChosen(basis: seq<Scenario>, selected: seq<string>, ds: seq<Disruption>)
    requires Agree(Entries(basis)) && Drawn(basis, selected, ds)
    ensures forall i :: 0 <= i < |selected| ==> selected[i] in Offers(Entries(basis))
    ensures Chosen(Offers(Entries(basis)), selected) == ds
  {
    var entries := Entries(basis);
    forall i | 0 <= i < |selected| ensures selected[i] in Offers(entries) && Offers(entries)[selected[i]].disruption == ds[i] {
      var k :| 0 <= k < |basis| && ds[i] in basis[k].disruptions;
      EntryIff(basis, (ds[i], basis[k]));
      var j :| 0 <= j < |entries| && entries[j] == (ds[i], basis[k]);
      EntryIsOffered(entries, j);
    }
  }

  /** A selection is composed exactly when no baseline was submitted, the scenarios do not
      contradict each other, and what it stands for is fit. */
  lemma ComposeSucceedsIff(env: Env, c: Cycle, ids: seq<string>)
    ensures Compose(env, c, ids).Success?
       <==> c.baselineRun.None? && Consistent(Basis(c)) && exists ds :: Fit(env, Basis(c), ids, ds)
  {
    var basis, selected := Basis(c), Dedup(ids);
    ConsistentIff(basis);
    if Compose(env, c, ids).Success? {
      CheckedIsFit(env, basis, selected);
      assert Fit(env, basis, ids, Check(env, basis, selected).value);
    }
    if c.baselineRun.None? && Consistent(basis) && exists ds :: Fit(env, basis, ids, ds) {
      var ds :| Fit(env, basis, ids, ds);
      DrawnIsChosen(basis, selected, ds);
      ChecksAre(env, ds);
      assert Check(env, basis, selected).Success?;
    }
  }

  /** Some chosen disruption is in the scenario. */
  predicate Contributes(o: Scenario, ds: seq<Disruption>) {
    exists i :: 0 <= i < |ds| && ds[i] in o.disruptions
  }

  predicate DistinctIds(basis: seq<Scenario>) {
    forall k, l :: 0 <= k < |basis| && 0 <= l < |basis| && basis[k].id == basis[l].id ==> basis[k] == basis[l]
  }

  lemma ContributorIsOffering(basis: seq<Scenario>, selected: seq<string>, x: string)
    requires Agree(Entries(basis)) && forall i :: 0 <= i < |selected| ==> selected[i] in Offers(Entries(basis))
    requires x in Contributing(Offers(Entries(basis)), selected)
    ensures var o := Contributing(Offers(Entries(basis)), selected)[x];
      o in basis && o.id == x && Contributes(o, Chosen(Offers(Entries(basis)), selected))
  {
    var index := Offers(Entries(basis));
    var ds, o := Chosen(index, selected), Contributing(index, selected)[x];
    ContributingAre(index, selected);
    var i :| 0 <= i < |selected| && o in index[selected[i]].owners;
    OfferIsEntry(Entries(basis), selected[i]);
    EntriesAre(basis);
    assert (ds[i], o) in Entries(basis);
  }

  lemma OfferingContributes(basis: seq<Scenario>, selected: seq<string>, o: Scenario)
    requires Agree(Entries(basis)) && forall i :: 0 <= i < |selected| ==> selected[i] in Offers(Entries(basis))
    requires o in basis && Contributes(o, Chosen(Offers(Entries(basis)), selected))
    ensures o.id in Contributing(Offers(Entries(basis)), selected)
  {
    var index := Offers(Entries(basis));
    var ds := Chosen(index, selected);
    ContributingAre(index, selected);
    var i :| 0 <= i < |ds| && ds[i] in o.disruptions;
    EntriesAre(basis);
    assert (ds[i], o) in Entries(basis);
    var e :| 0 <= e < |Entries(basis)| && Entries(basis)[e] == (ds[i], o);
    EntryIsOffered(Entries(basis), e);
    OfferIsEntry(Entries(basis), selected[i]);
  }

  /** The provenance names exactly the scenarios that contribute, and the probability is the
      greatest of theirs, as long as scenarios are told apart by their identifiers. */
  lemma ComposedProvenance(env: Env, c: Cycle, ids: seq<string>)
    requires Compose(env, c, ids).Success? && DistinctIds(Basis(c))
    ensures var s := Compose(env, c, ids).value.scenario;
      && (forall o :: o in Basis(c) ==> (o.id in s.sources <==> Contributes(o, s.disruptions)))
      && (forall x :: x in s.sources ==> exists o :: o in Basis(c) && o.id == x)
      && (exists o :: o in Basis(c) && Contributes(o, s.disruptions) && o.probability == s.probability)
      && (forall o :: o in Basis(c) && Contributes(o, s.disruptions) ==> o.probability <= s.probability)
  {
    var s, selected, basis := Compose(env, c, ids).value.scenario, Dedup(ids), Basis(c);
    var found := Contributing(Offers(Entries(basis)), selected);
    assert s.sources == found.Keys && IsGreatest(s.probability, found);
    forall x | x in found ensures found[x] in basis && found[x].id == x && Contributes(found[x], s.disruptions) {
      ContributorIsOffering(basis, selected, x);
    }
    forall o | o in basis && Contributes(o, s.disruptions) ensures o.id in found && found[o.id] == o {
      OfferingContributes(basis, selected, o);
    }
    forall o | o in basis && o.id in found ensures found[o.id] == o {
      assert found[o.id] in basis;
    }
  }

  // ---- The default selection ------------------------------------------------------------

  /** The first loop of `create_draft`: identifiers of disruptions with contents not seen yet. */
  function FreshIds(env: Env, entries: seq<(Disruption, Scenario)>): seq<string> {
    if entries == [] then []
    else
      var n := |entries| - 1;
      FreshIds(env, entries[..n]) + if KeyOf(env, entries[n].0) in KeysOf(env, entries[..n]) then [] else [entries[n].0.id]
  }

  function KeysOf(env: Env, entries: seq<(Disruption, Scenario)>): set<string> {
    set i | 0 <= i < |entries| :: KeyOf(env, entries[i].0)
  }

  function DefaultSelection(env: Env, generated: seq<Scenario>): seq<string> {
    var available := FreshIds(env, Entries(generated));
    if |available| > MAX_DISRUPTIONS then available[..MAX_DISRUPTIONS] else available
  }

  /** When the scenarios agree, the identifiers listed are on offer, distinct, and stand for
      distinct contents. */
  lemma {:induction false} FreshIdsAre(env: Env, entries: seq<(Disruption, Scenario)>)
    requires Agree(entries)
    ensures var ids, index := FreshIds(env, entries), Offers(entries);
      && (forall i :: 0 <= i < |ids| ==> ids[i] in index && KeyOf(env, index[ids[i]].disruption) in KeysOf(env, entries))
      && (forall i, j :: 0 <= i < j < |ids| ==> KeyOf(env, index[ids[i]].disruption) != KeyOf(env, index[ids[j]].disruption))
      && (entries != [] ==> ids != [])
    decreases |entries|
  {
    if entries != [] {
      var n := |entries| - 1;
      var before, ids, index := FreshIds(env, entries[..n]), FreshIds(env, entries), Offers(entries);
      AgreePrefix(entries, n);
      FreshIdsAre(env, entries[..n]);
      assert KeysOf(env, entries) == KeysOf(env, entries[..n]) + {KeyOf(env, entries[n].0)} by {
        forall i | 0 <= i < |entries| ensures i < n ==> entries[i] == entries[..n][i] {}
      }
      forall i | 0 <= i < |before|
        ensures before[i] in index && index[before[i]].disruption == Offers(entries[..n])[before[i]].disruption
      {
        OfferIsEntry(entries[..n], before[i]);
        OfferIsEntry(entries, before[i]);
        var old_, new_ := Offers(entries[..n])[before[i]], index[before[i]];
        assert (old_.disruption, old_.owners[0]) in entries;
        assert (new_.disruption, new_.owners[0]) in entries;
      }
      EntryIsOffered(entries, n);
    }
  }

  /** Some listed disruption has that content. */
  ghost predicate Listed(env: Env, entries: seq<(Disruption, Scenario)>, key: string) {
    exists i :: 0 <= i < |FreshIds(env, entries)| && FreshIds(env, entries)[i] in Offers(entries)
      && KeyOf(env, Offers(entries)[FreshIds(env, entries)[i]].disruption) == key
  }

  /** No content is passed over. */
  lemma {:induction false} FreshIdsCover(env: Env, entries: seq<(Disruption, Scenario)>, k: nat)
    requires Agree(entries) && k < |entries|
    ensures Listed(env, entries, env.key(entries[k].0.kind, entries[k].0.payload))
    decreases |entries|
  {
    var n := |entries| - 1;
    var before := entries[..n];
    AgreePrefix(entries, n);
    var key := env.key(entries[k].0.kind, entries[k].0.payload);
    if k < n { assert before[k] == entries[k] && key in KeysOf(env, before); }
    if key in KeysOf(env, before) {
      var j :| 0 <= j < n && KeyOf(env, before[j].0) == key;
      FreshIdsCover(env, before, j);
      StillListed(env, entries, key);
    } else {
      LastIsListed(env, entries);
    }
  }

  lemma LastIsListed(env: Env, entries: seq<(Disruption, Scenario)>)
    requires Agree(entries) && entries != []
    requires KeyOf(env, entries[|entries| - 1].0) !in KeysOf(env, entries[..|entries| - 1])
    ensures Listed(env, entries, KeyOf(env, entries[|entries| - 1].0))
  {
    var n := |entries| - 1;
    EntryIsOffered(entries, n);
    assert FreshIds(env, entries) == FreshIds(env, entries[..n]) + [entries[n].0.id];
    assert FreshIds(env, entries)[|FreshIds(env, entries[..n])|] == entries[n].0.id;
  }

  lemma StillListed(env: Env, entries: seq<(Disruption, Scenario)>, key: string)
    requires Agree(entries) && entries != [] && Listed(env, entries[..|entries| - 1], key)
    ensures Listed(env, entries, key)
  {
    var n := |entries| - 1;
    var before := entries[..n];
    var ids := FreshIds(env, before);
    AgreePrefix(entries, n);
    var i :| 0 <= i < |ids| && ids[i] in Offers(before) && KeyOf(env, Offers(before)[ids[i]].disruption) == key;
    OfferIsEntry(before, ids[i]);
    OfferIsEntry(entries, ids[i]);
    var old_, new_ := Offers(before)[ids[i]], Offers(entries)[ids[i]];
    assert (old_.disruption, old_.owners[0]) in entries && (new_.disruption, new_.owners[0]) in entries;
    assert FreshIds(env, entries)[i] == ids[i];
  }

  lemma DefaultIsBounded(env: Env, generated: seq<Scenario>)
    requires generated != [] && generated[0].disruptions != []
    ensures 1 <= |Dedup(DefaultSelection(env, generated))| <= MAX_DISRUPTIONS
  {
    EntriesAre(generated);
    assert (generated[0].disruptions[0], generated[0]) in Entries(generated);
    FreshNonEmpty(env, Entries(generated));
    assert DefaultSelection(env, generated)[0] in Dedup(DefaultSelection(env, generated));
  }

  lemma DefaultIsOffered(env: Env, generated: seq<Scenario>)
    requires Agree(Entries(generated))
    ensures var ids, index := DefaultSelection(env, generated), Offers(Entries(generated));
      && Dedup(ids) == ids && (forall i :: 0 <= i < |ids| ==> ids[i] in index)
      && DistinctContent(env, Chosen(index, ids))
  {
    FreshIdsAre(env, Entries(generated));
    DedupDistinct(DefaultSelection(env, generated));
  }

  /** The default selection leaves a content out only when there are twenty others before it. */
  lemma DefaultCovers(env: Env, generated: seq<Scenario>, d: Disruption)
    requires Agree(Entries(generated)) && InSome(generated, d) && |DefaultSelection(env, generated)| < 20
    ensures var index := Offers(Entries(generated));
      exists id :: id in DefaultSelection(env, generated) && id in index
        && env.key(index[id].disruption.kind, index[id].disruption.payload) == env.key(d.kind, d.payload)
  {
    var entries := Entries(generated);
    var o :| 0 <= o < |generated| && d in generated[o].disruptions;
    EntryIff(generated, (d, generated[o]));
    var k :| 0 <= k < |entries| && entries[k] == (d, generated[o]);
    FreshIdsCover(env, entries, k);
    var i :| 0 <= i < |FreshIds(env, entries)| && FreshIds(env, entries)[i] in Offers(entries)
      && KeyOf(env, Offers(entries)[FreshIds(env, entries)[i]].disruption) == env.key(d.kind, d.payload);
    assert FreshIds(env, entries)[i] in DefaultSelection(env, generated);
  }

  /** The default selection is never refused as empty, too large, unknown or duplicate: only a
      disagreement between the scenarios, a closed and delayed target, or a relationship rule
      can refuse it. */
  lemma DefaultSelectionIsFit(env: Env, c: Cycle)
    requires c.generated != [] && c.generated[0].disruptions != [] && c.baselineRun.None?
    ensures var r := Compose(env, c, DefaultSelection(env, c.generated));
      r.Failure? ==> r.error == Disagreement || r.error == ClosedAndDelayed || r.error == RelationshipBroken
  {
    DefaultIsBounded(env, c.generated);
    if Agree(Entries(c.generated)) {
      DefaultIsOffered(env, c.generated);
    }
  }

  lemma {:induction false} FreshNonEmpty(env: Env, entries: seq<(Disruption, Scenario)>)
    requires entries != []
    ensures FreshIds(env, entries) != []
  {
    if |entries| > 1 { FreshNonEmpty(env, entries[..|entries| - 1]); }
  }

  // ---- Composing again ------------------------------------------------------------------

  /** A second review forgets the first: composing again gives what composing at once gives. */
  lemma RecompositionForgets(env: Env, c: Cycle, first: seq<string>, second: seq<string>)
    requires c.generated != [] && Compose(env, c, first).Success?
    ensures Compose(env, Compose(env, c, first).value, second) == Compose(env, c, second)
  {
  }

  lemma SingleBasis(env: Env, c: Cycle, ids: seq<string>)
    requires c.generated == [] && Compose(env, c, ids).Success?
    ensures var s := Compose(env, c, ids).value.scenario;
      && s.sources == {c.scenario.id} && s.probability == c.scenario.probability
      && Drawn([c.scenario], Dedup(ids), s.disruptions)
  {
    CheckedIsFit(env, Basis(c), Dedup(ids));
    SingleSource(env, c, ids);
  }

  lemma SingleSource(env: Env, c: Cycle, ids: seq<string>)
    requires c.generated == [] && Compose(env, c, ids).Success?
    ensures var s := Compose(env, c, ids).value.scenario; s.sources == {c.scenario.id} && s.probability == c.scenario.probability
  {
    var s := Compose(env, c, ids).value.scenario;
    ComposedProvenance(env, c, ids);
    assert forall o :: o in Basis(c) <==> o == c.scenario;
    assert forall x :: x in s.sources <==> x == c.scenario.id;
  }

  lemma OneDisruptionPerId(s: Scenario, a: Disruption, b: Disruption)
    requires Agree(Entries([s])) && a in s.disruptions && b in s.disruptions && a.id == b.id
    ensures a == b
  {
    EntriesAre([s]);
    assert [s][0] == s && (a, s) in Entries([s]) && (b, s) in Entries([s]);
  }

  lemma SameChoice(s: Scenario, s1: Scenario, first: seq<string>, second: seq<string>, twice: seq<Disruption>, once: seq<Disruption>)
    requires Agree(Entries([s])) && Drawn([s], first, s1.disruptions)
    requires Drawn([s1], second, twice) && Drawn([s], second, once)
    ensures twice == once
  {
    forall i | 0 <= i < |twice| ensures twice[i] == once[i] {
      assert InSome([s1], twice[i]) && InSome([s], once[i]);
      var j :| 0 <= j < |s1.disruptions| && s1.disruptions[j] == twice[i];
      assert InSome([s], s1.disruptions[j]);
      OneDisruptionPerId(s, twice[i], once[i]);
    }
  }

  ghost predicate FrozenBy(env: Env, contextVersion: string, stateVersion: string, s: Scenario) {
    s == Scenario(env.identity(contextVersion, stateVersion, s.disruptions, ActiveOf(s.disruptions)), "user-reviewed",
                  contextVersion, stateVersion, s.disruptions, ActiveOf(s.disruptions), s.probability,
                  Dedup(SignalsOf(s.disruptions)), s.sources)
  }

  lemma FrozenParts(env: Env, c: Cycle, ids: seq<string>)
    requires Compose(env, c, ids).Success?
    ensures var r := Compose(env, c, ids).value;
      && Agree(Entries(Basis(c)))
      && r == c.(scenario := r.scenario, selected := Dedup(ids), status := Proposed, plans := [], baselineMetrics := None, error := None)
      && FrozenBy(env, c.scenario.contextVersion, c.scenario.stateVersion, r.scenario)
  {
  }

  lemma SameReview(env: Env, c: Cycle, c1: Cycle, twice: Cycle, once: Cycle, first: seq<string>, second: seq<string>)
    requires c1 == Reviewed(c, c1.scenario, first)
    requires FrozenBy(env, c.scenario.contextVersion, c.scenario.stateVersion, c1.scenario)
    requires twice == Reviewed(c1, twice.scenario, second) && once == Reviewed(c, once.scenario, second)
    requires FrozenBy(env, c1.scenario.contextVersion, c1.scenario.stateVersion, twice.scenario)
    requires FrozenBy(env, c.scenario.contextVersion, c.scenario.stateVersion, once.scenario)
    requires twice.scenario.disruptions == once.scenario.disruptions
    requires twice.scenario.probability == once.scenario.probability
    requires twice.scenario.sources == {c1.scenario.id} && once.scenario.sources == {c.scenario.id}
    ensures twice == once <==> c1.scenario.id == c.scenario.id
  {
    assert c1.scenario.id in {c1.scenario.id};
  }

  /** Every identifier of `second` was in `first`. */
  predicate Within(second: seq<string>, first: seq<string>) { forall x :: x in second ==> x in first }

  lemma DrawnAgain(s: Scenario, s1: Scenario, first: seq<string>, second: seq<string>, ds: seq<Disruption>)
    requires Agree(Entries([s])) && Drawn([s], first, s1.disruptions)
    ensures Drawn([s1], second, ds) <==> Drawn([s], second, ds) && Within(second, first)
  {
    var was := s1.disruptions;
    assert [s][0] == s && [s1][0] == s1;
    forall i | 0 <= i < |was| ensures was[i] in s.disruptions && was[i].id == first[i] { assert InSome([s], was[i]); }
    if Drawn([s1], second, ds) {
      forall i | 0 <= i < |ds| ensures InSome([s], ds[i]) && second[i] in first {
        assert InSome([s1], ds[i]);
        var j :| 0 <= j < |was| && was[j] == ds[i];
        assert first[j] == second[i] && ds[i] in [s][0].disruptions;
      }
    }
    if Drawn([s], second, ds) && Within(second, first) {
      forall i | 0 <= i < |ds| ensures InSome([s1], ds[i]) {
        assert InSome([s], ds[i]) && second[i] in second;
        var j :| 0 <= j < |first| && first[j] == second[i];
        OneDisruptionPerId(s, was[j], ds[i]);
        assert ds[i] in [s1][0].disruptions;
      }
    }
  }

  lemma ReviewAgrees(s: Scenario, s1: Scenario, first: seq<string>)
    requires Agree(Entries([s])) && Drawn([s], first, s1.disruptions)
    ensures Consistent([s1])
  {
    assert [s][0] == s && [s1][0] == s1;
    forall d: Disruption, e: Disruption | InSome([s1], d) && InSome([s1], e) && d.id == e.id ensures d == e {
      var i :| 0 <= i < |s1.disruptions| && s1.disruptions[i] == d;
      var j :| 0 <= j < |s1.disruptions| && s1.disruptions[j] == e;
      assert InSome([s], s1.disruptions[i]) && InSome([s], s1.disruptions[j]);
      OneDisruptionPerId(s, d, e);
    }
  }

  /** For a cycle without generated scenarios the basis of the second review is the outcome of
      the first: it goes through exactly if it would have gone through at once and selects
      nothing that the first one left out. */
  lemma NarrowReviewLosesDisruptions(env: Env, c: Cycle, first: seq<string>, second: seq<string>)
    requires c.generated == [] && Compose(env, c, first).Success?
    ensures Compose(env, Compose(env, c, first).value, second).Success?
       <==> Compose(env, c, second).Success? && Within(second, first)
  {
    var c1 := Compose(env, c, first).value;
    FrozenParts(env, c, first);
    SingleBasis(env, c, first);
    ReviewAgrees(c.scenario, c1.scenario, Dedup(first));
    ComposeSucceedsIff(env, c1, second);
    ComposeSucceedsIff(env, c, second);
    ConsistentIff(Basis(c));
    assert Within(Dedup(second), Dedup(first)) <==> Within(second, first);
    forall ds ensures Fit(env, Basis(c1), second, ds) <==> Fit(env, Basis(c), second, ds) && Within(second, first) {
      DrawnAgain(c.scenario, c1.scenario, Dedup(first), Dedup(second), ds);
    }
  }

  /** When the second review would have gone through at once, the first one is forgotten exactly
      if it left out nothing that the second selects and kept the scenario's identity. When it
      would not, it does not go through after the first either. */
  lemma RecompositionWithoutGenerated(env: Env, c: Cycle, first: seq<string>, second: seq<string>)
    requires c.generated == [] && Compose(env, c, first).Success?
    ensures var c1 := Compose(env, c, first).value;
      var forgotten := Compose(env, c1, second) == Compose(env, c, second);
      Compose(env, c, second).Success? ==> (forgotten <==> Within(second, first) && c1.scenario.id == c.scenario.id)
    ensures Compose(env, c, second).Failure? ==> Compose(env, Compose(env, c, first).value, second).Failure?
  {
    var c1 := Compose(env, c, first).value;
    NarrowReviewLosesDisruptions(env, c, first, second);
    if Compose(env, c, second).Success? && Within(second, first) {
      var twice, once := Compose(env, c1, second).value, Compose(env, c, second).value;
      FrozenParts(env, c, first);
      FrozenParts(env, c, second);
      FrozenParts(env, c1, second);
      SingleBasis(env, c, first);
      SingleBasis(env, c, second);
      SingleBasis(env, c1, second);
      SameChoice(c.scenario, c1.scenario, Dedup(first), Dedup(second), twice.scenario.disruptions, once.scenario.disruptions);
      SameReview(env, c, c1, twice, once, Dedup(first), Dedup(second));
    }
  }

  /** Two disruptions without anything between them, each of which can be selected alone. */
  function Sample(id: string): Disruption { Disruption(id, id, Null, None, false, "") }

  const SAMPLE_ENV := Env(
    (kind: string, payload: Json) => kind, (kind: string) => false, (kind: string) => false, (payload: Json) => {},
    (a: string, b: string, ds: seq<Disruption>, active: seq<(string, Json)>) => "", [])

  function SampleCycle(): Cycle {
    Cycle("c", Scenario("s", "", "", "", [Sample("a"), Sample("b")], [], 1.0, [], {}), [], [], [], [], Proposed,
          None, None, [], None)
  }

  lemma SampleComposes(id: string)
    requires id == "a" || id == "b"
    ensures Compose(SAMPLE_ENV, SampleCycle(), [id]).Success?
  {
    var s := SampleCycle().scenario;
    var ds := [Sample(id)];
    assert Sample("a") == s.disruptions[0] && Sample("b") == s.disruptions[1];
    assert Basis(SampleCycle()) == [s] && [s][0] == s;
    DedupDistinct([id]);
    assert InSome([s], ds[0]);
    assert SignalsOf(ds) == [] by { assert ds[..0] == []; }
    assert Fit(SAMPLE_ENV, [s], [id], ds);
    ComposeSucceedsIff(SAMPLE_ENV, SampleCycle(), [id]);
  }

  /** A cycle on which it happens: after a review that selects one disruption, the other one, which
      could have been selected before, no longer can. */
  lemma NarrowReviewExample()
    ensures Compose(SAMPLE_ENV, SampleCycle(), ["a"]).Success? && Compose(SAMPLE_ENV, SampleCycle(), ["b"]).Success?
    ensures !Compose(SAMPLE_ENV, Compose(SAMPLE_ENV, SampleCycle(), ["a"]).value, ["b"]).Success?
  {
    SampleComposes("a");
    SampleComposes("b");
    NarrowReviewLosesDisruptions(SAMPLE_ENV, SampleCycle(), ["a"], ["b"]);
    assert "b" in ["b"] && "b" !in ["a"];
  }
}
