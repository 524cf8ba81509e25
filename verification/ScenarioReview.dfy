/** The loops of `create_draft` and `compose_scenario`, proved against `Scenario`. */
module ScenarioReview {
  import opened Wrappers
  import opened Json
  import opened PlanningTypes
  import opened Scenario

  lemma NextEntry(generated: seq<PlanningTypes.Scenario>, i: nat, j: nat)
    requires i < |generated| && j < |generated[i].disruptions|
    ensures Pairs(generated[i])[..j + 1] == Pairs(generated[i])[..j] + [(generated[i].disruptions[j], generated[i])]
  {
  }

  lemma NextScenario(generated: seq<PlanningTypes.Scenario>, i: nat)
    requires i < |generated|
    ensures Entries(generated[..i + 1]) == Entries(generated[..i]) + Pairs(generated[i])
  {
    assert generated[..i + 1][..i] == generated[..i];
  }

  /** What the nested loops have gone through at disruption `j` of scenario `i`. */
  ghost function Passed(generated: seq<PlanningTypes.Scenario>, i: nat, j: nat): seq<(Disruption, PlanningTypes.Scenario)>
    requires i <= |generated| && (i < |generated| ==> j <= |generated[i].disruptions|)
  {
    Entries(generated[..i]) + if i < |generated| then Pairs(generated[i])[..j] else []
  }

  lemma PassedGrows(generated: seq<PlanningTypes.Scenario>, i: nat, j: nat)
    requires i < |generated| && j < |generated[i].disruptions|
    ensures Passed(generated, i, j + 1) == Passed(generated, i, j) + [(generated[i].disruptions[j], generated[i])]
  {
    NextEntry(generated, i, j);
  }

  lemma PassedScenario(generated: seq<PlanningTypes.Scenario>, i: nat)
    requires i < |generated|
    ensures Passed(generated, i, |generated[i].disruptions|) == Passed(generated, i + 1, 0)
  {
    NextScenario(generated, i);
    assert Pairs(generated[i])[..|generated[i].disruptions|] == Pairs(generated[i]);
  }

  lemma {:induction false} PassedIsPrefix(generated: seq<PlanningTypes.Scenario>, i: nat, j: nat)
    requires i < |generated| && j <= |generated[i].disruptions|
    ensures Passed(generated, i, j) <= Entries(generated)
    decreases |generated|
  {
    var n := |generated| - 1;
    assert generated[..n] + [generated[n]] == generated;
    if i < n {
      PassedIsPrefix(generated[..n], i, j);
      assert generated[..n][..i] == generated[..i];
    }
  }

  lemma AgreeGrows(entries: seq<(Disruption, PlanningTypes.Scenario)>, e: (Disruption, PlanningTypes.Scenario))
    requires Agree(entries)
    ensures Agree(entries + [e]) <==> e.0.id !in Offers(entries) || Offers(entries)[e.0.id].disruption == e.0
    ensures Offers(entries + [e]) == Extend(Offers(entries), e)
  {
    var more := entries + [e];
    assert more[..|entries|] == entries;
    if e.0.id in Offers(entries) {
      OfferIsEntry(entries, e.0.id);
      var offer := Offers(entries)[e.0.id];
      var k :| 0 <= k < |entries| && entries[k] == (offer.disruption, offer.owners[0]);
      assert more[k] == entries[k] && more[|entries|] == e;
    }
    forall k | 0 <= k < |entries| ensures entries[k].0.id in Offers(entries) && Offers(entries)[entries[k].0.id].disruption == entries[k].0 {
      EntryIsOffered(entries, k);
    }
  }

  ghost predicate Collected(generated: seq<PlanningTypes.Scenario>, i: nat, j: nat, index: map<string, Offer>) {
    && i <= |generated| && (i < |generated| ==> j <= |generated[i].disruptions|)
    && Agree(Passed(generated, i, j)) && index == Offers(Passed(generated, i, j))
  }

  lemma CollectNext(generated: seq<PlanningTypes.Scenario>, i: nat, j: nat, index: map<string, Offer>)
    requires i < |generated| && j < |generated[i].disruptions| && Collected(generated, i, j, index)
    ensures var owner, d := generated[i], generated[i].disruptions[j];
      if d.id in index && index[d.id].disruption != d then !Agree(Entries(generated))
      else Collected(generated, i, j + 1, Extend(index, (d, owner)))
  {
    var e := (generated[i].disruptions[j], generated[i]);
    AgreeGrows(Passed(generated, i, j), e);
    PassedGrows(generated, i, j);
    if Agree(Entries(generated)) {
      PassedIsPrefix(generated, i, j + 1);
      AgreePrefix(Entries(generated), |Passed(generated, i, j + 1)|);
    }
  }

  /** The nested loop over scenarios and disruptions that fills `available` and `owners`. */
  method CollectOffers(generated: seq<PlanningTypes.Scenario>) returns (r: Option<map<string, Offer>>)
    ensures r == if Agree(Entries(generated)) then Some(Offers(Entries(generated))) else None
  {
    var index: map<string, Offer> := map[];
    var i := 0;
    while i < |generated|
      invariant Collected(generated, i, 0, index)
    {
      var owner := generated[i];
      var j := 0;
      while j < |owner.disruptions|
        invariant j <= |owner.disruptions| && Collected(generated, i, j, index)
      {
        var d := owner.disruptions[j];
        CollectNext(generated, i, j, index);
        if d.id in index && index[d.id].disruption != d {
          return None;
        }
        index := index[d.id := Offer(d, if d.id in index then index[d.id].owners + [owner] else [owner])];
        j := j + 1;
      }
      PassedScenario(generated, i);
      i := i + 1;
    }
    assert generated[..i] == generated && Passed(generated, i, 0) == Entries(generated);
    r := Some(index);
  }

  // ---- Closed and delayed targets -----------------------------------------------------

  predicate Has(modes: map<string, set<string>>, t: string, mode: string) { t in modes && mode in modes[t] }

  predicate HasMode(env: Env, ds: seq<Disruption>, t: string, mode: string) {
    exists i :: 0 <= i < |ds| && t in env.targets(ds[i].payload) && ModeOf(env, ds[i]) == mode
  }

  lemma HasModeNext(env: Env, ds: seq<Disruption>, i: nat, t: string, mode: string)
    requires i < |ds|
    ensures HasMode(env, ds[..i + 1], t, mode)
       <==> HasMode(env, ds[..i], t, mode) || (t in env.targets(ds[i].payload) && mode == ModeOf(env, ds[i]))
  {
    if HasMode(env, ds[..i], t, mode) {
      var k :| 0 <= k < i && t in env.targets(ds[..i][k].payload) && ModeOf(env, ds[..i][k]) == mode;
      assert ds[..i + 1][k] == ds[k];
    }
    if t in env.targets(ds[i].payload) && mode == ModeOf(env, ds[i]) { assert ds[..i + 1][i] == ds[i]; }
    if k :| 0 <= k < i && t in env.targets(ds[k].payload) && ModeOf(env, ds[k]) == mode { assert ds[..i][k] == ds[k]; }
    assert forall k :: 0 <= k < i ==> ds[..i + 1][k] == ds[k];
  }

  lemma ClashByModes(env: Env, ds: seq<Disruption>, modes: map<string, set<string>>)
    requires forall t, mode :: Has(modes, t, mode) <==> HasMode(env, ds, t, mode)
    ensures (exists t :: t in modes && {"closed", "delayed"} <= modes[t]) <==> Clash(env, ds)
  {
    forall t: string
      ensures t in modes && {"closed", "delayed"} <= modes[t] <==> HasMode(env, ds, t, "closed") && HasMode(env, ds, t, "delayed")
    {
      assert Has(modes, t, "closed") <==> HasMode(env, ds, t, "closed");
      assert Has(modes, t, "delayed") <==> HasMode(env, ds, t, "delayed");
    }
    if Clash(env, ds) {
      var i, j, t :| 0 <= i < |ds| && 0 <= j < |ds| && t in env.targets(ds[i].payload) && t in env.targets(ds[j].payload)
        && ModeOf(env, ds[i]) == "closed" && ModeOf(env, ds[j]) == "delayed";
      assert HasMode(env, ds, t, "closed") && HasMode(env, ds, t, "delayed");
    }
  }

  /** The loop over the targets of one disruption. */
  method AddTargets(modes: map<string, set<string>>, targets: set<string>, mode: string)
    returns (after: map<string, set<string>>)
    ensures forall t, m :: Has(after, t, m) <==> Has(modes, t, m) || (t in targets && m == mode)
  {
    after := modes;
    var pending := targets;
    while pending != {}
      invariant pending <= targets
      invariant forall t, m :: Has(after, t, m) <==> Has(modes, t, m) || (t in targets && t !in pending && m == mode)
      decreases |pending|
    {
      var t :| t in pending;
      after := after[t := (if t in after then after[t] else {}) + {mode}];
      pending := pending - {t};
    }
  }

  /** The loop over the disruptions: `target_modes`. */
  method CollectModes(env: Env, ds: seq<Disruption>) returns (modes: map<string, set<string>>)
    ensures forall t, mode :: Has(modes, t, mode) <==> HasMode(env, ds, t, mode)
  {
    modes := map[];
    var i := 0;
    while i < |ds|
      invariant i <= |ds|
      invariant forall t, mode :: Has(modes, t, mode) <==> HasMode(env, ds[..i], t, mode)
    {
      ghost var before := modes;
      modes := AddTargets(modes, env.targets(ds[i].payload), ModeOf(env, ds[i]));
      forall t: string, mode: string ensures Has(modes, t, mode) <==> HasMode(env, ds[..i + 1], t, mode) {
        assert Has(before, t, mode) <==> HasMode(env, ds[..i], t, mode);
        HasModeNext(env, ds, i, t, mode);
      }
      i := i + 1;
    }
    assert ds[..i] == ds;
  }

  // ---- The service --------------------------------------------------------------------

  /** `_validate_selected_relationships`. */
  method ValidateRelationships(selected: seq<string>, rules: seq<Relationship>) returns (ok: bool)
    ensures ok <==> RulesHold(rules, selected)
  {
    var i := 0;
    while i < |rules|
      invariant i <= |rules| && forall k :: 0 <= k < i ==> RuleHolds(rules[k], selected)
    {
      var source, target := rules[i].source in selected, rules[i].target in selected;
      if rules[i].kind == MutuallyExclusive && source && target {
        return false;
      }
      if rules[i].kind == Requires && source && !target {
        return false;
      }
      if rules[i].kind == Supersedes && source && target {
        return false;
      }
      i := i + 1;
    }
    ok := true;
  }

  /** `compose_scenario`. */
  method ComposeScenario(env: Env, c: Cycle, ids: seq<string>) returns (r: Result<Cycle, ComposeError>)
    ensures r == Compose(env, c, ids)
  {
    if c.baselineRun.Some? {
      return Failure(AlreadySubmitted);
    }
    var selected := Dedup(ids);
    if selected == [] {
      return Failure(NothingSelected);
    }
    if |selected| > MAX_DISRUPTIONS {
      return Failure(TooMany);
    }
    var collected := CollectOffers(Basis(c));
    if collected.None? {
      return Failure(Disagreement);
    }
    var index := collected.value;
    if exists i :: 0 <= i < |selected| && selected[i] !in index {
      return Failure(UnknownDisruption);
    }
    var ds := Chosen(index, selected);
    if !DistinctContent(env, ds) {
      return Failure(DuplicateDisruption);
    }
    var modes := CollectModes(env, ds);
    ClashByModes(env, ds, modes);
    if exists t :: t in modes && {"closed", "delayed"} <= modes[t] {
      return Failure(ClosedAndDelayed);
    }
    var ok := ValidateRelationships(Dedup(SignalsOf(ds)), env.relationships);
    if !ok {
      return Failure(RelationshipBroken);
    }
    SomeContribute(Basis(c), selected);
    var scenario := Freeze(env, c.scenario.contextVersion, c.scenario.stateVersion, ds, Contributing(index, selected));
    r := Success(Reviewed(c, scenario, selected));
  }

  datatype DraftError = NoScenarios | TooManyScenarios | Refused(error: ComposeError)

  /** The first page of the disruptions with contents not listed before. */
  method SelectDefault(env: Env, generated: seq<PlanningTypes.Scenario>) returns (ids: seq<string>)
    ensures ids == DefaultSelection(env, generated)
  {
    var available: seq<string> := [];
    var seen: set<string> := {};
    var i := 0;
    while i < |generated|
      invariant i <= |generated|
      invariant available == FreshIds(env, Passed(generated, i, 0)) && seen == KeysOf(env, Passed(generated, i, 0))
    {
      var j := 0;
      while j < |generated[i].disruptions|
        invariant j <= |generated[i].disruptions|
        invariant available == FreshIds(env, Passed(generated, i, j)) && seen == KeysOf(env, Passed(generated, i, j))
      {
        var d := generated[i].disruptions[j];
        SelectNext(env, generated, i, j);
        if KeyOf(env, d) !in seen {
          available := available + [d.id];
          seen := seen + {KeyOf(env, d)};
        }
        j := j + 1;
      }
      PassedScenario(generated, i);
      i := i + 1;
    }
    assert generated[..i] == generated && Passed(generated, i, 0) == Entries(generated);
    ids := if |available| > MAX_DISRUPTIONS then available[..MAX_DISRUPTIONS] else available;
  }

  lemma SelectNext(env: Env, generated: seq<PlanningTypes.Scenario>, i: nat, j: nat)
    requires i < |generated| && j < |generated[i].disruptions|
    ensures var before, after, d := Passed(generated, i, j), Passed(generated, i, j + 1), generated[i].disruptions[j];
      && FreshIds(env, after) == FreshIds(env, before) + (if KeyOf(env, d) in KeysOf(env, before) then [] else [d.id])
      && KeysOf(env, after) == KeysOf(env, before) + {KeyOf(env, d)}
  {
    var before, after := Passed(generated, i, j), Passed(generated, i, j + 1);
    PassedGrows(generated, i, j);
    assert after[..|before|] == before && after[|before|].0 == generated[i].disruptions[j];
    forall k ensures k in KeysOf(env, after) <==> k in KeysOf(env, before) || k == KeyOf(env, generated[i].disruptions[j]) {
      if k in KeysOf(env, before) {
        var e :| 0 <= e < |before| && k == KeyOf(env, before[e].0);
        assert after[e] == before[e];
      }
      if k == KeyOf(env, generated[i].disruptions[j]) { assert k == KeyOf(env, after[|before|].0); }
      if k in KeysOf(env, after) && k != KeyOf(env, generated[i].disruptions[j]) {
        var e :| 0 <= e < |after| && k == KeyOf(env, after[e].0);
        assert after[e] == before[e];
      }
    }
  }

  /** `create_draft`, once the scenarios are generated: the draft is the composition of the
      default selection. */
  method CreateDraft(env: Env, id: string, generated: seq<PlanningTypes.Scenario>,
                     objectives: seq<string>, constraints: seq<(string, real)>)
    returns (r: Result<Cycle, DraftError>)
    ensures generated == [] ==> r == Failure(NoScenarios)
    ensures |generated| > 20 ==> r == Failure(TooManyScenarios)
    ensures r.Success? ==>
      && Draft(r.value) && r.value.id == id && r.value.generated == generated
      && r.value.objectives == objectives && r.value.constraints == constraints
      && r.value.scenario.contextVersion == generated[0].contextVersion
      && r.value.scenario.stateVersion == generated[0].stateVersion
      && r.value.selected == Dedup(DefaultSelection(env, generated))
      && Sound(env, generated, DefaultSelection(env, generated), r.value.scenario)
    ensures r.Failure? && 1 <= |generated| <= 20 && generated[0].disruptions != [] ==>
      r.error in {Refused(Disagreement), Refused(ClosedAndDelayed), Refused(RelationshipBroken)}
  {
    if generated == [] {
      return Failure(NoScenarios);
    }
    var selected := SelectDefault(env, generated);
    if |generated| > MAX_SCENARIOS {
      return Failure(TooManyScenarios);
    }
    var cycle := Cycle(id, generated[0], generated, selected, objectives, constraints, Proposed, None, None, [], None);
    var composed := ComposeScenario(env, cycle, selected);
    if generated[0].disruptions != [] {
      DefaultSelectionIsFit(env, cycle);
    }
    if composed.Failure? {
      return Failure(Refused(composed.error));
    }
    ComposedIsSound(env, cycle, selected);
    FrozenParts(env, cycle, selected);
    r := Success(composed.value);
  }
}
