/** Ranking of evaluated plans: lexicographic by metrics under hard constraints. */
module Ranking {
  import opened Wrappers
  import opened PlanningTypes
  import Numerals
  import opened Sets

  const METRICS: seq<string> := ["late_shipments", "average_delay_hours", "total_cost"]

  /** A metric that is not reported counts as infinite. */
  datatype Value = Finite(r: real) | Infinite

  predicate ValueLess(a: Value, b: Value) {
    a.Finite? && (b.Infinite? || a.r < b.r)
  }

  function Reported(metrics: Metrics, name: string): Value { if name in metrics then Finite(metrics[name]) else Infinite }

  predicate Exceeds(metrics: Metrics, limit: (string, real)) { ValueLess(Finite(limit.1), Reported(metrics, limit.0)) }

  /** The constraints a plan violates, in the order of the constraints. */
  function Reasons(metrics: Metrics, constraints: seq<(string, real)>): seq<(string, real)> {
    if constraints == [] then []
    else
      var before, last := Reasons(metrics, constraints[..|constraints| - 1]), constraints[|constraints| - 1];
      if Exceeds(metrics, last) then before + [last] else before
  }

  /** The reasons against a plan, in numbers: the constraints on metrics that it does not report,
      or reports above the limit. */
  lemma {:induction false} ReasonsAre(metrics: Metrics, constraints: seq<(string, real)>, name: string, limit: real)
    ensures (name, limit) in Reasons(metrics, constraints)
       <==> (name, limit) in constraints && (name !in metrics || metrics[name] > limit)
  {
    if constraints != [] {
      var n := |constraints| - 1;
      ReasonsAre(metrics, constraints[..n], name, limit);
      assert constraints == constraints[..n] + [constraints[n]];
    }
  }

  /** They are listed in the order of the constraints, as often as these. */
  lemma {:induction false} ReasonsInOrder(metrics: Metrics, first: seq<(string, real)>, more: seq<(string, real)>)
    ensures Reasons(metrics, first + more) == Reasons(metrics, first) + Reasons(metrics, more)
  {
    if more == [] {
      assert first + more == first;
    } else {
      var n := |more| - 1;
      assert (first + more)[..|first| + n] == first + more[..n];
      ReasonsInOrder(metrics, first, more[..n]);
    }
  }

  /** Every limit is kept: the metric is reported and not above it. */
  predicate WithinAll(metrics: Metrics, limits: seq<(string, real)>) {
    forall i :: 0 <= i < |limits| ==> limits[i].0 in metrics && metrics[limits[i].0] <= limits[i].1
  }

  lemma NoReasons(metrics: Metrics, constraints: seq<(string, real)>)
    ensures Reasons(metrics, constraints) == [] <==> WithinAll(metrics, constraints)
  {
    if Reasons(metrics, constraints) == [] {
      forall i | 0 <= i < |constraints| ensures constraints[i].0 in metrics && metrics[constraints[i].0] <= constraints[i].1 {
        ReasonsAre(metrics, constraints, constraints[i].0, constraints[i].1);
        assert (constraints[i].0, constraints[i].1) == constraints[i];
      }
    } else {
      var reason := Reasons(metrics, constraints)[0];
      ReasonsAre(metrics, constraints, reason.0, reason.1);
      var i :| 0 <= i < |constraints| && constraints[i] == reason;
    }
  }

  function Values(metrics: Metrics, names: seq<string>): seq<Value> {
    seq(|names|, i requires 0 <= i < |names| => Reported(metrics, names[i]))
  }

  /** What a plan is sorted by. */
  datatype Entry = Entry(disqualified: bool, values: seq<Value>, proposalId: string, id: string)

  /** Python's order on tuples of equal length. */
  predicate ValuesLess(a: seq<Value>, b: seq<Value>) {
    a != [] && b != [] && (ValueLess(a[0], b[0]) || (a[0] == b[0] && ValuesLess(a[1..], b[1..])))
  }

  predicate Before(a: Entry, b: Entry) {
    if a.disqualified != b.disqualified then b.disqualified
    else if a.values != b.values then ValuesLess(a.values, b.values)
    else if a.proposalId != b.proposalId then Numerals.Less(a.proposalId, b.proposalId)
    else Numerals.Less(a.id, b.id)
  }

  // ---- The order ----------------------------------------------------------------------

  lemma {:induction false} ValuesOrder(a: seq<Value>, b: seq<Value>, c: seq<Value>)
    requires |a| == |b| == |c|
    ensures !ValuesLess(a, a)
    ensures a == b || ValuesLess(a, b) || ValuesLess(b, a)
    ensures ValuesLess(a, b) && ValuesLess(b, c) ==> ValuesLess(a, c)
    decreases |a|
  {
    if a != [] {
      ValuesOrder(a[1..], b[1..], c[1..]);
      assert a == [a[0]] + a[1..] && b == [b[0]] + b[1..];
    }
  }

  predicate SameWidth(a: Entry, b: Entry) { |a.values| == |b.values| }

  lemma BeforeIrreflexive(a: Entry)
    ensures !Before(a, a)
  {
    Numerals.LessIrreflexive(a.id);
  }

  lemma BeforeTotal(a: Entry, b: Entry)
    requires SameWidth(a, b) && a != b
    ensures Before(a, b) || Before(b, a)
  {
    ValuesOrder(a.values, b.values, a.values);
    if a.proposalId != b.proposalId { Numerals.LessTotal(a.proposalId, b.proposalId); }
    if a.id != b.id { Numerals.LessTotal(a.id, b.id); }
  }

  lemma BeforeTransitive(a: Entry, b: Entry, c: Entry)
    requires SameWidth(a, b) && SameWidth(b, c) && Before(a, b) && Before(b, c)
    ensures Before(a, c)
  {
    ValuesOrder(a.values, b.values, c.values);
    if a.disqualified == b.disqualified == c.disqualified {
      if a.values == b.values == c.values {
        NamesTransitive(a, b, c);
      } else if a.values == c.values {
        ValuesOrder(a.values, b.values, a.values);
      }
    }
  }

  lemma NamesTransitive(a: Entry, b: Entry, c: Entry)
    requires a.disqualified == b.disqualified == c.disqualified && a.values == b.values == c.values
    requires Before(a, b) && Before(b, c)
    ensures Before(a, c)
  {
    if a.proposalId == b.proposalId == c.proposalId {
      Numerals.LessTransitive(a.id, b.id, c.id);
    } else if a.proposalId != b.proposalId && b.proposalId != c.proposalId {
      Numerals.LessTransitive(a.proposalId, b.proposalId, c.proposalId);
      Numerals.LessIrreflexive(a.proposalId);
    }
  }

  // ---- Ranks --------------------------------------------------------------------------

  predicate Rankable(p: Plan) { p.status == Evaluated && p.metrics.Some? }

  function EntryOf(p: Plan, limits: seq<(string, real)>): Entry
    requires p.metrics.Some?
  {
    Entry(Reasons(p.metrics.value, limits) != [], Values(p.metrics.value, METRICS), p.proposalId, p.id)
  }

  /** The entries to be ranked, as a set: their order in the plan list does not matter. */
  function EntrySet(plans: seq<Plan>, limits: seq<(string, real)>): set<Entry> {
    set p | p in plans && Rankable(p) :: EntryOf(p, limits)
  }

  function Ahead(entries: set<Entry>, e: Entry): set<Entry> { set x | x in entries && Before(x, e) }

  /** One more than the number of entries ahead. */
  function RankOf(entries: set<Entry>, e: Entry): nat { 1 + |Ahead(entries, e)| }

  function RankPlan(p: Plan, entries: set<Entry>, limits: seq<(string, real)>): Plan {
    if !Rankable(p) then p
    else
      var rank, reasons := RankOf(entries, EntryOf(p, limits)), Reasons(p.metrics.value, limits);
      p.(rank := Some(rank), reasons := reasons,
         status := if rank == 1 && reasons == [] then Recommended else Evaluated)
  }

  function RankPlans(plans: seq<Plan>, limits: seq<(string, real)>): seq<Plan> {
    var entries := EntrySet(plans, limits);
    seq(|plans|, i requires 0 <= i < |plans| => RankPlan(plans[i], entries, limits))
  }

  predicate AnyRecommended(plans: seq<Plan>) { exists i :: 0 <= i < |plans| && plans[i].status == Recommended }

  /** `rank`. */
  function Rank(c: Cycle, hardConstraints: Option<seq<(string, real)>>): Cycle {
    var limits := if hardConstraints.Some? then hardConstraints.value else c.constraints;
    var plans := RankPlans(c.plans, limits);
    c.(plans := plans, status := if AnyRecommended(plans) then Recommended else Evaluated)
  }

  predicate DistinctPlans(plans: seq<Plan>) {
    forall i, j :: 0 <= i < j < |plans| ==> plans[i].id != plans[j].id
  }

  // ---- What a ranking is --------------------------------------------------------------

  lemma AheadStrict(entries: set<Entry>, a: Entry, b: Entry)
    requires forall x, y :: x in entries && y in entries ==> SameWidth(x, y)
    requires a in entries && b in entries && Before(a, b)
    ensures Ahead(entries, a) < Ahead(entries, b) && RankOf(entries, a) < RankOf(entries, b)
  {
    forall x | x in Ahead(entries, a) ensures x in Ahead(entries, b) { BeforeTransitive(x, a, b); }
    BeforeIrreflexive(a);
    assert a in Ahead(entries, b) && a !in Ahead(entries, a);
    SmallerSubset(Ahead(entries, a), Ahead(entries, b));
  }

  /** Ranks follow the order, and no two entries share one. */
  lemma RanksFollowOrder(entries: set<Entry>, a: Entry, b: Entry)
    requires forall x, y :: x in entries && y in entries ==> SameWidth(x, y)
    requires a in entries && b in entries && a != b
    ensures RankOf(entries, a) < RankOf(entries, b) <==> Before(a, b)
    ensures RankOf(entries, a) != RankOf(entries, b)
  {
    BeforeTotal(a, b);
    if Before(a, b) {
      AheadStrict(entries, a, b);
      if Before(b, a) { BeforeTransitive(a, b, a); BeforeIrreflexive(a); }
    } else {
      AheadStrict(entries, b, a);
    }
  }

  lemma RankInRange(entries: set<Entry>, e: Entry)
    requires e in entries
    ensures 1 <= RankOf(entries, e) <= |entries|
  {
    BeforeIrreflexive(e);
    assert Ahead(entries, e) <= entries - {e};
    SubsetSize(Ahead(entries, e), entries - {e});
  }

  /** Every rank from 1 to the number of entries is given. */
  lemma {:induction false} EveryRankGiven(entries: set<Entry>, rank: nat)
    requires forall x, y :: x in entries && y in entries ==> SameWidth(x, y)
    requires 1 <= rank <= |entries|
    ensures exists e :: e in entries && RankOf(entries, e) == rank
    decreases |entries|
  {
    var last := Last(entries);
    var rest := entries - {last};
    if rank == |entries| {
      BeforeIrreflexive(last);
      assert Ahead(entries, last) == rest;
    } else {
      EveryRankGiven(rest, rank);
      var e :| e in rest && RankOf(rest, e) == rank;
      if Before(last, e) { BeforeTransitive(last, e, last); BeforeIrreflexive(last); }
      assert Ahead(entries, e) == Ahead(rest, e);
    }
  }

  predicate IsLast(entries: set<Entry>, e: Entry) { e in entries && forall x :: x in entries && x != e ==> Before(x, e) }

  lemma {:induction false} LastExists(entries: set<Entry>)
    requires forall x, y :: x in entries && y in entries ==> SameWidth(x, y)
    requires entries != {}
    ensures exists e :: IsLast(entries, e)
    decreases |entries|
  {
    var x :| x in entries;
    var rest := entries - {x};
    if rest == {} {
      assert entries == {x};
      assert IsLast(entries, x);
    } else {
      LastExists(rest);
      var e :| IsLast(rest, e);
      BeforeTotal(x, e);
      if Before(x, e) {
        assert IsLast(entries, e);
      } else {
        forall y | y in entries && y != x ensures Before(y, x) {
          if y != e { BeforeTransitive(y, e, x); }
        }
        assert IsLast(entries, x);
      }
    }
  }

  ghost function Last(entries: set<Entry>): (e: Entry)
    requires forall x, y :: x in entries && y in entries ==> SameWidth(x, y)
    requires entries != {}
    ensures IsLast(entries, e)
  {
    LastExists(entries);
    var e :| IsLast(entries, e);
    e
  }

  // ---- The theorems -------------------------------------------------------------------

  lemma Widths(plans: seq<Plan>, limits: seq<(string, real)>)
    ensures forall x, y :: x in EntrySet(plans, limits) && y in EntrySet(plans, limits) ==> SameWidth(x, y)
  {
  }

  /** A plan that can be ranked and violates nothing. */
  predicate Eligible(p: Plan, limits: seq<(string, real)>) { Rankable(p) && Reasons(p.metrics.value, limits) == [] }

  lemma EntryInSet(plans: seq<Plan>, limits: seq<(string, real)>, i: nat)
    requires i < |plans| && Rankable(plans[i])
    ensures EntryOf(plans[i], limits) in EntrySet(plans, limits)
  {
    assert plans[i] in plans;
  }

  /** The ranks given are 1 to n, each once, in lexicographic order of metrics and proposals
      with every eligible plan before every disqualified one; other plans are untouched. */
  lemma RankingIsRight(plans: seq<Plan>, limits: seq<(string, real)>, i: nat, j: nat)
    requires DistinctPlans(plans) && i < |plans| && j < |plans|
    ensures var ranked, n := RankPlans(plans, limits), |EntrySet(plans, limits)|;
      && |ranked| == |plans|
      && ranked[i] == plans[i].(rank := ranked[i].rank, reasons := ranked[i].reasons, status := ranked[i].status)
      && (!Rankable(plans[i]) ==> ranked[i] == plans[i])
      && (Rankable(plans[i]) ==> ranked[i].rank.Some? && 1 <= ranked[i].rank.value <= n)
      && (Rankable(plans[i]) && Rankable(plans[j]) && i != j ==>
            && ranked[i].rank != ranked[j].rank
            && (ranked[i].rank.value < ranked[j].rank.value <==> Before(EntryOf(plans[i], limits), EntryOf(plans[j], limits))))
      && (Eligible(plans[i], limits) && Rankable(plans[j]) && !Eligible(plans[j], limits) ==>
            ranked[i].rank.value < ranked[j].rank.value)
  {
    var entries := EntrySet(plans, limits);
    Widths(plans, limits);
    if Rankable(plans[i]) {
      EntryInSet(plans, limits, i);
      RankInRange(entries, EntryOf(plans[i], limits));
      if Rankable(plans[j]) && i != j {
        EntryInSet(plans, limits, j);
        assert plans[i].id != plans[j].id;
        RanksFollowOrder(entries, EntryOf(plans[i], limits), EntryOf(plans[j], limits));
      }
    }
  }

  /** The first plan reports a lower value of the metric; not reporting it counts as the highest. */
  predicate Lower(a: Metrics, b: Metrics, name: string) { name in a && (name !in b || a[name] < b[name]) }

  predicate Level(a: Metrics, b: Metrics, name: string) { if name in a then name in b && a[name] == b[name] else name !in b }

  /** The order of two ranked plans, metric by metric. */
  predicate Better(a: Plan, b: Plan)
    requires a.metrics.Some? && b.metrics.Some?
  {
    var x, y := a.metrics.value, b.metrics.value;
    Lower(x, y, "late_shipments") || (Level(x, y, "late_shipments") &&
      (Lower(x, y, "average_delay_hours") || (Level(x, y, "average_delay_hours") &&
        (Lower(x, y, "total_cost") || (Level(x, y, "total_cost") &&
          (Numerals.Less(a.proposalId, b.proposalId) || (a.proposalId == b.proposalId && Numerals.Less(a.id, b.id))))))))
  }

  lemma ReportedOrder(a: Metrics, b: Metrics, name: string)
    ensures ValueLess(Reported(a, name), Reported(b, name)) <==> Lower(a, b, name)
    ensures Reported(a, name) == Reported(b, name) <==> Level(a, b, name)
  {
  }

  lemma ValuesOf(metrics: Metrics)
    ensures Values(metrics, METRICS)
         == [Reported(metrics, "late_shipments"), Reported(metrics, "average_delay_hours"), Reported(metrics, "total_cost")]
  {
  }

  lemma ThreeValues(a: seq<Value>, b: seq<Value>)
    requires |a| == |b| == 3
    ensures ValuesLess(a, b) <==>
      ValueLess(a[0], b[0]) || (a[0] == b[0] && (ValueLess(a[1], b[1]) || (a[1] == b[1] && ValueLess(a[2], b[2]))))
    ensures a == b <==> a[0] == b[0] && a[1] == b[1] && a[2] == b[2]
  {
    assert a == [a[0], a[1], a[2]] && b == [b[0], b[1], b[2]];
    var a1, b1 := a[1..], b[1..];
    assert a1 == [a[1], a[2]] && b1 == [b[1], b[2]] && a1[1..] == [a[2]] && b1[1..] == [b[2]];
    assert ValuesLess(a1[1..], b1[1..]) <==> ValueLess(a[2], b[2]);
    assert ValuesLess(a1, b1) <==> ValueLess(a[1], b[1]) || (a[1] == b[1] && ValuesLess(a1[1..], b1[1..]));
  }

  lemma BeforeIsBetter(a: Plan, b: Plan, limits: seq<(string, real)>)
    requires a.metrics.Some? && b.metrics.Some?
    requires EntryOf(a, limits).disqualified == EntryOf(b, limits).disqualified
    ensures Before(EntryOf(a, limits), EntryOf(b, limits)) <==> Better(a, b)
  {
    var x, y := a.metrics.value, b.metrics.value;
    ValuesOf(x);
    ValuesOf(y);
    ThreeValues(Values(x, METRICS), Values(y, METRICS));
    ReportedOrder(x, y, "late_shipments");
    ReportedOrder(x, y, "average_delay_hours");
    ReportedOrder(x, y, "total_cost");
    Numerals.LessIrreflexive(a.proposalId);
  }

  /** The same in numbers: a plan within all limits comes before one that is not; between two of
      a kind fewer late shipments decide, then less delay, then lower cost, then the names. */
  lemma RanksInNumbers(plans: seq<Plan>, limits: seq<(string, real)>, i: nat, j: nat)
    requires DistinctPlans(plans) && i < |plans| && j < |plans| && i != j && Rankable(plans[i]) && Rankable(plans[j])
    ensures var ranked := RankPlans(plans, limits);
      var fit_i, fit_j := WithinAll(plans[i].metrics.value, limits), WithinAll(plans[j].metrics.value, limits);
      && ranked[i].rank.Some? && ranked[j].rank.Some?
      && (ranked[i].rank.value < ranked[j].rank.value <==> (fit_i && !fit_j) || (fit_i == fit_j && Better(plans[i], plans[j])))
      && (forall name, limit :: (name, limit) in ranked[i].reasons <==>
            (name, limit) in limits && (name !in plans[i].metrics.value || plans[i].metrics.value[name] > limit))
  {
    var a, b := plans[i], plans[j];
    RankingIsRight(plans, limits, i, j);
    NoReasons(a.metrics.value, limits);
    NoReasons(b.metrics.value, limits);
    if WithinAll(a.metrics.value, limits) == WithinAll(b.metrics.value, limits) { BeforeIsBetter(a, b, limits); }
    forall name, limit
      ensures (name, limit) in RankPlans(plans, limits)[i].reasons <==>
        (name, limit) in limits && (name !in a.metrics.value || a.metrics.value[name] > limit)
    {
      ReasonsAre(a.metrics.value, limits, name, limit);
    }
  }

  lemma RankReached(plans: seq<Plan>, limits: seq<(string, real)>, rank: nat)
    requires DistinctPlans(plans) && 1 <= rank <= |EntrySet(plans, limits)|
    ensures exists i :: 0 <= i < |plans| && Rankable(plans[i]) && RankPlans(plans, limits)[i].rank == Some(rank)
  {
    Widths(plans, limits);
    EveryRankGiven(EntrySet(plans, limits), rank);
    var e :| e in EntrySet(plans, limits) && RankOf(EntrySet(plans, limits), e) == rank;
    var p :| p in plans && Rankable(p) && EntryOf(p, limits) == e;
    var i :| 0 <= i < |plans| && plans[i] == p;
    assert RankPlans(plans, limits)[i].rank == Some(rank);
  }

  predicate NewlyRecommended(plans: seq<Plan>, limits: seq<(string, real)>, i: int) {
    0 <= i < |plans| && Rankable(plans[i]) && RankPlans(plans, limits)[i].status == Recommended
  }

  /** One plan is newly recommended exactly when some plan is eligible, never two; it has rank
      one and its metrics meet every constraint. */
  lemma OneRecommendation(plans: seq<Plan>, limits: seq<(string, real)>)
    requires DistinctPlans(plans)
    ensures (exists i :: NewlyRecommended(plans, limits, i)) <==> (exists i :: 0 <= i < |plans| && Eligible(plans[i], limits))
    ensures forall i, j :: NewlyRecommended(plans, limits, i) && NewlyRecommended(plans, limits, j) ==> i == j
    ensures forall i :: NewlyRecommended(plans, limits, i) ==>
      && RankPlans(plans, limits)[i].rank == Some(1) && RankPlans(plans, limits)[i].reasons == []
      && WithinAll(plans[i].metrics.value, limits)
  {
    forall i, j | NewlyRecommended(plans, limits, i) && NewlyRecommended(plans, limits, j) ensures i == j {
      RankingIsRight(plans, limits, i, j);
    }
    forall i | NewlyRecommended(plans, limits, i)
      ensures Eligible(plans[i], limits)
      ensures WithinAll(plans[i].metrics.value, limits)
    {
      NoReasons(plans[i].metrics.value, limits);
    }
    if i :| 0 <= i < |plans| && Eligible(plans[i], limits) {
      EntryInSet(plans, limits, i);
      SubsetSize({EntryOf(plans[i], limits)}, EntrySet(plans, limits));
      RankReached(plans, limits, 1);
      var k :| 0 <= k < |plans| && Rankable(plans[k]) && RankPlans(plans, limits)[k].rank == Some(1);
      RankingIsRight(plans, limits, i, k);
      assert NewlyRecommended(plans, limits, k);
    }
  }

  /** The order of the plan list does not matter: every plan gets the same result. */
  lemma OrderDoesNotMatter(a: seq<Plan>, b: seq<Plan>, limits: seq<(string, real)>, i: nat, j: nat)
    requires multiset(a) == multiset(b) && i < |a| && j < |b| && a[i] == b[j]
    ensures RankPlans(a, limits)[i] == RankPlans(b, limits)[j]
  {
    forall p ensures p in a <==> p in b {
      assert p in a <==> p in multiset(a);
      assert p in b <==> p in multiset(b);
    }
    assert EntrySet(a, limits) == EntrySet(b, limits);
  }

  // ---- Ranking again ------------------------------------------------------------------

  /** The positions of the recommended plans, and of those that could be recommended. */
  function RecommendedIn(plans: seq<Plan>): set<nat> { set i | 0 <= i < |plans| && plans[i].status == Recommended }

  function EligibleIn(plans: seq<Plan>, limits: seq<(string, real)>): set<nat> {
    set i | 0 <= i < |plans| && Eligible(plans[i], limits)
  }

  function RankTimes(plans: seq<Plan>, limits: seq<(string, real)>, n: nat): seq<Plan>
    decreases n
  {
    if n == 0 then plans else RankTimes(RankPlans(plans, limits), limits, n - 1)
  }

  /** The positions of the plans that a ranking recommends. */
  ghost function NewIn(plans: seq<Plan>, limits: seq<(string, real)>): set<nat> {
    set i | 0 <= i < |plans| && NewlyRecommended(plans, limits, i)
  }

  lemma PlanAfterRanking(plans: seq<Plan>, limits: seq<(string, real)>, i: nat)
    requires i < |plans|
    ensures var p := RankPlans(plans, limits)[i];
      && (p.status == Recommended <==> plans[i].status == Recommended || NewlyRecommended(plans, limits, i))
      && (Eligible(p, limits) <==> Eligible(plans[i], limits) && !NewlyRecommended(plans, limits, i))
      && p.id == plans[i].id
  {
  }

  lemma RankingMoves(plans: seq<Plan>, limits: seq<(string, real)>)
    ensures var once := RankPlans(plans, limits);
      && RecommendedIn(once) == RecommendedIn(plans) + NewIn(plans, limits)
      && EligibleIn(once, limits) == EligibleIn(plans, limits) - NewIn(plans, limits)
      && NewIn(plans, limits) <= EligibleIn(plans, limits) && NewIn(plans, limits) !! RecommendedIn(plans)
  {
    forall i: nat | i < |plans|
      ensures i in RecommendedIn(RankPlans(plans, limits)) <==> i in RecommendedIn(plans) + NewIn(plans, limits)
      ensures i in EligibleIn(RankPlans(plans, limits), limits) <==> i in EligibleIn(plans, limits) - NewIn(plans, limits)
      ensures i in NewIn(plans, limits) ==> i in EligibleIn(plans, limits) && i !in RecommendedIn(plans)
    {
      PlanAfterRanking(plans, limits, i);
    }
  }

  lemma NewAreOne(plans: seq<Plan>, limits: seq<(string, real)>)
    requires DistinctPlans(plans)
    ensures |NewIn(plans, limits)| == if EligibleIn(plans, limits) == {} then 0 else 1
  {
    OneRecommendation(plans, limits);
    if i :| i in EligibleIn(plans, limits) {
      assert Eligible(plans[i], limits);
      var k: int :| NewlyRecommended(plans, limits, k);
      assert NewIn(plans, limits) == {k};
    } else {
      RankingMoves(plans, limits);
    }
  }

  /** Every ranking moves one plan from the eligible to the recommended ones, as long as there
      is one. */
  lemma RankingMovesOne(plans: seq<Plan>, limits: seq<(string, real)>)
    requires DistinctPlans(plans)
    ensures DistinctPlans(RankPlans(plans, limits))
    ensures var once, moved := RankPlans(plans, limits), if EligibleIn(plans, limits) == {} then 0 else 1;
      && |RecommendedIn(once)| == |RecommendedIn(plans)| + moved
      && |EligibleIn(once, limits)| == |EligibleIn(plans, limits)| - moved
  {
    RankingMoves(plans, limits);
    NewAreOne(plans, limits);
    forall i, j | 0 <= i < j < |plans| ensures RankPlans(plans, limits)[i].id != RankPlans(plans, limits)[j].id {
      PlanAfterRanking(plans, limits, i);
      PlanAfterRanking(plans, limits, j);
    }
  }

  /** Ranking is not idempotent: `n` rankings recommend `n` plans more, if so many are eligible. */
  lemma {:induction false} RankingAgainRecommendsMore(plans: seq<Plan>, limits: seq<(string, real)>, n: nat)
    requires DistinctPlans(plans)
    ensures |RecommendedIn(RankTimes(plans, limits, n))|
         == |RecommendedIn(plans)| + if n < |EligibleIn(plans, limits)| then n else |EligibleIn(plans, limits)|
    decreases n
  {
    if n > 0 {
      RankingMovesOne(plans, limits);
      RankingAgainRecommendsMore(RankPlans(plans, limits), limits, n - 1);
    }
  }

  /** So a second ranking leaves at most one recommendation exactly if nothing was recommended
      and at most one plan eligible before, or one recommended and none eligible. */
  lemma RankingAgainRecommendsRunnerUp(plans: seq<Plan>, limits: seq<(string, real)>)
    requires DistinctPlans(plans)
    ensures |RecommendedIn(RankPlans(RankPlans(plans, limits), limits))| <= 1
       <==> |RecommendedIn(plans)| + |EligibleIn(plans, limits)| <= 1
  {
    var once := RankPlans(plans, limits);
    assert RankTimes(once, limits, 1) == RankTimes(RankPlans(once, limits), limits, 0);
    assert RankTimes(plans, limits, 2) == RankPlans(once, limits);
    RankingAgainRecommendsMore(plans, limits, 2);
  }

  // ---- Sorting ------------------------------------------------------------------------

  /** `list.sort` on entries. */
  function Insert(e: Entry, sorted: seq<Entry>): seq<Entry> {
    if sorted == [] || Before(e, sorted[0]) then [e] + sorted else [sorted[0]] + Insert(e, sorted[1..])
  }

  function Sort(entries: seq<Entry>): seq<Entry> {
    if entries == [] then [] else Insert(entries[|entries| - 1], Sort(entries[..|entries| - 1]))
  }

  predicate Sorted(s: seq<Entry>) { forall i, j :: 0 <= i < j < |s| ==> Before(s[i], s[j]) }

  predicate Uniform(s: seq<Entry>) { forall x, y :: x in s && y in s ==> SameWidth(x, y) }

  lemma {:induction false} InsertSorts(e: Entry, s: seq<Entry>)
    requires Sorted(s) && e !in s && Uniform(s + [e])
    ensures Sorted(Insert(e, s))
    ensures forall x :: x in Insert(e, s) <==> x == e || x in s
    ensures |Insert(e, s)| == |s| + 1
  {
    if s == [] {
    } else if Before(e, s[0]) {
      forall j | 0 <= j < |s| ensures Before(e, s[j]) {
        if j > 0 { BeforeTransitive(e, s[0], s[j]); }
      }
    } else {
      assert forall x :: x in s[1..] ==> x in s;
      InsertSorts(e, s[1..]);
      BeforeTotal(e, s[0]);
      var rest := Insert(e, s[1..]);
      forall j | 0 <= j < |rest| ensures Before(s[0], rest[j]) {
        assert rest[j] in rest;
        if rest[j] != e {
          var k :| 0 <= k < |s[1..]| && s[1..][k] == rest[j];
          assert s[k + 1] == rest[j];
        }
      }
      assert s == [s[0]] + s[1..];
    }
  }

  lemma {:induction false} SortSorts(entries: seq<Entry>)
    requires Uniform(entries) && forall i, j :: 0 <= i < j < |entries| ==> entries[i] != entries[j]
    ensures Sorted(Sort(entries)) && |Sort(entries)| == |entries|
    ensures forall x :: x in Sort(entries) <==> x in entries
  {
    if entries != [] {
      var n := |entries| - 1;
      assert entries == entries[..n] + [entries[n]];
      SortSorts(entries[..n]);
      InsertSorts(entries[n], Sort(entries[..n]));
    }
  }

  function Elements(s: seq<Entry>): set<Entry> { set x | x in s }

  lemma {:induction false} ElementsCount(s: seq<Entry>)
    requires Sorted(s)
    ensures |Elements(s)| == |s|
  {
    if s != [] {
      var n := |s| - 1;
      ElementsCount(s[..n]);
      assert s == s[..n] + [s[n]];
      assert Elements(s) == Elements(s[..n]) + {s[n]};
      forall k | 0 <= k < n ensures s[k] != s[n] { BeforeIrreflexive(s[k]); }
    }
  }

  /** In a sorted list the position is the rank. */
  lemma PositionIsRank(s: seq<Entry>, entries: set<Entry>, i: nat)
    requires Sorted(s) && Uniform(s) && i < |s| && forall x :: x in s <==> x in entries
    ensures RankOf(entries, s[i]) == i + 1
  {
    forall j | 0 <= j < |s| ensures Before(s[j], s[i]) <==> j < i {
      BeforeIrreflexive(s[i]);
      if j > i && Before(s[j], s[i]) { BeforeTransitive(s[i], s[j], s[i]); }
    }
    ElementsCount(s[..i]);
    forall x ensures x in Ahead(entries, s[i]) <==> x in s[..i] {
      if x in Ahead(entries, s[i]) {
        var j :| 0 <= j < |s| && s[j] == x;
        assert s[..i][j] == x;
      }
    }
    assert Ahead(entries, s[i]) == Elements(s[..i]);
  }

  // ---- The method ---------------------------------------------------------------------

  /** The first loop of `rank`: what it appends for the first plans. */
  function EvaluatedOf(plans: seq<Plan>, limits: seq<(string, real)>): seq<Entry> {
    if plans == [] then []
    else
      var before, last := EvaluatedOf(plans[..|plans| - 1], limits), plans[|plans| - 1];
      if Rankable(last) then before + [EntryOf(last, limits)] else before
  }

  lemma EntrySetNext(plans: seq<Plan>, limits: seq<(string, real)>, last: Plan, x: Entry)
    ensures x in EntrySet(plans + [last], limits)
       <==> x in EntrySet(plans, limits) || (Rankable(last) && x == EntryOf(last, limits))
  {
    var more := plans + [last];
    assert forall p :: p in more <==> p in plans || p == last;
    if x in EntrySet(more, limits) {
      var p :| p in more && Rankable(p) && EntryOf(p, limits) == x;
      assert p in plans || p == last;
    }
  }

  /** Each entry is that of one of the plans. */
  predicate FromPlans(es: seq<Entry>, plans: seq<Plan>) {
    forall x :: x in es ==> exists i :: 0 <= i < |plans| && plans[i].id == x.id
  }

  lemma NextIsNew(es: seq<Entry>, plans: seq<Plan>, e: Entry)
    requires DistinctPlans(plans) && plans != [] && FromPlans(es, plans[..|plans| - 1]) && e.id == plans[|plans| - 1].id
    ensures FromPlans(es, plans) && FromPlans(es + [e], plans) && forall x :: x in es ==> x.id != e.id
  {
    var n := |plans| - 1;
    forall x | x in es ensures x.id != e.id && exists i :: 0 <= i < |plans| && plans[i].id == x.id {
      var i :| 0 <= i < n && plans[..n][i].id == x.id;
      assert plans[i].id == x.id;
    }
  }

  lemma {:induction false} EvaluatedAre(plans: seq<Plan>, limits: seq<(string, real)>)
    requires DistinctPlans(plans)
    ensures var es := EvaluatedOf(plans, limits);
      (forall x :: x in es <==> x in EntrySet(plans, limits)) && DistinctEntries(es) && FromPlans(es, plans)
  {
    if plans != [] {
      var n := |plans| - 1;
      var before, last := plans[..n], plans[n];
      var es := EvaluatedOf(before, limits);
      EvaluatedAre(before, limits);
      assert plans == before + [last];
      forall x ensures x in EvaluatedOf(plans, limits) <==> x in EntrySet(plans, limits) {
        EntrySetNext(before, limits, last, x);
      }
      NextIsNew(es, plans, Entry(false, [], "", last.id));
      if Rankable(last) { NextIsNew(es, plans, EntryOf(last, limits)); }
    }
  }

  predicate DistinctEntries(s: seq<Entry>) { forall i, j :: 0 <= i < j < |s| ==> s[i].id != s[j].id }

  /** `rank_by_id` gives every entry its rank. */
  predicate RanksById(ranks: map<string, nat>, s: seq<Entry>) {
    && (forall k :: 0 <= k < |s| ==> s[k].id in ranks && ranks[s[k].id] == k + 1)
    && (forall id :: id in ranks ==> exists k :: 0 <= k < |s| && s[k].id == id)
  }

  /** `rank_by_id = {item[3]: ... for rank, item in enumerate(evaluated, 1)}`. */
  method NumberEntries(s: seq<Entry>) returns (ranks: map<string, nat>)
    requires DistinctEntries(s)
    ensures RanksById(ranks, s)
  {
    ranks := map[];
    var i := 0;
    while i < |s|
      invariant i <= |s|
      invariant forall k :: 0 <= k < i ==> s[k].id in ranks && ranks[s[k].id] == k + 1
      invariant forall id :: id in ranks ==> exists k :: 0 <= k < i && s[k].id == id
    {
      ranks := ranks[s[i].id := i + 1];
      i := i + 1;
    }
  }

  /** `evaluated` after sorting. */
  predicate ListsEntries(s: seq<Entry>, entries: set<Entry>) {
    Sorted(s) && Uniform(s) && Elements(s) == entries && DistinctEntries(s)
  }

  lemma SortedEntries(plans: seq<Plan>, limits: seq<(string, real)>)
    requires DistinctPlans(plans)
    ensures ListsEntries(Sort(EvaluatedOf(plans, limits)), EntrySet(plans, limits))
  {
    EvaluatedAre(plans, limits);
    Widths(plans, limits);
    SortSorts(EvaluatedOf(plans, limits));
    SortedIdsDistinct(EvaluatedOf(plans, limits));
  }

  lemma RankedHasEntry(plans: seq<Plan>, limits: seq<(string, real)>, ranks: map<string, nat>, s: seq<Entry>, i: nat)
    requires DistinctPlans(plans) && i < |plans| && RanksById(ranks, s) && Elements(s) == EntrySet(plans, limits)
    requires plans[i].id in ranks
    ensures Rankable(plans[i])
  {
    var k :| 0 <= k < |s| && s[k].id == plans[i].id;
    assert s[k] in Elements(s);
    var p :| p in plans && Rankable(p) && EntryOf(p, limits) == s[k];
    var j :| 0 <= j < |plans| && plans[j] == p;
    assert plans[j].id == plans[i].id;
  }

  lemma EntryHasRank(plans: seq<Plan>, limits: seq<(string, real)>, ranks: map<string, nat>, s: seq<Entry>, i: nat)
    requires i < |plans| && Rankable(plans[i]) && RanksById(ranks, s) && ListsEntries(s, EntrySet(plans, limits))
    ensures plans[i].id in ranks
    ensures ranks[plans[i].id] == RankOf(EntrySet(plans, limits), EntryOf(plans[i], limits))
  {
    EntryInSet(plans, limits, i);
    assert EntryOf(plans[i], limits) in Elements(s);
    var k :| 0 <= k < |s| && s[k] == EntryOf(plans[i], limits);
    PositionIsRank(s, EntrySet(plans, limits), k);
  }

  lemma SortedIdsDistinct(es: seq<Entry>)
    requires Uniform(es) && DistinctEntries(es)
    ensures DistinctEntries(Sort(es))
  {
    SortSorts(es);
    var s := Sort(es);
    forall i, j | 0 <= i < j < |s| ensures s[i].id != s[j].id {
      assert s[i] in s && s[j] in s && Before(s[i], s[j]);
      BeforeIrreflexive(s[i]);
      var k :| 0 <= k < |es| && es[k] == s[i];
      var l :| 0 <= l < |es| && es[l] == s[j];
    }
  }

  /** The first loop. */
  method CollectEvaluated(plans: seq<Plan>, limits: seq<(string, real)>) returns (evaluated: seq<Entry>)
    ensures evaluated == EvaluatedOf(plans, limits)
  {
    evaluated := [];
    var i := 0;
    while i < |plans|
      invariant i <= |plans| && evaluated == EvaluatedOf(plans[..i], limits)
    {
      assert plans[..i + 1][..i] == plans[..i];
      if Rankable(plans[i]) {
        evaluated := evaluated + [EntryOf(plans[i], limits)];
      }
      i := i + 1;
    }
    assert plans[..i] == plans;
  }

  /** The second loop. */
  method RewritePlans(plans: seq<Plan>, limits: seq<(string, real)>, ranks: map<string, nat>, ghost s: seq<Entry>)
    returns (ranked: seq<Plan>)
    requires DistinctPlans(plans) && RanksById(ranks, s) && ListsEntries(s, EntrySet(plans, limits))
    ensures ranked == RankPlans(plans, limits)
  {
    ranked := [];
    var i := 0;
    while i < |plans|
      invariant i == |ranked| <= |plans|
      invariant forall k :: 0 <= k < i ==> ranked[k] == RankPlan(plans[k], EntrySet(plans, limits), limits)
    {
      var plan := plans[i];
      if Rankable(plan) {
        EntryHasRank(plans, limits, ranks, s, i);
      }
      if plan.id in ranks {
        RankedHasEntry(plans, limits, ranks, s, i);
        var rank, reasons := ranks[plan.id], Reasons(plan.metrics.value, limits);
        plan := plan.(rank := Some(rank), reasons := reasons,
                      status := if rank == 1 && reasons == [] then Recommended else Evaluated);
      }
      ranked := ranked + [plan];
      i := i + 1;
    }
  }

  /** `rank`: collect, sort, number, rewrite. */
  method RankCycle(c: Cycle, hardConstraints: Option<seq<(string, real)>>) returns (r: Cycle)
    requires DistinctPlans(c.plans)
    ensures r == Rank(c, hardConstraints)
  {
    var limits := if hardConstraints.Some? then hardConstraints.value else c.constraints;
    var evaluated := CollectEvaluated(c.plans, limits);
    SortedEntries(c.plans, limits);
    var sorted := Sort(evaluated);
    var ranks := NumberEntries(sorted);
    var plans := RewritePlans(c.plans, limits, ranks, sorted);
    var recommended := exists k :: 0 <= k < |plans| && plans[k].status == Recommended;
    r := c.(plans := plans, status := if recommended then Recommended else Evaluated);
  }
}
