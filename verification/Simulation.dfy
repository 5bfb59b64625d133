/**
 Running a scenario forward (`packages/domain/src/simulation.ts`): what fails with the trigger, who is
 exposed, which capital bears it and who is insured. The loss estimate is not part of this model.
 */
module Simulation {
  import opened Prelude
  import opened Ontology
  import opened GraphModel
  import opened Distances
  import opened RiskGraphs
  import opened Chains
  import opened Queries

  datatype SimulationResult = SimulationResult(
    affected: set<Id>, exposed: set<Id>, correlated: map<Id, set<Id>>, capital: map<Id, Backing>,
    insured: set<Id>, uninsured: set<Id>)

  // ---------------------------------------------------------------- specification

  /** What fails with the trigger: the other assets that depend on it, within the default depth. */
  ghost function Affected(g: Graph, trigger: Id): set<Id> {
    if HasType(g, trigger, ASSET) then AllWithin(g, DependedOnBy(DEFAULTS), {trigger}, Bound(DEFAULTS.maxDepth)) - {trigger}
    else {}
  }

  ghost function Footprint(g: Graph, trigger: Id): set<Id> {
    {trigger} + Affected(g, trigger)
  }

  ghost predicate OwnsSome(g: Graph, e: Id, assets: set<Id>) {
    exists y :: y in assets && e in SourcesOf(g, y, OWNS)
  }

  ghost function ExposedBy(g: Graph, trigger: Id): set<Id> {
    if HasType(g, trigger, RISK) then Exposed(g, trigger, DEFAULTS)
    else set e | e in g.nodes && OwnsSome(g, e, Footprint(g, trigger))
  }

  ghost predicate ThreatensSome(g: Graph, r: Id, assets: set<Id>) {
    exists x :: x in assets && x in SourcesOf(g, r, EXPOSED_TO)
  }

  ghost function RelevantRisks(g: Graph, trigger: Id): set<Id> {
    if HasType(g, trigger, RISK) then {trigger}
    else set r | r in g.nodes && ThreatensSome(g, r, Footprint(g, trigger))
  }

  /** Coverage is per risk: if anything covers a risk, everyone exposed to it counts as insured. */
  ghost predicate InsuredAgainst(g: Graph, risks: set<Id>, e: Id) {
    exists r :: r in risks && Covering(g, r) != {} && e in Exposed(g, r, DEFAULTS)
  }

  /** Entities correlated with any of the exposed ones, each with a largest set of shared dependencies. */
  ghost predicate LargestShared(g: Graph, exposed: set<Id>, m: map<Id, set<Id>>) {
    && (forall e :: e in m ==> SharedBySome(g, exposed, e, m[e]))
    && (forall x, e :: x in exposed && e in Correlated(g, x, DEFAULTS) ==> e in m && |Shared(g, x, e, DEFAULTS)| <= |m[e]|)
  }

  ghost predicate IsSimulation(g: Graph, trigger: Id, s: SimulationResult) {
    && s.affected == Affected(g, trigger)
    && s.exposed == ExposedBy(g, trigger)
    && LargestShared(g, s.exposed, s.correlated)
    && s.capital == Bearing(g, RelevantRisks(g, trigger))
    && s.insured == (set e | e in s.exposed && InsuredAgainst(g, RelevantRisks(g, trigger), e))
    && s.uninsured == s.exposed - s.insured
  }

  // ---------------------------------------------------------------- in terms of stored edges

  /** Affected: the other nodes that depend on an asset trigger through at most eight dependencies, inferred ones included. */
  lemma AffectedMeaning(g: Graph, trigger: Id, s: SimulationResult, n: Id)
    requires IsSimulation(g, trigger, s)
    ensures n in s.affected
       <==> && trigger in g.nodes && g.nodes[trigger].nodeType == ASSET && n in g.nodes && n != trigger
            && exists k: nat :: k <= 8 && DependsThrough(g, false, n, trigger, k)
  {
    ReachFollowsDependencies(g, DEFAULTS, {trigger}, n);
    assert trigger in {trigger};
    if k: nat :| k <= 8 && DependsThrough(g, false, n, trigger, k) {
      assert DependsWithin(g, DEFAULTS, n, trigger);
    }
  }

  /** The trigger or something affected. */
  predicate Hit(trigger: Id, s: SimulationResult, x: Id) {
    x == trigger || x in s.affected
  }

  /** Exposed: by the risk itself if that is the trigger, and otherwise whoever owns the trigger or something affected. */
  lemma ExposedByMeaning(g: Graph, trigger: Id, s: SimulationResult, e: Id)
    requires IsSimulation(g, trigger, s) && trigger in g.nodes
    ensures g.nodes[trigger].nodeType == RISK ==> (e in s.exposed <==> e in Exposed(g, trigger, Options(8, false)))
    ensures g.nodes[trigger].nodeType != RISK ==>
              (e in s.exposed <==> e in g.nodes && exists y :: Hit(trigger, s, y) && Joins(g, OWNS, e, y))
  {
    forall y ensures y in Footprint(g, trigger) && e in SourcesOf(g, y, OWNS) <==> e in g.nodes && Hit(trigger, s, y) && Joins(g, OWNS, e, y) {
      EndsOfEdges(g, e, y, OWNS);
    }
  }

  /** The risks in scope: the trigger if it is one, and otherwise those the trigger or something affected is exposed to. */
  ghost predicate InScope(g: Graph, trigger: Id, s: SimulationResult, r: Id) {
    if trigger in g.nodes && g.nodes[trigger].nodeType == RISK then r == trigger
    else r in g.nodes && exists x :: x in g.nodes && Hit(trigger, s, x) && Joins(g, EXPOSED_TO, x, r)
  }

  lemma ScopeMeaning(g: Graph, trigger: Id, s: SimulationResult, r: Id)
    requires IsSimulation(g, trigger, s)
    ensures r in RelevantRisks(g, trigger) <==> InScope(g, trigger, s, r)
  {
    forall x ensures x in Footprint(g, trigger) && x in SourcesOf(g, r, EXPOSED_TO) <==> x in g.nodes && Hit(trigger, s, x) && Joins(g, EXPOSED_TO, x, r) {
      EndsOfEdges(g, x, r, EXPOSED_TO);
    }
  }

  /** A policy or coverage responds to the risk. */
  ghost predicate IsCovered(g: Graph, r: Id) {
    exists p :: p in g.nodes && g.nodes[p].nodeType in {POLICY, COVERAGE} && Joins(g, COVERS, p, r)
  }

  /** Insured: the exposed who are exposed to a covered risk in scope; uninsured: the other exposed ones. */
  lemma InsuredMeaning(g: Graph, trigger: Id, s: SimulationResult, e: Id)
    requires IsSimulation(g, trigger, s)
    ensures e in s.insured
       <==> e in s.exposed && exists r :: InScope(g, trigger, s, r) && IsCovered(g, r) && e in Exposed(g, r, Options(8, false))
    ensures e in s.uninsured <==> e in s.exposed && e !in s.insured
  {
    forall r
      ensures r in RelevantRisks(g, trigger) <==> InScope(g, trigger, s, r)
      ensures Covering(g, r) != {} <==> IsCovered(g, r)
    {
      ScopeMeaning(g, trigger, s, r);
      CoveredIfCovering(g, r);
    }
  }

  lemma CoveredIfCovering(g: Graph, r: Id)
    ensures Covering(g, r) != {} <==> IsCovered(g, r)
  {
    forall p ensures p in Covering(g, r) <==> p in g.nodes && g.nodes[p].nodeType in {POLICY, COVERAGE} && Joins(g, COVERS, p, r) {
      CoveringMeaning(g, r, p);
    }
    if p :| p in Covering(g, r) {
      assert Joins(g, COVERS, p, r);
    }
  }

  /** The capital that bears a risk in scope. */
  lemma CapitalMeaning(g: Graph, trigger: Id, s: SimulationResult, syndicate: Id, c: Id)
    requires IsSimulation(g, trigger, s)
    ensures syndicate in s.capital
       <==> && syndicate in g.nodes && g.nodes[syndicate].nodeType == SYNDICATE
            && exists r :: InScope(g, trigger, s, r) && Joins(g, ASSUMES, syndicate, r)
    ensures syndicate in s.capital ==>
              && (c in s.capital[syndicate].capital <==> c in g.nodes && g.nodes[c].nodeType == CAPITAL && Joins(g, SUPPORTS, c, syndicate))
              && (c in s.capital[syndicate].protection <==> c in g.nodes && Joins(g, PROTECTS, c, syndicate))
  {
    BearingMeaning(g, RelevantRisks(g, trigger), syndicate, c);
    forall r ensures r in RelevantRisks(g, trigger) <==> InScope(g, trigger, s, r) {
      ScopeMeaning(g, trigger, s, r);
    }
  }

  /** Correlated: the entities that share a possible failure with an exposed one, each with a largest shared set. */
  lemma MergedMeaning(g: Graph, trigger: Id, s: SimulationResult, e: Id)
    requires IsSimulation(g, trigger, s)
    ensures e in s.correlated
       <==> e in g.nodes && g.nodes[e].nodeType == ENTITY && exists x :: x in s.exposed && x != e && CanFailTogether(g, x, e) != {}
    ensures e in s.correlated ==> exists x :: x in s.exposed && x != e && s.correlated[e] == CanFailTogether(g, x, e)
    ensures forall x :: e in s.correlated && x in s.exposed && x != e ==> |CanFailTogether(g, x, e)| <= |s.correlated[e]|
  {
    if e in s.correlated {
      assert SharedBySome(g, s.exposed, e, s.correlated[e]);
      var x :| x in s.exposed && e in Correlated(g, x, DEFAULTS) && s.correlated[e] == Shared(g, x, e, DEFAULTS);
      assert x != e;
    }
    forall x | x in s.exposed && x != e && e in g.nodes && g.nodes[e].nodeType == ENTITY && CanFailTogether(g, x, e) != {}
      ensures e in s.correlated && |CanFailTogether(g, x, e)| <= |s.correlated[e]|
    {
      assert e in Correlated(g, x, DEFAULTS);
    }
  }

  /** What can fail for both, within eight dependencies, inferred ones included. */
  ghost function CanFailTogether(g: Graph, a: Id, b: Id): set<Id> {
    CanFail(g, a, Options(8, false)) * CanFail(g, b, Options(8, false))
  }

  // ---------------------------------------------------------------- laws

  /**
   The simulation agrees with Q3: if the trigger is an asset that is itself exposed to a covered risk,
   then everyone the scenario exposes is exposed to that risk as well, and nobody is uninsured.
   */
  lemma CoveredTriggerInsuresAll(g: Graph, trigger: Id, risk: Id, s: SimulationResult)
    requires IsSimulation(g, trigger, s) && HasType(g, trigger, ASSET) && risk in g.nodes
    requires trigger in SourcesOf(g, risk, EXPOSED_TO) && Covering(g, risk) != {}
    ensures s.insured == s.exposed && s.uninsured == {}
  {
    forall e | e in s.exposed ensures InsuredAgainst(g, RelevantRisks(g, trigger), e) {
      var y :| y in Footprint(g, trigger) && e in SourcesOf(g, y, OWNS);
      assert y in AllWithin(g, DependedOnBy(DEFAULTS), {trigger}, Bound(DEFAULTS.maxDepth)) by {
        assert Walk(g, DependedOnBy(DEFAULTS), trigger, trigger, 0);
        assert FromAny(g, DependedOnBy(DEFAULTS), {trigger}, trigger, 0);
      }
      assert ExposedThrough(g, risk, DEFAULTS, trigger, y);
      assert e in Exposed(g, risk, DEFAULTS);
      assert ThreatensSome(g, risk, Footprint(g, trigger));
    }
  }

  /** A risk trigger insures all of the entities exposed to it, or none, according to whether anything covers it. */
  lemma RiskTriggerIsAllOrNothing(g: Graph, trigger: Id, s: SimulationResult)
    requires IsSimulation(g, trigger, s) && HasType(g, trigger, RISK)
    ensures s.insured == if Covering(g, trigger) != {} then s.exposed else {}
  {
    forall e | e in s.exposed ensures InsuredAgainst(g, {trigger}, e) <==> Covering(g, trigger) != {} {
      assert trigger in {trigger};
    }
  }

  /** The capital result is a union over the risks, so the order in which they are taken does not matter. */
  lemma BearingUnion(g: Graph, xs: set<Id>, ys: set<Id>)
    ensures Bearing(g, xs + ys) == Bearing(g, xs) + Bearing(g, ys)
  {
    var both, joined := Bearing(g, xs + ys), Bearing(g, xs) + Bearing(g, ys);
    forall s ensures s in both <==> s in joined {
      if s in both {
        var r :| r in xs + ys && s in SourcesOf(g, r, ASSUMES);
        assert r in xs || r in ys;
      }
      if s in joined {
        assert s in Bearing(g, xs) || s in Bearing(g, ys);
        var r :| (r in xs || r in ys) && s in SourcesOf(g, r, ASSUMES);
        assert r in xs + ys;
      }
    }
  }

  // ---------------------------------------------------------------- the simulation

  method RunSimulation(graph: RiskGraph, trigger: Id) returns (r: Result<SimulationResult, GraphError>)
    requires graph.Coherent()
    ensures r.Ok? <==> trigger in graph.nodes
    ensures r.Ok? ==> IsSimulation(graph.View(), trigger, r.value)
  {
    if trigger !in graph.nodes {
      return Err(UnknownNode(trigger));
    }
    ghost var g := graph.View();
    var affected := FindAffected(graph, trigger);
    var exposed := FindExposed(graph, trigger, affected);
    var correlated := MergeCorrelated(graph, exposed);
    var risks := FindRisks(graph, trigger, affected);
    var capital, covered := AssessRisks(graph, risks);
    var insured := set e | e in exposed && e in covered;
    InsuredByCoverage(g, RelevantRisks(g, trigger), exposed, covered);
    return Ok(SimulationResult(affected, exposed, correlated, capital, insured, exposed - insured));
  }

  lemma InsuredByCoverage(g: Graph, risks: set<Id>, exposed: set<Id>, covered: set<Id>)
    requires exposed <= g.nodes.Keys
    requires forall e :: e in covered <==> InsuredAgainst(g, risks, e)
    ensures (set e | e in exposed && e in covered) == (set e | e in exposed && InsuredAgainst(g, risks, e))
  {
  }

  method FindAffected(graph: RiskGraph, trigger: Id) returns (affected: set<Id>)
    requires graph.Coherent() && trigger in graph.nodes
    ensures affected == Affected(graph.View(), trigger) && affected <= graph.nodes.Keys
  {
    affected := {};
    if graph.nodes[trigger].nodeType == ASSET {
      var dependents := DependentsOf(graph, trigger, DEFAULTS);
      affected := dependents.value.Keys;
    }
  }

  method FindExposed(graph: RiskGraph, trigger: Id, affected: set<Id>) returns (exposed: set<Id>)
    requires graph.Coherent() && trigger in graph.nodes && affected == Affected(graph.View(), trigger)
    ensures exposed == ExposedBy(graph.View(), trigger) && exposed <= graph.nodes.Keys
  {
    if graph.nodes[trigger].nodeType == RISK {
      var entities := ExposedEntities(graph, trigger, DEFAULTS);
      return entities.value;
    }
    exposed := Owners(graph, {trigger} + affected);
    ghost var g := graph.View();
    forall e ensures e in exposed <==> e in ExposedBy(g, trigger) {
      assert e in exposed <==> OwnsSome(g, e, Footprint(g, trigger));
    }
  }

  /** The risks one node is exposed to. */
  method RisksOf(graph: RiskGraph, x: Id) returns (risks: set<Id>)
    requires graph.Coherent()
    ensures forall r :: r in risks <==> r in graph.nodes && x in SourcesOf(graph.View(), r, EXPOSED_TO)
  {
    var es := graph.EdgesFrom(x, Some(EXPOSED_TO));
    risks := set e | e in es :: e.toId;
    forall r ensures r in risks <==> r in graph.nodes && x in SourcesOf(graph.View(), r, EXPOSED_TO) {
      TargetIsSource(graph.View(), x, EXPOSED_TO, es, r);
    }
  }

  method FindRisks(graph: RiskGraph, trigger: Id, affected: set<Id>) returns (risks: set<Id>)
    requires graph.Coherent() && trigger in graph.nodes && affected == Affected(graph.View(), trigger)
    ensures risks == RelevantRisks(graph.View(), trigger) && risks <= graph.nodes.Keys
  {
    if graph.nodes[trigger].nodeType == RISK {
      return {trigger};
    }
    ghost var g := graph.View();
    var footprint := {trigger} + affected;
    var todo := footprint;
    risks := {};
    while todo != {}
      invariant todo <= footprint
      invariant forall r :: r in risks <==> r in g.nodes && ThreatensSome(g, r, footprint - todo)
      decreases todo
    {
      var x :| x in todo;
      var targets := RisksOf(graph, x);
      assert footprint - (todo - {x}) == (footprint - todo) + {x};
      todo := todo - {x};
      risks := risks + targets;
    }
    assert footprint - {} == footprint == Footprint(g, trigger);
  }

  lemma TargetIsSource(g: Graph, x: Id, t: EdgeType, es: seq<Edge>, r: Id)
    requires Connected(g) && EdgesAt(g, x, Outward, Some(t), es)
    ensures (exists e :: e in es && e.toId == r) <==> r in g.nodes && x in SourcesOf(g, r, t)
  {
    EdgesAreLinks(g, OfType(t), x, es, Some(t));
    forall e | e in es ensures Passes(OfType(t), e) && e.fromId in g.nodes && e.toId in g.nodes && e.fromId == x {
      assert e.edgeType in {t};
    }
  }

  /** Capital and coverage, risk by risk, in any order. */
  method AssessRisks(graph: RiskGraph, risks: set<Id>) returns (capital: map<Id, Backing>, covered: set<Id>)
    requires graph.Coherent() && risks <= graph.nodes.Keys
    ensures capital == Bearing(graph.View(), risks)
    ensures forall e :: e in covered <==> InsuredAgainst(graph.View(), risks, e)
  {
    ghost var g := graph.View();
    capital, covered := map[], {};
    var todo := risks;
    assert risks - todo == {};
    while todo != {}
      invariant todo <= risks
      invariant capital == Bearing(g, risks - todo)
      invariant forall e :: e in covered <==> InsuredAgainst(g, risks - todo, e)
      decreases todo
    {
      var risk :| risk in todo;
      var entries := CapitalBearingRisk(graph, risk);
      var ids := CoveredEntityIdsForRisk(graph, risk);
      BearingUnion(g, risks - todo, {risk});
      assert risks - (todo - {risk}) == (risks - todo) + {risk};
      todo := todo - {risk};
      capital := capital + entries.value;
      covered := covered + ids;
    }
    assert risks - {} == risks;
  }

  method CoveredEntityIdsForRisk(graph: RiskGraph, risk: Id) returns (ids: set<Id>)
    requires graph.Coherent() && risk in graph.nodes
    ensures ids == if Covering(graph.View(), risk) != {} then Exposed(graph.View(), risk, DEFAULTS) else {}
  {
    var policies := CoveringPolicies(graph, risk);
    if policies.value == {} {
      return {};
    }
    var exposed := ExposedEntities(graph, risk, DEFAULTS);
    return exposed.value;
  }

  /** Q7 for every exposed entity, keeping for each correlated one a largest set of shared dependencies. */
  method MergeCorrelated(graph: RiskGraph, exposed: set<Id>) returns (merged: map<Id, set<Id>>)
    requires graph.Coherent() && exposed <= graph.nodes.Keys
    ensures LargestShared(graph.View(), exposed, merged)
  {
    ghost var g := graph.View();
    merged := map[];
    var todo := exposed;
    assert exposed - todo == {};
    while todo != {}
      invariant todo <= exposed
      invariant LargestShared(g, exposed - todo, merged)
      decreases todo
    {
      var x :| x in todo;
      var correlations := CorrelatedEntities(graph, x, DEFAULTS);
      MergeKeepsLargest(g, exposed - todo, merged, x);
      assert exposed - (todo - {x}) == (exposed - todo) + {x};
      todo := todo - {x};
      merged := Merge(merged, correlations.value);
    }
    assert exposed - {} == exposed;
  }

  function Merge(kept: map<Id, set<Id>>, more: map<Id, set<Id>>): map<Id, set<Id>> {
    map e | e in kept.Keys + more.Keys ::
      if e in kept && (e !in more || |more[e]| <= |kept[e]|) then kept[e] else more[e]
  }

  ghost predicate SharedBySome(g: Graph, exposed: set<Id>, e: Id, shared: set<Id>) {
    exists x :: x in exposed && e in Correlated(g, x, DEFAULTS) && shared == Shared(g, x, e, DEFAULTS)
  }

  lemma MergedIsShared(g: Graph, exposed: set<Id>, m: map<Id, set<Id>>, x: Id, e: Id)
    requires LargestShared(g, exposed, m) && e in Merge(m, Correlated(g, x, DEFAULTS))
    ensures SharedBySome(g, exposed + {x}, e, Merge(m, Correlated(g, x, DEFAULTS))[e])
  {
    var more := Correlated(g, x, DEFAULTS);
    if e in m && Merge(m, more)[e] == m[e] {
      assert SharedBySome(g, exposed, e, m[e]);
      var z :| z in exposed && e in Correlated(g, z, DEFAULTS) && m[e] == Shared(g, z, e, DEFAULTS);
      assert z in exposed + {x};
    } else {
      assert x in exposed + {x} && Merge(m, more)[e] == more[e] == Shared(g, x, e, DEFAULTS);
    }
  }

  lemma MergeKeepsLargest(g: Graph, exposed: set<Id>, m: map<Id, set<Id>>, x: Id)
    requires LargestShared(g, exposed, m)
    ensures LargestShared(g, exposed + {x}, Merge(m, Correlated(g, x, DEFAULTS)))
  {
    var merged := Merge(m, Correlated(g, x, DEFAULTS));
    forall e | e in merged ensures SharedBySome(g, exposed + {x}, e, merged[e]) {
      MergedIsShared(g, exposed, m, x, e);
    }
    forall z, e | z in exposed + {x} && e in Correlated(g, z, DEFAULTS)
      ensures e in merged && |Shared(g, z, e, DEFAULTS)| <= |merged[e]|
    {
      MergedIsLargest(g, exposed, m, x, z, e);
    }
  }

  lemma MergedIsLargest(g: Graph, exposed: set<Id>, m: map<Id, set<Id>>, x: Id, z: Id, e: Id)
    requires LargestShared(g, exposed, m) && z in exposed + {x} && e in Correlated(g, z, DEFAULTS)
    ensures var merged := Merge(m, Correlated(g, x, DEFAULTS));
            e in merged && |Shared(g, z, e, DEFAULTS)| <= |merged[e]|
  {
    MergeKeepsLarger(m, Correlated(g, x, DEFAULTS), e);
    if z in exposed {
      assert e in m && |Shared(g, z, e, DEFAULTS)| <= |m[e]|;
    } else {
      CorrelatedIsShared(g, x, e);
    }
  }

  lemma MergeKeepsLarger(m: map<Id, set<Id>>, more: map<Id, set<Id>>, e: Id)
    ensures e in m ==> e in Merge(m, more) && |m[e]| <= |Merge(m, more)[e]|
    ensures e in more ==> e in Merge(m, more) && |more[e]| <= |Merge(m, more)[e]|
  {
  }

  lemma CorrelatedIsShared(g: Graph, x: Id, e: Id)
    requires e in Correlated(g, x, DEFAULTS)
    ensures Correlated(g, x, DEFAULTS)[e] == Shared(g, x, e, DEFAULTS)
  {
  }
}
