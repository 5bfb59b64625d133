/**
 The questions the risk graph answers (`packages/domain/src/queries.ts`), each computed through
 `RiskGraph` and specified by links and distances alone. Results are sets and maps: the order in which
 the source sorts them for display is left out.
 */
module Queries {
  import opened Prelude
  import opened Ontology
  import opened GraphModel
  import opened Distances
  import opened RiskGraphs
  import opened Chains

  datatype Options = Options(maxDepth: int, verifiedOnly: bool)

  const DEFAULTS := Options(8, false)

  function DependsOn(o: Options): Filter {
    Filter(Some({DEPENDS_ON}), Outward, o.verifiedOnly)
  }

  function DependedOnBy(o: Options): Filter {
    Filter(Some({DEPENDS_ON}), Inward, o.verifiedOnly)
  }

  // ---------------------------------------------------------------- specifications

  /** The nodes with an edge of this type into `n`. */
  ghost function SourcesOf(g: Graph, n: Id, t: EdgeType): set<Id> {
    set a | a in g.nodes && Link(g, OfType(t), a, n)
  }

  /** The nodes with an edge of this type out of `n`. */
  ghost function TargetsOf(g: Graph, n: Id, t: EdgeType): set<Id> {
    set b | b in g.nodes && Link(g, OfType(t), n, b)
  }

  /** Some walk of at most `bound` links leads from a start to `n`. */
  ghost predicate Within(g: Graph, f: Filter, starts: set<Id>, n: Id, bound: nat) {
    exists k: nat :: k <= bound && FromAny(g, f, starts, n, k)
  }

  ghost function AllWithin(g: Graph, f: Filter, starts: set<Id>, bound: nat): set<Id> {
    set n | n in g.nodes && Within(g, f, starts, n, bound)
  }

  predicate HasType(g: Graph, n: Id, t: NodeType) {
    n in g.nodes && g.nodes[n].nodeType == t
  }

  /** Q1: what an entity owns, and whatever that depends on. */
  ghost function CanFail(g: Graph, entity: Id, o: Options): set<Id> {
    AllWithin(g, DependsOn(o), TargetsOf(g, entity, OWNS), Bound(o.maxDepth))
  }

  /** Q2 and its reverse: every other node within the bound, at its distance. */
  ghost predicate DependencyMap(g: Graph, f: Filter, a: Id, bound: nat, m: map<Id, nat>) {
    forall n, d: nat :: (n in m && m[n] == d) <==> (n != a && d <= bound && IsDistance(g, f, {a}, n, d))
  }

  /** Q3: an entity exposed itself, or owning an exposed asset or a dependent of one. */
  ghost predicate Implicated(g: Graph, risk: Id, o: Options, e: Id) {
    || (HasType(g, e, ENTITY) && e in SourcesOf(g, risk, EXPOSED_TO))
    || exists x, y :: ExposedThrough(g, risk, o, x, y) && e in SourcesOf(g, y, OWNS)
  }

  ghost predicate ExposedThrough(g: Graph, risk: Id, o: Options, x: Id, y: Id) {
    && x in SourcesOf(g, risk, EXPOSED_TO) && HasType(g, x, ASSET)
    && y in AllWithin(g, DependedOnBy(o), {x}, Bound(o.maxDepth))
  }

  ghost function Exposed(g: Graph, risk: Id, o: Options): set<Id> {
    set e | e in g.nodes && Implicated(g, risk, o, e)
  }

  /** Q5: the policies and coverages that respond to a risk. */
  ghost function Covering(g: Graph, risk: Id): set<Id> {
    set p | p in SourcesOf(g, risk, COVERS) && (HasType(g, p, POLICY) || HasType(g, p, COVERAGE))
  }

  datatype Backing = Backing(capital: set<Id>, protection: set<Id>)

  ghost function BackingOf(g: Graph, syndicate: Id): Backing {
    Backing((set c | c in SourcesOf(g, syndicate, SUPPORTS) && HasType(g, c, CAPITAL)), SourcesOf(g, syndicate, PROTECTS))
  }

  /** Q6: the syndicates assuming any of some risks, each with its capital and protection. */
  ghost function Bearing(g: Graph, risks: set<Id>): map<Id, Backing> {
    map s | s in g.nodes && HasType(g, s, SYNDICATE) && (exists r :: r in risks && s in SourcesOf(g, r, ASSUMES)) :: BackingOf(g, s)
  }

  ghost function Shared(g: Graph, a: Id, b: Id, o: Options): set<Id> {
    CanFail(g, a, o) * CanFail(g, b, o)
  }

  /** Q7: the other entities with something in common, and what that is. */
  ghost function Correlated(g: Graph, a: Id, o: Options): map<Id, set<Id>> {
    map e | e in g.nodes && HasType(g, e, ENTITY) && e != a && Shared(g, a, e, o) != {} :: Shared(g, a, e, o)
  }

  // ---------------------------------------------------------------- in terms of stored edges

  /** Sources and targets are the known ends of stored edges. */
  lemma EndsOfEdges(g: Graph, a: Id, b: Id, t: EdgeType)
    ensures a in SourcesOf(g, b, t) <==> a in g.nodes && Joins(g, t, a, b)
    ensures b in TargetsOf(g, a, t) <==> b in g.nodes && Joins(g, t, a, b)
  {
    if Link(g, OfType(t), a, b) {
      var id :| id in g.edges && Passes(OfType(t), g.edges[id]) && Tail(OfType(t), g.edges[id]) == a && Head(OfType(t), g.edges[id]) == b;
      assert g.edges[id].edgeType in {t};
    }
    if Joins(g, t, a, b) {
      var id :| id in g.edges && g.edges[id].edgeType == t && g.edges[id].fromId == a && g.edges[id].toId == b;
      assert Passes(OfType(t), g.edges[id]);
    }
  }

  lemma FiltersFollowDependencies(o: Options)
    ensures DependsOn(o) == Along(o.verifiedOnly) && DependedOnBy(o) == Reverse(Along(o.verifiedOnly))
  {
  }

  /** `a` depends on `b` through no dependency, or through at most `maxDepth` in a row. */
  ghost predicate DependsWithin(g: Graph, o: Options, a: Id, b: Id) {
    exists k: nat :: (k == 0 || k <= o.maxDepth) && DependsThrough(g, o.verifiedOnly, a, b, k)
  }

  lemma ReachFollowsDependencies(g: Graph, o: Options, starts: set<Id>, n: Id)
    ensures n in AllWithin(g, DependsOn(o), starts, Bound(o.maxDepth))
       <==> n in g.nodes && exists s :: s in starts && DependsWithin(g, o, s, n)
    ensures n in AllWithin(g, DependedOnBy(o), starts, Bound(o.maxDepth))
       <==> n in g.nodes && exists s :: s in starts && DependsWithin(g, o, n, s)
  {
    forall s
      ensures WalkWithin(g, DependsOn(o), s, n, o.maxDepth) <==> DependsWithin(g, o, s, n)
      ensures WalkWithin(g, DependedOnBy(o), s, n, o.maxDepth) <==> DependsWithin(g, o, n, s)
    {
      WalkWithinIsDependence(g, o, s, n);
    }
    WithinAnyStart(g, DependsOn(o), starts, n, o.maxDepth);
    WithinAnyStart(g, DependedOnBy(o), starts, n, o.maxDepth);
  }

  ghost predicate WalkWithin(g: Graph, f: Filter, s: Id, n: Id, maxDepth: int) {
    exists k: nat :: (k == 0 || k <= maxDepth) && Walk(g, f, s, n, k)
  }

  lemma WalkWithinIsDependence(g: Graph, o: Options, s: Id, n: Id)
    ensures WalkWithin(g, DependsOn(o), s, n, o.maxDepth) <==> DependsWithin(g, o, s, n)
    ensures WalkWithin(g, DependedOnBy(o), s, n, o.maxDepth) <==> DependsWithin(g, o, n, s)
  {
    FiltersFollowDependencies(o);
    forall k: nat
      ensures Walk(g, DependsOn(o), s, n, k) <==> DependsThrough(g, o.verifiedOnly, s, n, k)
      ensures Walk(g, DependedOnBy(o), s, n, k) <==> DependsThrough(g, o.verifiedOnly, n, s, k)
    {
      WalksAreChains(g, o.verifiedOnly, s, n, k);
      WalksAreChains(g, o.verifiedOnly, n, s, k);
    }
  }

  lemma WithinAnyStart(g: Graph, f: Filter, starts: set<Id>, n: Id, maxDepth: int)
    ensures Within(g, f, starts, n, Bound(maxDepth)) <==> exists s :: s in starts && WalkWithin(g, f, s, n, maxDepth)
  {
    if Within(g, f, starts, n, Bound(maxDepth)) {
      var k: nat :| k <= Bound(maxDepth) && FromAny(g, f, starts, n, k);
      var s :| s in starts && Walk(g, f, s, n, k);
      assert WalkWithin(g, f, s, n, maxDepth);
    }
    forall s | s in starts && WalkWithin(g, f, s, n, maxDepth) ensures Within(g, f, starts, n, Bound(maxDepth)) {
      var k: nat :| (k == 0 || k <= maxDepth) && Walk(g, f, s, n, k);
      assert FromAny(g, f, starts, n, k);
    }
  }

  /** What can fail: known nodes on which something owned through a stored OWNS edge depends within the bound. */
  lemma CanFailMeaning(g: Graph, entity: Id, o: Options, n: Id)
    ensures n in CanFail(g, entity, o)
       <==> n in g.nodes && exists b :: b in g.nodes && Joins(g, OWNS, entity, b) && DependsWithin(g, o, b, n)
  {
    ReachFollowsDependencies(g, o, TargetsOf(g, entity, OWNS), n);
    forall b ensures b in TargetsOf(g, entity, OWNS) <==> b in g.nodes && Joins(g, OWNS, entity, b) {
      EndsOfEdges(g, entity, b, OWNS);
    }
  }

  predicate Maps(m: map<Id, nat>, n: Id, d: nat) {
    n in m && m[n] == d
  }

  /** Dependencies and dependents: every other node, at the length of a shortest chain within the bound. */
  lemma DependencyMapMeaning(g: Graph, o: Options, a: Id, m: map<Id, nat>, n: Id, d: nat)
    ensures DependencyMap(g, DependsOn(o), a, Bound(o.maxDepth), m) ==>
              (Maps(m, n, d) <==> n != a && d <= o.maxDepth && DependsAtDepth(g, o.verifiedOnly, a, n, d))
    ensures DependencyMap(g, DependedOnBy(o), a, Bound(o.maxDepth), m) ==>
              (Maps(m, n, d) <==> n != a && d <= o.maxDepth && DependsAtDepth(g, o.verifiedOnly, n, a, d))
  {
    FiltersFollowDependencies(o);
    DistancesAreDepths(g, o.verifiedOnly, a, n, d);
    DistancesAreDepths(g, o.verifiedOnly, n, a, d);
    if d == 0 {
      NoDependencyNoMove(g, o.verifiedOnly, a, n);
      NoDependencyNoMove(g, o.verifiedOnly, n, a);
    }
  }

  lemma NoDependencyNoMove(g: Graph, verifiedOnly: bool, a: Id, b: Id)
    ensures DependsThrough(g, verifiedOnly, a, b, 0) <==> a == b
  {
    if a == b {
      assert Chain(g, verifiedOnly, [], a, b);
    }
  }

  /** Exposed: entities with a stored EXPOSED_TO edge to the risk, and owners of what depends on an exposed asset. */
  lemma ExposedMeaning(g: Graph, risk: Id, o: Options, e: Id)
    ensures e in Exposed(g, risk, o)
       <==> e in g.nodes
            && (|| (g.nodes[e].nodeType == ENTITY && Joins(g, EXPOSED_TO, e, risk))
                || exists x, y :: OwnedAndExposed(g, risk, o, e, x, y))
  {
    EndsOfEdges(g, e, risk, EXPOSED_TO);
    forall x, y ensures ExposedThrough(g, risk, o, x, y) && e in SourcesOf(g, y, OWNS) <==> e in g.nodes && OwnedAndExposed(g, risk, o, e, x, y) {
      EndsOfEdges(g, x, risk, EXPOSED_TO);
      EndsOfEdges(g, e, y, OWNS);
      ReachFollowsDependencies(g, o, {x}, y);
      assert x in {x};
    }
  }

  /** `e` owns `y`, which depends within the bound on the asset `x`, which is exposed to the risk. */
  ghost predicate OwnedAndExposed(g: Graph, risk: Id, o: Options, e: Id, x: Id, y: Id) {
    && x in g.nodes && g.nodes[x].nodeType == ASSET && Joins(g, EXPOSED_TO, x, risk)
    && y in g.nodes && DependsWithin(g, o, y, x) && Joins(g, OWNS, e, y)
  }

  lemma CoveringMeaning(g: Graph, risk: Id, p: Id)
    ensures p in Covering(g, risk)
       <==> p in g.nodes && g.nodes[p].nodeType in {POLICY, COVERAGE} && Joins(g, COVERS, p, risk)
  {
    EndsOfEdges(g, p, risk, COVERS);
  }

  /** Who bears a risk: syndicates that assume it; their capital supports them, and protection protects them. */
  lemma BearingMeaning(g: Graph, risks: set<Id>, s: Id, c: Id)
    ensures s in Bearing(g, risks)
       <==> s in g.nodes && g.nodes[s].nodeType == SYNDICATE && exists r :: r in risks && Joins(g, ASSUMES, s, r)
    ensures s in Bearing(g, risks) ==>
              && (c in Bearing(g, risks)[s].capital <==> c in g.nodes && g.nodes[c].nodeType == CAPITAL && Joins(g, SUPPORTS, c, s))
              && (c in Bearing(g, risks)[s].protection <==> c in g.nodes && Joins(g, PROTECTS, c, s))
  {
    forall r ensures s in SourcesOf(g, r, ASSUMES) <==> s in g.nodes && Joins(g, ASSUMES, s, r) {
      EndsOfEdges(g, s, r, ASSUMES);
    }
    EndsOfEdges(g, c, s, SUPPORTS);
    EndsOfEdges(g, c, s, PROTECTS);
  }

  /** Correlated: the other entities for which something can fail that can fail for the subject, with all of it. */
  lemma CorrelatedMeaning(g: Graph, a: Id, o: Options, e: Id, n: Id)
    ensures e in Correlated(g, a, o)
       <==> e in g.nodes && g.nodes[e].nodeType == ENTITY && e != a && exists x :: x in CanFail(g, a, o) && x in CanFail(g, e, o)
    ensures e in Correlated(g, a, o) ==> (n in Correlated(g, a, o)[e] <==> n in CanFail(g, a, o) && n in CanFail(g, e, o))
  {
    if x :| x in CanFail(g, a, o) && x in CanFail(g, e, o) {
      assert x in Shared(g, a, e, o);
    }
    if x :| x in Shared(g, a, e, o) {
      assert x in CanFail(g, a, o) && x in CanFail(g, e, o);
    }
  }

  // ---------------------------------------------------------------- laws

  lemma KeysAreWithin(g: Graph, f: Filter, starts: set<Id>, bound: nat, m: map<Id, nat>)
    requires IsDistanceMap(g, f, starts, bound, m) && m.Keys <= g.nodes.Keys
    ensures m.Keys == AllWithin(g, f, starts, bound)
  {
    forall n | n in m ensures Within(g, f, starts, n, bound) {
      assert FromAny(g, f, starts, n, m[n]);
    }
  }

  /** b is among a's dependencies at depth d exactly when a is among b's dependents at depth d. */
  lemma DependencyDuality(g: Graph, o: Options, a: Id, b: Id, down: map<Id, nat>, up: map<Id, nat>, d: nat)
    requires DependencyMap(g, DependsOn(o), a, Bound(o.maxDepth), down)
    requires DependencyMap(g, DependedOnBy(o), b, Bound(o.maxDepth), up)
    ensures (b in down && down[b] == d) <==> (a in up && up[a] == d)
  {
    assert Reverse(DependsOn(o)) == DependedOnBy(o) && Reverse(DependedOnBy(o)) == DependsOn(o);
    if b in down && down[b] == d {
      DistanceReverse(g, DependsOn(o), a, b, d);
    }
    if a in up && up[a] == d {
      DistanceReverse(g, DependedOnBy(o), b, a, d);
    }
  }

  /** In a legal graph only entities own anything. */
  lemma OnlyEntitiesOwn(g: Graph, a: Id, b: Id)
    requires Legal(g) && Link(g, OfType(OWNS), a, b)
    ensures HasType(g, a, ENTITY)
  {
    var id :| id in g.edges && Passes(OfType(OWNS), g.edges[id]) && g.edges[id].fromId == a && g.edges[id].toId == b;
    assert LegalEdge(g, g.edges[id]);
    OwnersAreEntities(g.nodes[a].nodeType, g.nodes[b].nodeType);
  }

  lemma OthersOwnNothing(g: Graph, a: Id, o: Options)
    requires Legal(g) && !HasType(g, a, ENTITY)
    ensures CanFail(g, a, o) == {}
  {
    forall b | b in g.nodes ensures !Link(g, OfType(OWNS), a, b) {
      if Link(g, OfType(OWNS), a, b) {
        OnlyEntitiesOwn(g, a, b);
      }
    }
    assert TargetsOf(g, a, OWNS) == {};
  }

  /** Correlation is symmetric, with the same shared dependencies both ways, whatever the types of the two nodes. */
  lemma CorrelationIsSymmetric(g: Graph, a: Id, b: Id, o: Options)
    requires Legal(g) && a in g.nodes && b in g.nodes
    ensures b in Correlated(g, a, o) <==> a in Correlated(g, b, o)
    ensures b in Correlated(g, a, o) ==> Correlated(g, a, o)[b] == Correlated(g, b, o)[a]
  {
    assert Shared(g, a, b, o) == Shared(g, b, a, o);
    if !HasType(g, a, ENTITY) {
      OthersOwnNothing(g, a, o);
    }
    if !HasType(g, b, ENTITY) {
      OthersOwnNothing(g, b, o);
    }
  }

  // ---------------------------------------------------------------- what verifiedOnly covers

  /** The graph without its AI-inferred edges. */
  function Verified(g: Graph): Graph {
    g.(edges := map id | id in g.edges && !g.edges[id].aiInferred :: g.edges[id])
  }

  lemma VerifiedLink(g: Graph, f: Filter, a: Id, b: Id)
    requires f.verifiedOnly
    ensures Link(g, f, a, b) <==> Link(Verified(g), f, a, b)
  {
    if Link(g, f, a, b) {
      var id :| id in g.edges && Passes(f, g.edges[id]) && Tail(f, g.edges[id]) == a && Head(f, g.edges[id]) == b;
      assert id in Verified(g).edges;
    }
  }

  lemma {:induction false} VerifiedWalk(g: Graph, f: Filter, a: Id, b: Id, k: nat)
    requires f.verifiedOnly
    ensures Walk(g, f, a, b, k) <==> Walk(Verified(g), f, a, b, k)
    decreases k
  {
    if k > 0 {
      forall m ensures Walk(g, f, a, m, k - 1) && Link(g, f, m, b) <==> Walk(Verified(g), f, a, m, k - 1) && Link(Verified(g), f, m, b) {
        VerifiedWalk(g, f, a, m, k - 1);
        VerifiedLink(g, f, m, b);
      }
    }
  }

  lemma VerifiedFromAny(g: Graph, f: Filter, starts: set<Id>, n: Id, k: nat)
    requires f.verifiedOnly
    ensures FromAny(g, f, starts, n, k) <==> FromAny(Verified(g), f, starts, n, k)
  {
    forall s ensures Walk(g, f, s, n, k) <==> Walk(Verified(g), f, s, n, k) {
      VerifiedWalk(g, f, s, n, k);
    }
  }

  /** Dependencies and dependents under `verifiedOnly` are those of the verified graph. */
  lemma DependenciesAreVerified(g: Graph, o: Options, a: Id, m: map<Id, nat>)
    requires o.verifiedOnly
    ensures DependencyMap(g, DependsOn(o), a, Bound(o.maxDepth), m) <==> DependencyMap(Verified(g), DependsOn(o), a, Bound(o.maxDepth), m)
    ensures DependencyMap(g, DependedOnBy(o), a, Bound(o.maxDepth), m) <==> DependencyMap(Verified(g), DependedOnBy(o), a, Bound(o.maxDepth), m)
  {
    VerifiedMap(g, DependsOn(o), a, Bound(o.maxDepth), m);
    VerifiedMap(g, DependedOnBy(o), a, Bound(o.maxDepth), m);
  }

  lemma VerifiedMap(g: Graph, f: Filter, a: Id, bound: nat, m: map<Id, nat>)
    requires f.verifiedOnly
    ensures DependencyMap(g, f, a, bound, m) <==> DependencyMap(Verified(g), f, a, bound, m)
  {
    forall n, d: nat ensures IsDistance(g, f, {a}, n, d) <==> IsDistance(Verified(g), f, {a}, n, d) {
      VerifiedDistance(g, f, a, n, d);
    }
    if DependencyMap(g, f, a, bound, m) {
      MapCarriesOver(g, Verified(g), f, a, bound, m);
    }
    if DependencyMap(Verified(g), f, a, bound, m) {
      MapCarriesOver(Verified(g), g, f, a, bound, m);
    }
  }

  lemma MapCarriesOver(g: Graph, h: Graph, f: Filter, a: Id, bound: nat, m: map<Id, nat>)
    requires forall n, d: nat :: IsDistance(g, f, {a}, n, d) <==> IsDistance(h, f, {a}, n, d)
    requires DependencyMap(g, f, a, bound, m)
    ensures DependencyMap(h, f, a, bound, m)
  {
    forall n, d: nat ensures (n in m && m[n] == d) <==> (n != a && d <= bound && IsDistance(h, f, {a}, n, d)) {
      assert IsDistance(g, f, {a}, n, d) <==> IsDistance(h, f, {a}, n, d);
      assert (n in m && m[n] == d) <==> (n != a && d <= bound && IsDistance(g, f, {a}, n, d));
    }
  }

  lemma VerifiedDistance(g: Graph, f: Filter, a: Id, n: Id, d: nat)
    requires f.verifiedOnly
    ensures IsDistance(g, f, {a}, n, d) <==> IsDistance(Verified(g), f, {a}, n, d)
  {
    forall k: nat ensures FromAny(g, f, {a}, n, k) <==> FromAny(Verified(g), f, {a}, n, k) {
      VerifiedFromAny(g, f, {a}, n, k);
    }
  }

  lemma VerifiedReach(g: Graph, f: Filter, starts: set<Id>, bound: nat)
    requires f.verifiedOnly
    ensures AllWithin(g, f, starts, bound) == AllWithin(Verified(g), f, starts, bound)
  {
    forall n, k: nat ensures FromAny(g, f, starts, n, k) <==> FromAny(Verified(g), f, starts, n, k) {
      VerifiedFromAny(g, f, starts, n, k);
    }
  }

  /** Owned assets are not filtered: what can fail is what verified dependencies reach from all of them. */
  lemma OwnershipIsNotFiltered(g: Graph, entity: Id, o: Options)
    requires o.verifiedOnly
    ensures CanFail(g, entity, o) == AllWithin(Verified(g), DependsOn(o), TargetsOf(g, entity, OWNS), Bound(o.maxDepth))
  {
    VerifiedReach(g, DependsOn(o), TargetsOf(g, entity, OWNS), Bound(o.maxDepth));
  }

  /** So an asset owned through an inferred edge alone counts, although the verified graph knows no owner of it. */
  lemma InferredOwnershipCounts(g: Graph, entity: Id, asset: Id, o: Options)
    requires Connected(g) && o.verifiedOnly && Link(g, OfType(OWNS), entity, asset)
    requires TargetsOf(Verified(g), entity, OWNS) == {}
    ensures asset in CanFail(g, entity, o) && CanFail(Verified(g), entity, o) == {}
  {
    assert asset in g.nodes;
    assert Walk(g, DependsOn(o), asset, asset, 0);
    assert FromAny(g, DependsOn(o), TargetsOf(g, entity, OWNS), asset, 0);
  }

  /** Nor are exposures and owners: an entity exposed through an inferred edge counts. */
  lemma InferredExposureCounts(g: Graph, entity: Id, risk: Id, o: Options)
    requires Connected(g) && o.verifiedOnly && HasType(g, entity, ENTITY) && Link(g, OfType(EXPOSED_TO), entity, risk)
    requires SourcesOf(Verified(g), risk, EXPOSED_TO) == {}
    ensures entity in Exposed(g, risk, o) && Exposed(Verified(g), risk, o) == {}
  {
    forall e ensures !Implicated(Verified(g), risk, o, e) {
    }
  }

  // ---------------------------------------------------------------- the queries

  /** `edgesTo(n, t)` mapped to the edges' sources. */
  method Sources(graph: RiskGraph, n: Id, t: EdgeType) returns (r: set<Id>)
    requires graph.Coherent()
    ensures r == SourcesOf(graph.View(), n, t)
  {
    var es := graph.EdgesTo(n, Some(t));
    ghost var g := graph.View();
    r := set e | e in es :: e.fromId;
    forall a ensures a in r <==> a in g.nodes && Link(g, OfType(t), a, n) {
      SourceIsLink(g, n, t, es, a);
    }
  }

  lemma SourceIsLink(g: Graph, n: Id, t: EdgeType, es: seq<Edge>, a: Id)
    requires Connected(g) && EdgesAt(g, n, Inward, Some(t), es)
    ensures (exists e :: e in es && e.fromId == a) <==> a in g.nodes && Link(g, OfType(t), a, n)
  {
    EdgesAreLinks(g, Reverse(OfType(t)), n, es, Some(t));
    assert Reverse(Reverse(OfType(t))) == OfType(t);
    if Link(g, OfType(t), a, n) {
      LinkReverse(g, OfType(t), a, n);
    }
    if Link(g, Reverse(OfType(t)), n, a) {
      LinkReverse(g, Reverse(OfType(t)), n, a);
    }
    forall e | e in es ensures Passes(Reverse(OfType(t)), e) && e.fromId in g.nodes {
      assert e.edgeType in {t};
    }
  }

  method WhatCanFail(graph: RiskGraph, entityId: Id, o: Options) returns (r: Result<set<Id>, GraphError>)
    requires graph.Coherent()
    ensures r.Ok? <==> entityId in graph.nodes
    ensures r.Ok? ==> r.value == CanFail(graph.View(), entityId, o)
  {
    if entityId !in graph.nodes {
      return Err(UnknownNode(entityId));
    }
    var es := graph.EdgesFrom(entityId, Some(OWNS));
    var owned := seq(|es|, i requires 0 <= i < |es| => es[i].toId);
    ghost var g := graph.View();
    OwnedAreTargets(g, entityId, es, owned);
    if owned == [] {
      assert TargetsOf(g, entityId, OWNS) == {};
      return Ok({});
    }
    var reached := graph.Traverse(owned, DependsOn(o), o.maxDepth);
    KeysAreWithin(g, DependsOn(o), TargetsOf(g, entityId, OWNS), Bound(o.maxDepth), reached.value);
    return Ok(reached.value.Keys);
  }

  lemma OwnedAreTargets(g: Graph, n: Id, es: seq<Edge>, owned: seq<Id>)
    requires Connected(g) && EdgesAt(g, n, Outward, Some(OWNS), es)
    requires |owned| == |es| && forall i :: 0 <= i < |es| ==> owned[i] == es[i].toId
    ensures (set s | s in owned) == TargetsOf(g, n, OWNS)
    ensures forall i :: 0 <= i < |owned| ==> owned[i] in g.nodes
  {
    EdgesAreLinks(g, OfType(OWNS), n, es, Some(OWNS));
    forall i | 0 <= i < |owned| ensures owned[i] in TargetsOf(g, n, OWNS) {
      assert es[i] in es;
      assert Passes(OfType(OWNS), es[i]) && Head(OfType(OWNS), es[i]) == owned[i];
    }
    forall b | b in TargetsOf(g, n, OWNS) ensures b in owned {
      var e :| e in es && Head(OfType(OWNS), e) == b;
      var i :| 0 <= i < |es| && es[i] == e;
      assert owned[i] == b;
    }
  }

  /** `dependenciesOf` and `dependentsOf`: the traversal from one asset, without the asset itself. */
  method Dependencies(graph: RiskGraph, assetId: Id, f: Filter, maxDepth: int) returns (r: Result<map<Id, nat>, GraphError>)
    requires graph.Coherent()
    ensures r.Ok? <==> assetId in graph.nodes
    ensures r.Ok? ==> DependencyMap(graph.View(), f, assetId, Bound(maxDepth), r.value)
    ensures r.Ok? ==> r.value.Keys == AllWithin(graph.View(), f, {assetId}, Bound(maxDepth)) - {assetId}
  {
    var reached := graph.Traverse([assetId], f, maxDepth);
    if reached.Err? {
      assert [assetId][0] == assetId;
      return Err(reached.error);
    }
    assert [assetId][0] in graph.nodes;
    assert (set s | s in [assetId]) == {assetId};
    WithoutStart(graph.View(), f, assetId, Bound(maxDepth), reached.value);
    return Ok(map n | n in reached.value && n != assetId :: reached.value[n]);
  }

  lemma WithoutStart(g: Graph, f: Filter, a: Id, bound: nat, m: map<Id, nat>)
    requires IsDistanceMap(g, f, {a}, bound, m) && m.Keys <= g.nodes.Keys
    ensures var others := map n | n in m && n != a :: m[n];
            DependencyMap(g, f, a, bound, others) && others.Keys == AllWithin(g, f, {a}, bound) - {a}
  {
    KeysAreWithin(g, f, {a}, bound, m);
    var others := map n | n in m && n != a :: m[n];
    forall n, d: nat ensures (n in others && others[n] == d) <==> (n != a && d <= bound && IsDistance(g, f, {a}, n, d)) {
      DistanceMapExact(g, f, {a}, bound, m, n, d);
    }
  }

  method DependenciesOf(graph: RiskGraph, assetId: Id, o: Options) returns (r: Result<map<Id, nat>, GraphError>)
    requires graph.Coherent()
    ensures r.Ok? <==> assetId in graph.nodes
    ensures r.Ok? ==> forall n, d: nat :: Maps(r.value, n, d) <==>
              n != assetId && d <= o.maxDepth && DependsAtDepth(graph.View(), o.verifiedOnly, assetId, n, d)
    ensures r.Ok? ==> DependencyMap(graph.View(), DependsOn(o), assetId, Bound(o.maxDepth), r.value)
  {
    r := Dependencies(graph, assetId, DependsOn(o), o.maxDepth);
    if r.Ok? {
      forall n, d: nat
        ensures Maps(r.value, n, d) <==> n != assetId && d <= o.maxDepth && DependsAtDepth(graph.View(), o.verifiedOnly, assetId, n, d)
      {
        DependencyMapMeaning(graph.View(), o, assetId, r.value, n, d);
      }
    }
  }

  method DependentsOf(graph: RiskGraph, assetId: Id, o: Options) returns (r: Result<map<Id, nat>, GraphError>)
    requires graph.Coherent()
    ensures r.Ok? <==> assetId in graph.nodes
    ensures r.Ok? ==> forall n, d: nat :: Maps(r.value, n, d) <==>
              n != assetId && d <= o.maxDepth && DependsAtDepth(graph.View(), o.verifiedOnly, n, assetId, d)
    ensures r.Ok? ==> DependencyMap(graph.View(), DependedOnBy(o), assetId, Bound(o.maxDepth), r.value)
    ensures r.Ok? ==> r.value.Keys == AllWithin(graph.View(), DependedOnBy(o), {assetId}, Bound(o.maxDepth)) - {assetId}
  {
    r := Dependencies(graph, assetId, DependedOnBy(o), o.maxDepth);
    if r.Ok? {
      forall n, d: nat
        ensures Maps(r.value, n, d) <==> n != assetId && d <= o.maxDepth && DependsAtDepth(graph.View(), o.verifiedOnly, n, assetId, d)
      {
        DependencyMapMeaning(graph.View(), o, assetId, r.value, n, d);
      }
    }
  }

  /** The owners of any of some assets. */
  method Owners(graph: RiskGraph, assets: set<Id>) returns (r: set<Id>)
    requires graph.Coherent()
    ensures forall e :: e in r <==> exists y :: y in assets && e in SourcesOf(graph.View(), y, OWNS)
  {
    r := {};
    var todo := assets;
    while todo != {}
      invariant todo <= assets
      invariant forall e :: e in r <==> exists y :: y in assets - todo && e in SourcesOf(graph.View(), y, OWNS)
      decreases todo
    {
      var assetId :| assetId in todo;
      var owners := Sources(graph, assetId, OWNS);
      assert assets - (todo - {assetId}) == (assets - todo) + {assetId};
      todo := todo - {assetId};
      r := r + owners;
    }
    assert assets - {} == assets;
  }

  /** What one directly exposed node contributes to Q3. */
  ghost predicate ContributesExposure(g: Graph, o: Options, x: Id, e: Id) {
    || (e == x && HasType(g, x, ENTITY))
    || (HasType(g, x, ASSET) && exists y :: y in AllWithin(g, DependedOnBy(o), {x}, Bound(o.maxDepth)) && e in SourcesOf(g, y, OWNS))
  }

  lemma ImplicatedByContribution(g: Graph, risk: Id, o: Options, e: Id)
    ensures Implicated(g, risk, o, e) <==> exists x :: x in SourcesOf(g, risk, EXPOSED_TO) && ContributesExposure(g, o, x, e)
  {
    if x :| x in SourcesOf(g, risk, EXPOSED_TO) && ContributesExposure(g, o, x, e) {
      if !(e == x && HasType(g, x, ENTITY)) {
        var y :| y in AllWithin(g, DependedOnBy(o), {x}, Bound(o.maxDepth)) && e in SourcesOf(g, y, OWNS);
        assert ExposedThrough(g, risk, o, x, y);
      }
    }
    if Implicated(g, risk, o, e) && !(HasType(g, e, ENTITY) && e in SourcesOf(g, risk, EXPOSED_TO)) {
      var x, y :| ExposedThrough(g, risk, o, x, y) && e in SourcesOf(g, y, OWNS);
      assert ContributesExposure(g, o, x, e);
    }
  }

  lemma ExposedByContributions(g: Graph, risk: Id, o: Options, found: set<Id>)
    requires forall e :: e in found <==> exists x :: x in SourcesOf(g, risk, EXPOSED_TO) && ContributesExposure(g, o, x, e)
    ensures found == Exposed(g, risk, o)
  {
    forall e ensures e in found <==> e in g.nodes && Implicated(g, risk, o, e) {
      ImplicatedByContribution(g, risk, o, e);
    }
  }

  method ExposureThrough(graph: RiskGraph, x: Id, o: Options) returns (r: set<Id>)
    requires graph.Coherent() && x in graph.nodes
    ensures forall e :: e in r <==> ContributesExposure(graph.View(), o, x, e)
  {
    if graph.nodes[x].nodeType == ENTITY {
      return {x};
    }
    if graph.nodes[x].nodeType != ASSET {
      return {};
    }
    var impacted := graph.Traverse([x], DependedOnBy(o), o.maxDepth);
    assert (set s | s in [x]) == {x};
    KeysAreWithin(graph.View(), DependedOnBy(o), {x}, Bound(o.maxDepth), impacted.value);
    r := Owners(graph, impacted.value.Keys);
  }

  method ExposedEntities(graph: RiskGraph, riskId: Id, o: Options) returns (r: Result<set<Id>, GraphError>)
    requires graph.Coherent()
    ensures r.Ok? <==> riskId in graph.nodes
    ensures r.Ok? ==> r.value == Exposed(graph.View(), riskId, o)
  {
    if riskId !in graph.nodes {
      return Err(UnknownNode(riskId));
    }
    ghost var g := graph.View();
    var direct := Sources(graph, riskId, EXPOSED_TO);
    var found, todo := {}, direct;
    while todo != {}
      invariant todo <= direct
      invariant forall e :: e in found <==> exists x :: x in direct - todo && ContributesExposure(g, o, x, e)
      decreases todo
    {
      var x :| x in todo;
      var more := ExposureThrough(graph, x, o);
      assert direct - (todo - {x}) == (direct - todo) + {x};
      todo := todo - {x};
      found := found + more;
    }
    assert direct - {} == direct;
    ExposedByContributions(g, riskId, o, found);
    return Ok(found);
  }

  method CoveringPolicies(graph: RiskGraph, riskId: Id) returns (r: Result<set<Id>, GraphError>)
    requires graph.Coherent()
    ensures r.Ok? <==> riskId in graph.nodes
    ensures r.Ok? ==> r.value == Covering(graph.View(), riskId)
  {
    if riskId !in graph.nodes {
      return Err(UnknownNode(riskId));
    }
    var sources := Sources(graph, riskId, COVERS);
    return Ok(set p | p in sources && (graph.nodes[p].nodeType == POLICY || graph.nodes[p].nodeType == COVERAGE));
  }

  /** One entry of `capitalBearingRisk`. */
  method FindBacking(graph: RiskGraph, syndicate: Id) returns (r: Backing)
    requires graph.Coherent()
    ensures r == BackingOf(graph.View(), syndicate)
  {
    var supporters := Sources(graph, syndicate, SUPPORTS);
    var protectors := Sources(graph, syndicate, PROTECTS);
    r := Backing((set c | c in supporters && graph.nodes[c].nodeType == CAPITAL), protectors);
  }

  /** The entries for some syndicates, gathered in any order. */
  method FindBackings(graph: RiskGraph, syndicates: set<Id>) returns (entries: map<Id, Backing>)
    requires graph.Coherent()
    ensures entries.Keys == syndicates
    ensures forall s :: s in entries ==> entries[s] == BackingOf(graph.View(), s)
  {
    entries := map[];
    var todo := syndicates;
    while todo != {}
      invariant todo <= syndicates
      invariant entries.Keys == syndicates - todo
      invariant forall s :: s in entries ==> entries[s] == BackingOf(graph.View(), s)
      decreases todo
    {
      var s :| s in todo;
      var entry := FindBacking(graph, s);
      todo := todo - {s};
      entries := entries[s := entry];
    }
  }

  method CapitalBearingRisk(graph: RiskGraph, riskId: Id) returns (r: Result<map<Id, Backing>, GraphError>)
    requires graph.Coherent()
    ensures r.Ok? <==> riskId in graph.nodes
    ensures r.Ok? ==> r.value == Bearing(graph.View(), {riskId})
  {
    if riskId !in graph.nodes {
      return Err(UnknownNode(riskId));
    }
    var sources := Sources(graph, riskId, ASSUMES);
    var syndicates := set s | s in sources && graph.nodes[s].nodeType == SYNDICATE;
    var entries := FindBackings(graph, syndicates);
    BearingOne(graph.View(), riskId, entries);
    return Ok(entries);
  }

  lemma BearingOne(g: Graph, risk: Id, entries: map<Id, Backing>)
    requires forall s :: s in entries <==> s in SourcesOf(g, risk, ASSUMES) && HasType(g, s, SYNDICATE)
    requires forall s :: s in entries ==> entries[s] == BackingOf(g, s)
    ensures entries == Bearing(g, {risk})
  {
    forall s ensures s in Bearing(g, {risk}) <==> s in entries {
      if s in entries {
        assert risk in {risk} && s in SourcesOf(g, risk, ASSUMES);
      }
    }
  }

  /** What the subject shares with each candidate, where that is anything. */
  method SharedWith(graph: RiskGraph, entityId: Id, dependencies: set<Id>, candidates: set<Id>, o: Options)
    returns (results: map<Id, set<Id>>)
    requires graph.Coherent() && dependencies == CanFail(graph.View(), entityId, o) && candidates <= graph.nodes.Keys
    ensures forall e :: e in results <==> e in candidates && Shared(graph.View(), entityId, e, o) != {}
    ensures forall e :: e in results ==> results[e] == Shared(graph.View(), entityId, e, o)
  {
    results := map[];
    var todo := candidates;
    while todo != {}
      invariant todo <= candidates
      invariant forall e :: e in results <==> e in candidates - todo && Shared(graph.View(), entityId, e, o) != {}
      invariant forall e :: e in results ==> results[e] == Shared(graph.View(), entityId, e, o)
      decreases todo
    {
      var c :| c in todo;
      var theirs := WhatCanFail(graph, c, o);
      var shared := dependencies * theirs.value;
      assert shared == Shared(graph.View(), entityId, c, o);
      todo := todo - {c};
      if shared != {} {
        results := results[c := shared];
      }
    }
  }

  method CorrelatedEntities(graph: RiskGraph, entityId: Id, o: Options) returns (r: Result<map<Id, set<Id>>, GraphError>)
    requires graph.Coherent()
    ensures r.Ok? <==> entityId in graph.nodes
    ensures r.Ok? ==> r.value == Correlated(graph.View(), entityId, o)
  {
    var subject := WhatCanFail(graph, entityId, o);
    if subject.Err? {
      return Err(subject.error);
    }
    if subject.value == {} {
      NothingShared(graph.View(), entityId, o);
      return Ok(map[]);
    }
    var candidates := set n | n in graph.nodes && graph.nodes[n].nodeType == ENTITY && n != entityId;
    var results := SharedWith(graph, entityId, subject.value, candidates, o);
    IsCorrelated(graph.View(), entityId, o, results);
    return Ok(results);
  }

  lemma NothingShared(g: Graph, a: Id, o: Options)
    requires CanFail(g, a, o) == {}
    ensures Correlated(g, a, o) == map[]
  {
  }

  lemma IsCorrelated(g: Graph, a: Id, o: Options, results: map<Id, set<Id>>)
    requires forall e :: e in results <==> HasType(g, e, ENTITY) && e != a && Shared(g, a, e, o) != {}
    requires forall e :: e in results ==> results[e] == Shared(g, a, e, o)
    ensures results == Correlated(g, a, o)
  {
  }
}
