/**
 Chains of stored dependency edges, each starting where the one before ended: what the dependency queries
 are about, without filters, walks or directions.
 */
module Chains {
  import opened Prelude
  import opened Ontology
  import opened GraphModel
  import opened Distances

  /** A stored edge of this type leads from `a` to `b`. */
  ghost predicate Joins(g: Graph, t: EdgeType, a: Id, b: Id) {
    exists id :: id in g.edges && g.edges[id].edgeType == t && g.edges[id].fromId == a && g.edges[id].toId == b
  }

  /** A stored dependency, not inferred if only verified ones count. */
  predicate IsDependency(g: Graph, verifiedOnly: bool, id: Id) {
    id in g.edges && g.edges[id].edgeType == DEPENDS_ON && (verifiedOnly ==> !g.edges[id].aiInferred)
  }

  /** These edges lead from `a`, one after the other, to `b`. */
  ghost predicate Chain(g: Graph, verifiedOnly: bool, ids: seq<Id>, a: Id, b: Id) {
    && (forall i :: 0 <= i < |ids| ==> IsDependency(g, verifiedOnly, ids[i]))
    && (forall i :: 0 <= i < |ids| - 1 ==> g.edges[ids[i]].toId == g.edges[ids[i + 1]].fromId)
    && (if ids == [] then a == b else g.edges[ids[0]].fromId == a && g.edges[ids[|ids| - 1]].toId == b)
  }

  /** `a` depends on `b` through `k` dependencies in a row. */
  ghost predicate DependsThrough(g: Graph, verifiedOnly: bool, a: Id, b: Id, k: nat) {
    exists ids: seq<Id> :: |ids| == k && Chain(g, verifiedOnly, ids, a, b)
  }

  /** `a` depends on `b` through `d` in a row, and through no fewer. */
  ghost predicate DependsAtDepth(g: Graph, verifiedOnly: bool, a: Id, b: Id, d: nat) {
    DependsThrough(g, verifiedOnly, a, b, d) && forall k: nat :: DependsThrough(g, verifiedOnly, a, b, k) ==> d <= k
  }

  function Along(verifiedOnly: bool): Filter {
    Filter(Some({DEPENDS_ON}), Outward, verifiedOnly)
  }

  lemma DependencyIsLink(g: Graph, verifiedOnly: bool, a: Id, b: Id)
    ensures Link(g, Along(verifiedOnly), a, b)
       <==> exists id :: IsDependency(g, verifiedOnly, id) && g.edges[id].fromId == a && g.edges[id].toId == b
  {
    var f := Along(verifiedOnly);
    if Link(g, f, a, b) {
      var id :| id in g.edges && Passes(f, g.edges[id]) && Tail(f, g.edges[id]) == a && Head(f, g.edges[id]) == b;
      assert g.edges[id].edgeType in {DEPENDS_ON};
      assert IsDependency(g, verifiedOnly, id);
    }
    if id :| IsDependency(g, verifiedOnly, id) && g.edges[id].fromId == a && g.edges[id].toId == b {
      assert Passes(f, g.edges[id]);
    }
  }

  lemma {:induction false} WalkIsChain(g: Graph, verifiedOnly: bool, a: Id, b: Id, k: nat)
    requires Walk(g, Along(verifiedOnly), a, b, k)
    ensures DependsThrough(g, verifiedOnly, a, b, k)
    decreases k
  {
    if k == 0 {
      assert Chain(g, verifiedOnly, [], a, b);
    } else {
      var m := LastLink(g, Along(verifiedOnly), a, b, k);
      WalkIsChain(g, verifiedOnly, a, m, k - 1);
      DependencyIsLink(g, verifiedOnly, m, b);
      var ids: seq<Id> :| |ids| == k - 1 && Chain(g, verifiedOnly, ids, a, m);
      var id :| IsDependency(g, verifiedOnly, id) && g.edges[id].fromId == m && g.edges[id].toId == b;
      LongerChain(g, verifiedOnly, ids, a, m, id);
    }
  }

  lemma LongerChain(g: Graph, verifiedOnly: bool, ids: seq<Id>, a: Id, m: Id, id: Id)
    requires Chain(g, verifiedOnly, ids, a, m) && IsDependency(g, verifiedOnly, id) && g.edges[id].fromId == m
    ensures Chain(g, verifiedOnly, ids + [id], a, g.edges[id].toId)
  {
  }

  lemma {:induction false} ChainIsWalk(g: Graph, verifiedOnly: bool, ids: seq<Id>, a: Id, b: Id)
    requires Chain(g, verifiedOnly, ids, a, b)
    ensures Walk(g, Along(verifiedOnly), a, b, |ids|)
  {
    if ids != [] {
      var last := |ids| - 1;
      var m := g.edges[ids[last]].fromId;
      assert Chain(g, verifiedOnly, ids[..last], a, m);
      ChainIsWalk(g, verifiedOnly, ids[..last], a, m);
      assert IsDependency(g, verifiedOnly, ids[last]);
      DependencyIsLink(g, verifiedOnly, m, b);
    }
  }

  /** Walks along dependencies are chains, and walks against them are chains read backwards. */
  lemma WalksAreChains(g: Graph, verifiedOnly: bool, a: Id, b: Id, k: nat)
    ensures Walk(g, Along(verifiedOnly), a, b, k) <==> DependsThrough(g, verifiedOnly, a, b, k)
    ensures Walk(g, Reverse(Along(verifiedOnly)), b, a, k) <==> DependsThrough(g, verifiedOnly, a, b, k)
  {
    var f := Along(verifiedOnly);
    assert Reverse(Reverse(f)) == f;
    if Walk(g, f, a, b, k) {
      WalkIsChain(g, verifiedOnly, a, b, k);
      WalkReverse(g, f, a, b, k);
    }
    if Walk(g, Reverse(f), b, a, k) {
      WalkReverse(g, Reverse(f), b, a, k);
      WalkIsChain(g, verifiedOnly, a, b, k);
    }
    if DependsThrough(g, verifiedOnly, a, b, k) {
      var ids: seq<Id> :| |ids| == k && Chain(g, verifiedOnly, ids, a, b);
      ChainIsWalk(g, verifiedOnly, ids, a, b);
      WalkReverse(g, f, a, b, k);
    }
  }

  lemma DistancesAreDepths(g: Graph, verifiedOnly: bool, a: Id, b: Id, d: nat)
    ensures IsDistance(g, Along(verifiedOnly), {a}, b, d) <==> DependsAtDepth(g, verifiedOnly, a, b, d)
    ensures IsDistance(g, Reverse(Along(verifiedOnly)), {b}, a, d) <==> DependsAtDepth(g, verifiedOnly, a, b, d)
  {
    var f := Along(verifiedOnly);
    forall k: nat
      ensures FromAny(g, f, {a}, b, k) <==> DependsThrough(g, verifiedOnly, a, b, k)
      ensures FromAny(g, Reverse(f), {b}, a, k) <==> DependsThrough(g, verifiedOnly, a, b, k)
    {
      WalksAreChains(g, verifiedOnly, a, b, k);
      assert a in {a} && b in {b};
    }
  }

  /** One stored dependency of `a` on another node puts that node at depth one. */
  lemma OneDependency(g: Graph, verifiedOnly: bool, id: Id)
    requires id in g.edges && g.edges[id].edgeType == DEPENDS_ON && g.edges[id].fromId != g.edges[id].toId
    requires verifiedOnly ==> !g.edges[id].aiInferred
    ensures DependsAtDepth(g, verifiedOnly, g.edges[id].fromId, g.edges[id].toId, 1)
  {
    assert Chain(g, verifiedOnly, [id], g.edges[id].fromId, g.edges[id].toId);
    forall k: nat | DependsThrough(g, verifiedOnly, g.edges[id].fromId, g.edges[id].toId, k) ensures 1 <= k {
      var ids: seq<Id> :| |ids| == k && Chain(g, verifiedOnly, ids, g.edges[id].fromId, g.edges[id].toId);
      assert ids != [];
    }
  }

  /** Why an edge is refused: an unknown end, the first one first; an illegal triple; or a chain back from its end to its start. */
  lemma RefusalMeaning(g: Graph, e: Edge)
    ensures e.fromId !in g.nodes ==> EdgeRefusal(g, e) == Some(UnknownNode(e.fromId))
    ensures e.fromId in g.nodes && e.toId !in g.nodes ==> EdgeRefusal(g, e) == Some(UnknownNode(e.toId))
    ensures e.fromId in g.nodes && e.toId in g.nodes ==>
              var legal := IsEdgeAllowed(e.edgeType, g.nodes[e.fromId].nodeType, g.nodes[e.toId].nodeType);
              var closes := e.edgeType == DEPENDS_ON && exists k: nat :: DependsThrough(g, false, e.toId, e.fromId, k);
              EdgeRefusal(g, e) == if !legal then Some(InvalidEdge) else if closes then Some(DependencyCycle) else None
  {
    OnlyDependenciesAreAcyclic(e.edgeType);
    if e.edgeType == DEPENDS_ON {
      assert OfType(DEPENDS_ON) == Along(false);
      forall k: nat ensures Walk(g, OfType(DEPENDS_ON), e.toId, e.fromId, k) <==> DependsThrough(g, false, e.toId, e.fromId, k) {
        WalksAreChains(g, false, e.toId, e.fromId, k);
      }
    }
  }
}
