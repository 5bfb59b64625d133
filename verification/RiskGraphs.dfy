/**
 The in-memory risk graph (`packages/domain/src/graph.ts`): nodes and edges with insertion-ordered
 outgoing and incoming indexes, the cycle check, and the one traversal behind every query.
 */
module RiskGraphs {
  import opened Prelude
  import opened Ontology
  import opened GraphModel
  import opened Distances

  // ---------------------------------------------------------------- the indexes

  /** The end of an edge under which an index of the given direction lists it. */
  function End(d: Direction, e: Edge): Id {
    if d == Outward then e.fromId else e.toId
  }

  /** Every node has an entry, and an edge is listed in the entry of its end exactly when it is stored. */
  ghost predicate Indexed(index: map<Id, seq<Id>>, nodes: set<Id>, edges: map<Id, Edge>, d: Direction) {
    && index.Keys == nodes
    && forall n, id :: n in nodes ==> (id in index[n] <==> id in edges && End(d, edges[id]) == n)
  }

  /** JavaScript's `Set.add` on an insertion-ordered list. */
  function AddToSet(ids: seq<Id>, id: Id): (r: seq<Id>)
    ensures forall x :: x in r <==> x in ids || x == id
  {
    if id in ids then ids else ids + [id]
  }

  /** Indexing an edge is exact unless its id is re-used for an edge with another end: the old entry would stay behind. */
  lemma AddToIndex(index: map<Id, seq<Id>>, nodes: set<Id>, edges: map<Id, Edge>, d: Direction, e: Edge)
    requires Indexed(index, nodes, edges, d) && End(d, e) in nodes
    requires e.id in edges ==> End(d, edges[e.id]) in nodes
    ensures Indexed(index[End(d, e) := AddToSet(index[End(d, e)], e.id)], nodes, edges[e.id := e], d)
       <==> (e.id !in edges || End(d, edges[e.id]) == End(d, e))
  {
    var after, edges' := index[End(d, e) := AddToSet(index[End(d, e)], e.id)], edges[e.id := e];
    if e.id in edges && End(d, edges[e.id]) != End(d, e) {
      var stale := End(d, edges[e.id]);
      assert stale in nodes && e.id in after[stale] && edges'[e.id] == e;
    } else {
      forall n, id | n in nodes ensures id in after[n] <==> id in edges' && End(d, edges'[id]) == n {
        assert id in index[n] <==> id in edges && End(d, edges[id]) == n;
      }
    }
  }

  lemma AddEntry(index: map<Id, seq<Id>>, nodes: set<Id>, edges: map<Id, Edge>, d: Direction, n: Id)
    requires Indexed(index, nodes, edges, d)
    requires forall id :: id in edges ==> End(d, edges[id]) in nodes
    ensures Indexed(if n in index then index else index[n := []], nodes + {n}, edges, d)
  {
  }

  /** Edges are stored under their own ids and join known nodes. */
  ghost predicate Connected(g: Graph) {
    forall id :: id in g.edges ==> g.edges[id].id == id && g.edges[id].fromId in g.nodes && g.edges[id].toId in g.nodes
  }

  /** Every stored edge is listed at its end; an entry may list more. */
  ghost predicate Lists(index: map<Id, seq<Id>>, nodes: set<Id>, edges: map<Id, Edge>, d: Direction) {
    && index.Keys == nodes
    && forall id :: id in edges ==> End(d, edges[id]) in nodes && id in index[End(d, edges[id])]
  }

  /** What re-used edge ids leave intact: the indexes list every stored edge, beside entries that have become stale. */
  ghost predicate CoversAs(g: Graph, outgoing: map<Id, seq<Id>>, incoming: map<Id, seq<Id>>) {
    Connected(g) && Lists(outgoing, g.nodes.Keys, g.edges, Outward) && Lists(incoming, g.nodes.Keys, g.edges, Inward)
  }

  lemma ListOneMore(index: map<Id, seq<Id>>, nodes: set<Id>, edges: map<Id, Edge>, d: Direction, e: Edge)
    requires Lists(index, nodes, edges, d) && End(d, e) in nodes
    ensures Lists(index[End(d, e) := AddToSet(index[End(d, e)], e.id)], nodes, edges[e.id := e], d)
  {
  }

  /** Whatever its id, storing an edge leaves every stored edge listed. */
  lemma StoreCovers(g: Graph, outgoing: map<Id, seq<Id>>, incoming: map<Id, seq<Id>>, e: Edge)
    requires CoversAs(g, outgoing, incoming) && e.fromId in g.nodes && e.toId in g.nodes
    ensures CoversAs(WithEdge(g, e), outgoing[e.fromId := AddToSet(outgoing[e.fromId], e.id)],
                     incoming[e.toId := AddToSet(incoming[e.toId], e.id)])
  {
    ListOneMore(outgoing, g.nodes.Keys, g.edges, Outward, e);
    ListOneMore(incoming, g.nodes.Keys, g.edges, Inward, e);
  }

  ghost predicate CoherentAs(g: Graph, outgoing: map<Id, seq<Id>>, incoming: map<Id, seq<Id>>) {
    Connected(g) && Indexed(outgoing, g.nodes.Keys, g.edges, Outward) && Indexed(incoming, g.nodes.Keys, g.edges, Inward)
  }

  lemma StoreIsCoherent(g: Graph, outgoing: map<Id, seq<Id>>, incoming: map<Id, seq<Id>>, e: Edge)
    requires CoherentAs(g, outgoing, incoming) && e.fromId in g.nodes && e.toId in g.nodes
    ensures CoherentAs(WithEdge(g, e), outgoing[e.fromId := AddToSet(outgoing[e.fromId], e.id)],
                       incoming[e.toId := AddToSet(incoming[e.toId], e.id)])
       <==> SameEnds(g.edges, e)
  {
    AddToIndex(outgoing, g.nodes.Keys, g.edges, Outward, e);
    AddToIndex(incoming, g.nodes.Keys, g.edges, Inward, e);
    assert Connected(WithEdge(g, e));
  }

  /** Both at once, for the one write. */
  lemma StoreEffect(g: Graph, outgoing: map<Id, seq<Id>>, incoming: map<Id, seq<Id>>, e: Edge)
    requires CoversAs(g, outgoing, incoming) && e.fromId in g.nodes && e.toId in g.nodes
    ensures var outgoing' := outgoing[e.fromId := AddToSet(outgoing[e.fromId], e.id)];
            var incoming' := incoming[e.toId := AddToSet(incoming[e.toId], e.id)];
            && CoversAs(WithEdge(g, e), outgoing', incoming')
            && (CoherentAs(g, outgoing, incoming) ==> (CoherentAs(WithEdge(g, e), outgoing', incoming') <==> SameEnds(g.edges, e)))
  {
    StoreCovers(g, outgoing, incoming, e);
    if CoherentAs(g, outgoing, incoming) {
      StoreIsCoherent(g, outgoing, incoming, e);
    }
  }

  /** Entries for a node, new or not, leave the indexes as good as they were. */
  lemma EntriesEffect(g: Graph, outgoing: map<Id, seq<Id>>, incoming: map<Id, seq<Id>>, node: Node)
    requires CoversAs(g, outgoing, incoming)
    ensures var h := GraphStep(g, GraphCommand.AddNode(node));
            var outgoing' := if node.id in outgoing then outgoing else outgoing[node.id := []];
            var incoming' := if node.id in incoming then incoming else incoming[node.id := []];
            && CoversAs(h, outgoing', incoming') && (CoherentAs(g, outgoing, incoming) ==> CoherentAs(h, outgoing', incoming'))
  {
    var h := GraphStep(g, GraphCommand.AddNode(node));
    assert h.nodes.Keys == g.nodes.Keys + {node.id};
    if CoherentAs(g, outgoing, incoming) {
      AddEntry(outgoing, g.nodes.Keys, g.edges, Outward, node.id);
      AddEntry(incoming, g.nodes.Keys, g.edges, Inward, node.id);
    }
  }

  /** The id is new, or already names an edge between the same two nodes. */
  predicate SameEnds(edges: map<Id, Edge>, e: Edge) {
    e.id in edges ==> edges[e.id].fromId == e.fromId && edges[e.id].toId == e.toId
  }

  /** The listed edges are exactly those the filter's direction leads along from `n`. */
  ghost predicate EdgesAt(g: Graph, n: Id, d: Direction, edgeType: Option<EdgeType>, es: seq<Edge>) {
    forall e :: e in es <==>
      e.id in g.edges && e == g.edges[e.id] && End(d, e) == n && (edgeType.Some? ==> e.edgeType == edgeType.value)
  }

  /** The listed edges are exactly the stored ones an index entry names, of the wanted type. */
  ghost predicate Resolves(g: Graph, ids: seq<Id>, edgeType: Option<EdgeType>, es: seq<Edge>) {
    forall e :: e in es <==>
      exists id :: id in ids && id in g.edges && e == g.edges[id] && (edgeType.Some? ==> e.edgeType == edgeType.value)
  }

  // ---------------------------------------------------------------- the links the indexes list

  /** From an index entry to the end of an edge it names, stale entries included. */
  function IndexedLinks(g: Graph, outgoing: map<Id, seq<Id>>, edgeType: EdgeType): set<(Id, Id)> {
    set a, id | a in outgoing && id in outgoing[a] && id in g.edges && g.edges[id].edgeType == edgeType :: (a, g.edges[id].toId)
  }

  ghost predicate Path(links: set<(Id, Id)>, a: Id, b: Id, k: nat)
    decreases k
  {
    if k == 0 then a == b else exists m :: Path(links, a, m, k - 1) && (m, b) in links
  }

  ghost predicate Connects(links: set<(Id, Id)>, a: Id, b: Id) {
    exists k: nat :: Path(links, a, b, k)
  }

  lemma IsListed(g: Graph, outgoing: map<Id, seq<Id>>, a: Id, id: Id)
    requires a in outgoing && id in outgoing[a] && id in g.edges
    ensures (a, g.edges[id].toId) in IndexedLinks(g, outgoing, g.edges[id].edgeType)
  {
  }

  /** Indexes that miss no edge list every link; coherent ones list no other. */
  lemma LinksAreIndexed(g: Graph, outgoing: map<Id, seq<Id>>, edgeType: EdgeType, a: Id, b: Id)
    requires Connected(g) && Lists(outgoing, g.nodes.Keys, g.edges, Outward)
    ensures Link(g, OfType(edgeType), a, b) ==> (a, b) in IndexedLinks(g, outgoing, edgeType)
    ensures Indexed(outgoing, g.nodes.Keys, g.edges, Outward) && (a, b) in IndexedLinks(g, outgoing, edgeType) ==>
              Link(g, OfType(edgeType), a, b)
  {
    var f := OfType(edgeType);
    if Link(g, f, a, b) {
      var id :| id in g.edges && Passes(f, g.edges[id]) && Tail(f, g.edges[id]) == a && Head(f, g.edges[id]) == b;
      assert g.edges[id].edgeType in {edgeType};
      assert id in outgoing[a];
    }
    if (a, b) in IndexedLinks(g, outgoing, edgeType) {
      var id :| id in outgoing[a] && id in g.edges && g.edges[id].edgeType == edgeType && g.edges[id].toId == b;
      assert Passes(f, g.edges[id]);
    }
  }

  lemma {:induction false} WalkIsPath(g: Graph, f: Filter, links: set<(Id, Id)>, a: Id, b: Id, k: nat)
    requires forall x, y :: Link(g, f, x, y) ==> (x, y) in links
    requires Walk(g, f, a, b, k)
    ensures Path(links, a, b, k)
    decreases k
  {
    if k > 0 {
      var m := LastLink(g, f, a, b, k);
      WalkIsPath(g, f, links, a, m, k - 1);
    }
  }

  lemma {:induction false} PathIsWalk(g: Graph, f: Filter, links: set<(Id, Id)>, a: Id, b: Id, k: nat)
    requires forall x, y :: (x, y) in links ==> Link(g, f, x, y)
    requires Path(links, a, b, k)
    ensures Walk(g, f, a, b, k)
    decreases k
  {
    if k > 0 {
      var m :| Path(links, a, m, k - 1) && (m, b) in links;
      PathIsWalk(g, f, links, a, m, k - 1);
    }
  }

  /** What the indexes connect includes what is reachable, and is nothing else while they are coherent. */
  lemma ReachableIsConnected(g: Graph, outgoing: map<Id, seq<Id>>, edgeType: EdgeType, a: Id, b: Id)
    requires Connected(g) && Lists(outgoing, g.nodes.Keys, g.edges, Outward)
    ensures Reachable(g, OfType(edgeType), a, b) ==> Connects(IndexedLinks(g, outgoing, edgeType), a, b)
    ensures Indexed(outgoing, g.nodes.Keys, g.edges, Outward) && Connects(IndexedLinks(g, outgoing, edgeType), a, b) ==>
              Reachable(g, OfType(edgeType), a, b)
  {
    var f, links := OfType(edgeType), IndexedLinks(g, outgoing, edgeType);
    forall x, y ensures Link(g, f, x, y) ==> (x, y) in links {
      LinksAreIndexed(g, outgoing, edgeType, x, y);
    }
    if Reachable(g, f, a, b) {
      var k: nat :| Walk(g, f, a, b, k);
      WalkIsPath(g, f, links, a, b, k);
    }
    if Indexed(outgoing, g.nodes.Keys, g.edges, Outward) && Connects(links, a, b) {
      forall x, y ensures (x, y) in links ==> Link(g, f, x, y) {
        LinksAreIndexed(g, outgoing, edgeType, x, y);
      }
      var k: nat :| Path(links, a, b, k);
      PathIsWalk(g, f, links, a, b, k);
    }
  }

  /** Why `addEdge` refuses an edge, if it does, whatever the state of the indexes. */
  ghost function IndexedRefusal(g: Graph, outgoing: map<Id, seq<Id>>, e: Edge): Option<GraphError> {
    if e.fromId !in g.nodes then Some(UnknownNode(e.fromId))
    else if e.toId !in g.nodes then Some(UnknownNode(e.toId))
    else if !IsEdgeAllowed(e.edgeType, g.nodes[e.fromId].nodeType, g.nodes[e.toId].nodeType) then Some(InvalidEdge)
    else if IsAcyclicEdgeType(e.edgeType) && Connects(IndexedLinks(g, outgoing, e.edgeType), e.toId, e.fromId)
    then Some(DependencyCycle)
    else None
  }

  /** It lets nothing through that the graph refuses, and refuses nothing more while the indexes are coherent. */
  lemma RefusalByIndexes(g: Graph, outgoing: map<Id, seq<Id>>, e: Edge)
    requires Connected(g) && Lists(outgoing, g.nodes.Keys, g.edges, Outward)
    ensures IndexedRefusal(g, outgoing, e).None? ==> EdgeRefusal(g, e).None?
    ensures Indexed(outgoing, g.nodes.Keys, g.edges, Outward) ==> IndexedRefusal(g, outgoing, e) == EdgeRefusal(g, e)
  {
    ReachableIsConnected(g, outgoing, e.edgeType, e.toId, e.fromId);
  }

  /**
   Stale entries make it refuse too much. The id x, first used for a dependency of a on b and then for one of
   c on b, is still in a's entry; an edge from b to a is refused although nothing leads from a to b.
   */
  lemma StaleEntryRefuses(g: Graph, outgoing: map<Id, seq<Id>>, a: Id, b: Id, c: Id, x: Id, y: Id)
    requires a != b && b != c && a != c && x != y
    requires g.nodes.Keys == {a, b, c} && forall n :: n in g.nodes ==> g.nodes[n].nodeType == ASSET
    requires g.edges == map[][x := Edge(x, DEPENDS_ON, a, b, false)][x := Edge(x, DEPENDS_ON, c, b, false)]
    requires var empty := map[a := [], b := [], c := []];
             var once := empty[a := AddToSet(empty[a], x)];
             outgoing == once[c := AddToSet(once[c], x)]
    ensures var edge := Edge(y, DEPENDS_ON, b, a, false);
            IndexedRefusal(g, outgoing, edge) == Some(DependencyCycle) && EdgeRefusal(g, edge).None?
  {
    var edge, links := Edge(y, DEPENDS_ON, b, a, false), IndexedLinks(g, outgoing, DEPENDS_ON);
    OnlyDependenciesAreAcyclic(DEPENDS_ON);
    assert EDGE_RULES[1].edgeType == DEPENDS_ON && IsEdgeAllowed(DEPENDS_ON, ASSET, ASSET);
    IsListed(g, outgoing, a, x);
    assert Path(links, a, a, 0);
    assert Path(links, a, b, 1);
    forall k: nat ensures !Walk(g, DEPENDENCIES, a, b, k) {
      NothingLeaves(g, DEPENDENCIES, a, b, k);
    }
  }

  lemma {:induction false} NothingLeaves(g: Graph, f: Filter, a: Id, b: Id, k: nat)
    requires a != b && forall m :: !Link(g, f, a, m)
    ensures !Walk(g, f, a, b, k)
    ensures k > 0 ==> forall m :: !Walk(g, f, a, m, k)
    decreases k
  {
    if k > 0 {
      NothingLeaves(g, f, a, b, k - 1);
    }
  }

  // ---------------------------------------------------------------- the cycle search

  /** Everything seen is connected; what is not waiting in the queue has had all its links followed. */
  ghost predicate Searching(links: set<(Id, Id)>, from: Id, to: Id, seen: set<Id>, queue: seq<Id>, done: set<Id>) {
    && from in seen && to !in done
    && (forall n :: n in seen <==> n in done || n in queue)
    && (forall n :: n in seen ==> Connects(links, from, n))
    && (forall a, b :: a in done && (a, b) in links ==> b in seen)
  }

  lemma LinkConnects(links: set<(Id, Id)>, from: Id, a: Id, b: Id)
    requires Connects(links, from, a) && (a, b) in links
    ensures Connects(links, from, b)
  {
    var k: nat :| Path(links, from, a, k);
    assert Path(links, from, b, k + 1);
  }

  /** Following every link out of the front of the queue keeps the search sound. */
  lemma SearchStep(links: set<(Id, Id)>, from: Id, to: Id, seen: set<Id>, queue: seq<Id>, done: set<Id>,
                   seen': set<Id>, queue': seq<Id>)
    requires queue != [] && Searching(links, from, to, seen, queue, done) && queue[0] != to
    requires forall b :: b in seen' <==> b in seen || (queue[0], b) in links
    requires forall n :: n in queue' <==> n in queue[1..] || (n in seen' && n !in seen)
    ensures Searching(links, from, to, seen', queue', done + {queue[0]})
  {
    var current := queue[0];
    assert queue == [current] + queue[1..];
    assert current in seen;
    forall n | n in seen' ensures Connects(links, from, n) {
      if n !in seen {
        LinkConnects(links, from, current, n);
      }
    }
  }

  lemma {:induction false} ClosedUnderLinks(links: set<(Id, Id)>, seen: set<Id>, a: Id, b: Id, k: nat)
    requires forall x, y :: x in seen && (x, y) in links ==> y in seen
    requires a in seen && Path(links, a, b, k)
    ensures b in seen
    decreases k
  {
    if k > 0 {
      var m :| Path(links, a, m, k - 1) && (m, b) in links;
      ClosedUnderLinks(links, seen, a, m, k - 1);
    }
  }

  /** An empty queue means everything connected has been seen. */
  lemma SearchComplete(links: set<(Id, Id)>, from: Id, to: Id, seen: set<Id>, done: set<Id>)
    requires Searching(links, from, to, seen, [], done)
    ensures !Connects(links, from, to)
  {
    forall k: nat | Path(links, from, to, k) ensures to in seen {
      ClosedUnderLinks(links, seen, from, to, k);
    }
  }

  /** The ends of the edges an entry names are the links the indexes list from it. */
  lemma ResolvedLinks(g: Graph, outgoing: map<Id, seq<Id>>, edgeType: EdgeType, a: Id, es: seq<Edge>)
    requires a in outgoing && Resolves(g, outgoing[a], Some(edgeType), es)
    ensures forall b :: (a, b) in IndexedLinks(g, outgoing, edgeType) <==> exists e :: e in es && e.toId == b
  {
    forall b | (a, b) in IndexedLinks(g, outgoing, edgeType) ensures exists e :: e in es && e.toId == b {
      var id :| id in outgoing[a] && id in g.edges && g.edges[id].edgeType == edgeType && g.edges[id].toId == b;
      assert g.edges[id] in es;
    }
  }

  lemma EdgesAreLinks(g: Graph, f: Filter, n: Id, es: seq<Edge>, edgeType: Option<EdgeType>)
    requires Connected(g) && EdgesAt(g, n, f.direction, edgeType, es)
    requires edgeType.Some? ==> f.edgeTypes == Some({edgeType.value})
    ensures forall b :: Link(g, f, n, b) <==> exists e :: e in es && Passes(f, e) && Head(f, e) == b
  {
    forall b | Link(g, f, n, b) ensures exists e :: e in es && Passes(f, e) && Head(f, e) == b {
      var id :| id in g.edges && Passes(f, g.edges[id]) && Tail(f, g.edges[id]) == n && Head(f, g.edges[id]) == b;
      if edgeType.Some? {
        assert g.edges[id].edgeType in {edgeType.value};
      }
      EdgeIsListed(g, n, f.direction, edgeType, es, id);
    }
  }

  lemma EdgeIsListed(g: Graph, n: Id, d: Direction, edgeType: Option<EdgeType>, es: seq<Edge>, id: Id)
    requires EdgesAt(g, n, d, edgeType, es)
    requires id in g.edges && g.edges[id].id == id && End(d, g.edges[id]) == n
    requires edgeType.Some? ==> g.edges[id].edgeType == edgeType.value
    ensures g.edges[id] in es
  {
  }

  /** Adds the unseen ends of the given edges to both the seen set and the queue. */
  method EnqueueUnseen(edges: seq<Edge>, seen: set<Id>, queue: seq<Id>) returns (seen': set<Id>, queue': seq<Id>)
    ensures seen <= seen'
    ensures forall b :: b in seen' <==> b in seen || exists e :: e in edges && e.toId == b
    ensures forall n :: n in queue' <==> n in queue || (n in seen' && n !in seen)
    ensures seen' == seen ==> queue' == queue
  {
    seen', queue' := seen, queue;
    for i := 0 to |edges|
      invariant seen <= seen'
      invariant forall b :: b in seen' <==> b in seen || exists e :: e in edges[..i] && e.toId == b
      invariant forall n :: n in queue' <==> n in queue || (n in seen' && n !in seen)
      invariant seen' == seen ==> queue' == queue
    {
      assert edges[..i + 1] == edges[..i] + [edges[i]];
      if edges[i].toId !in seen' {
        seen' := seen' + {edges[i].toId};
        queue' := queue' + [edges[i].toId];
      }
    }
    assert edges[..|edges|] == edges;
  }

  // ---------------------------------------------------------------- the traversal

  /** A negative depth bound behaves as zero: the starting nodes are always included. */
  function Bound(maxDepth: int): nat {
    if maxDepth < 0 then 0 else maxDepth
  }

  /** A walk of no links, or of at most `maxDepth`, leads from one of the listed starts to `n`. */
  ghost predicate InReach(g: Graph, f: Filter, startIds: seq<Id>, maxDepth: int, n: Id) {
    exists s, k: nat :: s in startIds && (k == 0 || k <= maxDepth) && Walk(g, f, s, n, k)
  }

  /** `d` is the length of a shortest walk from the listed starts to `n`. */
  ghost predicate ShortestWalk(g: Graph, f: Filter, startIds: seq<Id>, n: Id, d: nat) {
    && (exists s :: s in startIds && Walk(g, f, s, n, d))
    && (forall s, k: nat :: s in startIds && Walk(g, f, s, n, k) ==> d <= k)
  }

  /** Distances within the bound, in terms of walks from the listed starts. */
  lemma DistancesInWalks(g: Graph, f: Filter, startIds: seq<Id>, maxDepth: int, m: map<Id, nat>, n: Id)
    requires IsDistanceMap(g, f, (set s | s in startIds), Bound(maxDepth), m)
    ensures n in m <==> InReach(g, f, startIds, maxDepth, n)
    ensures n in m ==> ShortestWalk(g, f, startIds, n, m[n])
  {
    var starts := set s | s in startIds;
    if n in m {
      assert FromAny(g, f, starts, n, m[n]);
      var s :| s in starts && Walk(g, f, s, n, m[n]);
    }
    forall s, k: nat | s in startIds && Walk(g, f, s, n, k)
      ensures k == 0 || k <= maxDepth ==> n in m
      ensures n in m ==> m[n] <= k
    {
      assert s in starts && FromAny(g, f, starts, n, k);
    }
  }

  /** Within one level, depths only grow, by nodes at exactly this depth, which are queued for the next level. */
  ghost predicate LevelSoFar(g: Graph, f: Filter, starts: set<Id>, depths0: map<Id, nat>, depths: map<Id, nat>,
                             next: seq<Id>, depth: nat)
  {
    && depths.Keys <= g.nodes.Keys
    && (forall n :: n in depths0 ==> n in depths && depths[n] == depths0[n])
    && (forall n :: n in depths && n !in depths0 ==> depths[n] == depth)
    && (forall n :: n in next <==> n in depths && n !in depths0)
    && Witnessed(g, f, starts, depths)
  }

  /** The state of the traversal between levels. */
  ghost predicate LevelDone(g: Graph, f: Filter, starts: set<Id>, depths: map<Id, nat>, frontier: seq<Id>, depth: nat) {
    && depths.Keys <= g.nodes.Keys
    && (forall s :: s in starts ==> s in depths && depths[s] == 0)
    && (forall n :: n in depths ==> depths[n] <= depth)
    && (forall n :: n in frontier <==> n in depths && depths[n] == depth)
    && Witnessed(g, f, starts, depths) && Expanded(g, f, depths, depth)
  }

  lemma FollowLink(g: Graph, f: Filter, starts: set<Id>, a: Id, b: Id, k: nat)
    requires FromAny(g, f, starts, a, k) && Link(g, f, a, b)
    ensures FromAny(g, f, starts, b, k + 1)
  {
    var s :| s in starts && Walk(g, f, s, a, k);
    assert Walk(g, f, s, b, k + 1);
  }

  /** An admissible edge out of a frontier node is a link, so its other end is one level deeper. */
  lemma EdgeGoesDeeper(g: Graph, f: Filter, starts: set<Id>, e: Edge, k: nat)
    requires Connected(g) && e.id in g.edges && e == g.edges[e.id] && Passes(f, e)
    requires FromAny(g, f, starts, Tail(f, e), k)
    ensures FromAny(g, f, starts, Head(f, e), k + 1) && Head(f, e) in g.nodes
  {
    assert Link(g, f, Tail(f, e), Head(f, e));
    FollowLink(g, f, starts, Tail(f, e), Head(f, e), k);
  }

  /** Giving a new node this depth keeps the level sound. */
  lemma VisitNode(g: Graph, f: Filter, starts: set<Id>, depths0: map<Id, nat>, depths: map<Id, nat>, next: seq<Id>,
                  n: Id, depth: nat)
    requires LevelSoFar(g, f, starts, depths0, depths, next, depth)
    requires n !in depths && n in g.nodes && FromAny(g, f, starts, n, depth)
    ensures LevelSoFar(g, f, starts, depths0, depths[n := depth], next + [n], depth)
  {
  }

  /** The inner loop: follows the admissible ones among the edges of one frontier node. */
  method FollowEdges(ghost g: Graph, f: Filter, ghost starts: set<Id>, ghost depths0: map<Id, nat>, depths1: map<Id, nat>,
                     next1: seq<Id>, ghost nodeId: Id, es: seq<Edge>, depth: nat)
    returns (depths: map<Id, nat>, next: seq<Id>)
    requires Connected(g) && EdgesAt(g, nodeId, f.direction, None, es)
    requires 1 <= depth && nodeId in depths0 && depths0[nodeId] == depth - 1
    requires LevelSoFar(g, f, starts, depths0, depths1, next1, depth)
    ensures LevelSoFar(g, f, starts, depths0, depths, next, depth)
    ensures depths1.Keys <= depths.Keys
    ensures forall e :: e in es && Passes(f, e) ==> Head(f, e) in depths
  {
    depths, next := depths1, next1;
    for i := 0 to |es|
      invariant LevelSoFar(g, f, starts, depths0, depths, next, depth)
      invariant depths1.Keys <= depths.Keys
      invariant forall e :: e in es[..i] && Passes(f, e) ==> Head(f, e) in depths
    {
      var e := es[i];
      assert es[..i + 1] == es[..i] + [e];
      assert e in es;
      if f.edgeTypes.Some? && e.edgeType !in f.edgeTypes.value {
        continue;
      }
      if f.verifiedOnly && e.aiInferred {
        continue;
      }
      var neighbour := if f.direction == Outward then e.toId else e.fromId;
      if neighbour !in depths {
        EdgeGoesDeeper(g, f, starts, e, depth - 1);
        VisitNode(g, f, starts, depths0, depths, next, neighbour, depth);
        depths := depths[neighbour := depth];
        next := next + [neighbour];
      }
    }
    assert es[..|es|] == es;
  }

  /** Once every frontier node has been expanded, the next level is complete. */
  lemma LevelComplete(g: Graph, f: Filter, starts: set<Id>, depths0: map<Id, nat>, frontier: seq<Id>,
                      depths: map<Id, nat>, next: seq<Id>, depth: nat)
    requires 1 <= depth && LevelDone(g, f, starts, depths0, frontier, depth - 1)
    requires LevelSoFar(g, f, starts, depths0, depths, next, depth)
    requires forall a, b :: a in frontier && Link(g, f, a, b) ==> b in depths
    ensures LevelDone(g, f, starts, depths, next, depth)
  {
    forall a, b | a in depths && depths[a] < depth && Link(g, f, a, b)
      ensures b in depths && depths[b] <= depths[a] + 1
    {
      assert a in depths0;
      if depths0[a] == depth - 1 {
        assert a in frontier;
      }
    }
  }

  /** The loop stops with the bound reached, or with nothing left to follow. */
  lemma LevelsFinished(g: Graph, f: Filter, starts: set<Id>, depths: map<Id, nat>, frontier: seq<Id>, depth: nat, maxDepth: int)
    requires 1 <= depth <= Bound(maxDepth) + 1 && LevelDone(g, f, starts, depths, frontier, depth - 1)
    requires maxDepth < depth || frontier == []
    ensures IsDistanceMap(g, f, starts, Bound(maxDepth), depths) && depths.Keys <= g.nodes.Keys
  {
    LevelsAreDistances(g, f, starts, depths, depth - 1, Bound(maxDepth));
  }

  lemma StartsAreLevelZero(g: Graph, f: Filter, startIds: seq<Id>, depths: map<Id, nat>, frontier: seq<Id>)
    requires forall n :: n in startIds ==> n in g.nodes
    requires forall n :: n in depths <==> n in startIds
    requires forall n :: n in depths ==> depths[n] == 0
    requires forall n :: n in frontier <==> n in depths
    ensures LevelDone(g, f, (set s | s in startIds), depths, frontier, 0)
  {
    forall n | n in depths ensures FromAny(g, f, (set s | s in startIds), n, 0) {
      assert Walk(g, f, n, n, 0);
    }
  }

  class RiskGraph {
    var nodes: map<Id, Node>
    var edges: map<Id, Edge>
    var outgoing: map<Id, seq<Id>>
    var incoming: map<Id, seq<Id>>

    function View(): Graph
      reads this
    {
      Graph(nodes, edges)
    }

    /** Edges join known nodes, and an edge is indexed at its two ends exactly when it is stored. */
    ghost predicate Coherent()
      reads this
    {
      CoherentAs(View(), outgoing, incoming)
    }

    /** What holds even after edge ids have been re-used: no stored edge is missing from the indexes. */
    ghost predicate Covers()
      reads this
    {
      CoversAs(View(), outgoing, incoming)
    }

    constructor ()
      ensures Coherent() && View() == EMPTY
    {
      nodes, edges, outgoing, incoming := map[], map[], map[], map[];
    }

    method AddNode(node: Node)
      requires Covers()
      modifies this
      ensures Covers() && (old(Coherent()) ==> Coherent())
      ensures View() == GraphStep(old(View()), GraphCommand.AddNode(node))
      ensures nodes == old(nodes)[node.id := node] && edges == old(edges)
    {
      EntriesEffect(View(), outgoing, incoming, node);
      nodes := nodes[node.id := node];
      if node.id !in outgoing {
        outgoing := outgoing[node.id := []];
      }
      if node.id !in incoming {
        incoming := incoming[node.id := []];
      }
    }

    /** The stored edges listed by an index entry, optionally of one type. */
    method Resolve(ids: seq<Id>, edgeType: Option<EdgeType>) returns (result: seq<Edge>)
      ensures Resolves(View(), ids, edgeType, result)
    {
      result := [];
      for i := 0 to |ids|
        invariant forall e :: e in result <==>
                    exists id :: id in ids[..i] && id in edges && e == edges[id] && (edgeType.Some? ==> e.edgeType == edgeType.value)
      {
        var id := ids[i];
        assert ids[..i + 1] == ids[..i] + [id];
        if id in edges && (edgeType.None? || edges[id].edgeType == edgeType.value) {
          result := result + [edges[id]];
        }
      }
      assert ids[..|ids|] == ids;
    }

    method EdgesFrom(nodeId: Id, edgeType: Option<EdgeType>) returns (result: seq<Edge>)
      ensures Resolves(View(), if nodeId in outgoing then outgoing[nodeId] else [], edgeType, result)
      ensures Coherent() ==> EdgesAt(View(), nodeId, Outward, edgeType, result)
    {
      if nodeId !in outgoing {
        return [];
      }
      result := Resolve(outgoing[nodeId], edgeType);
    }

    method EdgesTo(nodeId: Id, edgeType: Option<EdgeType>) returns (result: seq<Edge>)
      requires Coherent()
      ensures EdgesAt(View(), nodeId, Inward, edgeType, result)
    {
      if nodeId !in incoming {
        return [];
      }
      result := Resolve(incoming[nodeId], edgeType);
    }

    /** Breadth-first search over edges of one type: sound, complete and terminating for the links the indexes list. */
    method Reaches(from: Id, to: Id, edgeType: EdgeType) returns (found: bool)
      requires Covers() && from in nodes
      ensures found <==> Connects(IndexedLinks(View(), outgoing, edgeType), from, to)
      ensures Coherent() ==> (found <==> Reachable(View(), OfType(edgeType), from, to))
    {
      ghost var g, links := View(), IndexedLinks(View(), outgoing, edgeType);
      ReachableIsConnected(g, outgoing, edgeType, from, to);
      assert Connected(g);
      var seen, queue := {from}, [from];
      ghost var done := {};
      assert Path(links, from, from, 0);
      while queue != []
        invariant seen <= g.nodes.Keys
        invariant Searching(links, from, to, seen, queue, done)
        decreases g.nodes.Keys - seen, |queue|
      {
        if queue[0] == to {
          assert to in queue;
          return true;
        }
        seen, queue, done := VisitFront(from, to, edgeType, seen, queue, done);
      }
      SearchComplete(links, from, to, seen, done);
      return false;
    }

    /** One iteration of the search: the unseen ends of the edges leaving the front of the queue join it. */
    method VisitFront(ghost from: Id, ghost to: Id, edgeType: EdgeType, seen: set<Id>, queue: seq<Id>, ghost done: set<Id>)
      returns (seen': set<Id>, queue': seq<Id>, ghost done': set<Id>)
      requires Covers() && queue != [] && queue[0] != to && seen <= nodes.Keys
      requires Searching(IndexedLinks(View(), outgoing, edgeType), from, to, seen, queue, done)
      ensures Searching(IndexedLinks(View(), outgoing, edgeType), from, to, seen', queue', done')
      ensures seen <= seen' <= nodes.Keys && (seen' == seen ==> |queue'| < |queue|)
    {
      assert queue[0] in seen;
      var next := EdgesFrom(queue[0], Some(edgeType));
      ResolvedLinks(View(), outgoing, edgeType, queue[0], next);
      seen', queue' := EnqueueUnseen(next, seen, queue[1..]);
      SearchStep(IndexedLinks(View(), outgoing, edgeType), from, to, seen, queue, done, seen', queue');
      done' := done + {queue[0]};
    }

    /**
     Checks the ontology and, for acyclic types, the cycle rule; then stores and indexes the edge. Stale
     entries can make it refuse too much, but never let a cycle through.
     */
    method AddEdge(edge: Edge) returns (r: Result<(), GraphError>)
      requires Covers()
      modifies this
      ensures Covers()
      ensures r == match IndexedRefusal(old(View()), old(outgoing), edge) case Some(error) => Err(error) case None => Ok(())
      ensures View() == if r.Ok? then WithEdge(old(View()), edge) else old(View())
      ensures nodes == old(nodes) && edges == if r.Ok? then old(edges)[edge.id := edge] else old(edges)
      ensures Moves(old(View()), GraphCommand.AddEdge(edge), View())
      ensures old(Sound(View())) ==> Sound(View())
      ensures old(Coherent()) ==>
                && r == (match EdgeRefusal(old(View()), edge) case Some(error) => Err(error) case None => Ok(()))
                && (Coherent() <==> (r.Err? || SameEnds(old(edges), edge)))
    {
      RefusalByIndexes(View(), outgoing, edge);
      var refused := CheckEdge(edge);
      if refused.Some? {
        return Err(refused.value);
      }
      if Sound(View()) {
        AcceptedEdgeKeepsSound(View(), edge);
      }
      StoreEdge(edge);
      return Ok(());
    }

    /** The writes of `addEdge`. The indexes stay coherent exactly when no id is re-used between other ends. */
    method StoreEdge(edge: Edge)
      requires Covers() && edge.fromId in nodes && edge.toId in nodes
      modifies this
      ensures Covers() && View() == WithEdge(old(View()), edge)
      ensures outgoing == old(outgoing)[edge.fromId := AddToSet(old(outgoing)[edge.fromId], edge.id)]
      ensures incoming == old(incoming)[edge.toId := AddToSet(old(incoming)[edge.toId], edge.id)]
      ensures old(Coherent()) ==> (Coherent() <==> SameEnds(old(edges), edge))
    {
      StoreEffect(View(), outgoing, incoming, edge);
      edges := edges[edge.id := edge];
      outgoing := outgoing[edge.fromId := AddToSet(outgoing[edge.fromId], edge.id)];
      incoming := incoming[edge.toId := AddToSet(incoming[edge.toId], edge.id)];
    }

    /** The checks that precede the write in `addEdge`. */
    method CheckEdge(edge: Edge) returns (refused: Option<GraphError>)
      requires Covers()
      ensures refused == IndexedRefusal(View(), outgoing, edge)
    {
      if edge.fromId !in nodes {
        return Some(UnknownNode(edge.fromId));
      }
      if edge.toId !in nodes {
        return Some(UnknownNode(edge.toId));
      }
      if !IsEdgeAllowed(edge.edgeType, nodes[edge.fromId].nodeType, nodes[edge.toId].nodeType) {
        return Some(InvalidEdge);
      }
      if edge.fromId == edge.toId && IsAcyclicEdgeType(edge.edgeType) {
        assert Path(IndexedLinks(View(), outgoing, edge.edgeType), edge.toId, edge.fromId, 0);
        return Some(DependencyCycle);
      }
      if IsAcyclicEdgeType(edge.edgeType) {
        var cycle := Reaches(edge.toId, edge.fromId, edge.edgeType);
        if cycle {
          return Some(DependencyCycle);
        }
      }
      return None;
    }

    /** Depth-bounded breadth-first traversal: exactly the nodes within the bound, each at its distance. */
    method Traverse(startIds: seq<Id>, f: Filter, maxDepth: int) returns (r: Result<map<Id, nat>, GraphError>)
      requires Coherent()
      ensures r.Ok? <==> forall i :: 0 <= i < |startIds| ==> startIds[i] in nodes
      ensures r.Ok? ==> forall n :: n in r.value <==> InReach(View(), f, startIds, maxDepth, n)
      ensures r.Ok? ==> forall n :: n in r.value ==> ShortestWalk(View(), f, startIds, n, r.value[n])
      ensures r.Ok? ==> IsDistanceMap(View(), f, (set s | s in startIds), Bound(maxDepth), r.value)
      ensures r.Ok? ==> r.value.Keys <= nodes.Keys
      ensures r.Err? ==> r.error.UnknownNode? && r.error.id in startIds && r.error.id !in nodes
    {
      var started := PlaceStarts(startIds, f);
      if started.Err? {
        return Err(started.error);
      }
      var depths := ExpandLevels((set s | s in startIds), f, started.value.0, started.value.1, maxDepth);
      forall n
        ensures n in depths <==> InReach(View(), f, startIds, maxDepth, n)
        ensures n in depths ==> ShortestWalk(View(), f, startIds, n, depths[n])
      {
        DistancesInWalks(View(), f, startIds, maxDepth, depths, n);
      }
      return Ok(depths);
    }

    /** The level-by-level loop of `traverse`, from the starts at depth 0. */
    method ExpandLevels(ghost starts: set<Id>, f: Filter, depths0: map<Id, nat>, frontier0: seq<Id>, maxDepth: int)
      returns (depths: map<Id, nat>)
      requires Coherent() && LevelDone(View(), f, starts, depths0, frontier0, 0)
      ensures IsDistanceMap(View(), f, starts, Bound(maxDepth), depths) && depths.Keys <= nodes.Keys
    {
      var frontier, depth: nat := frontier0, 1;
      depths := depths0;
      while depth <= maxDepth && frontier != []
        invariant 1 <= depth <= Bound(maxDepth) + 1
        invariant LevelDone(View(), f, starts, depths, frontier, depth - 1)
        decreases maxDepth - depth
      {
        depths, frontier := ExpandLevel(starts, f, depths, frontier, depth);
        depth := depth + 1;
      }
      LevelsFinished(View(), f, starts, depths, frontier, depth, maxDepth);
    }

    /** The first loop of `traverse`: every start must exist, and is at depth 0. */
    method PlaceStarts(startIds: seq<Id>, ghost f: Filter) returns (r: Result<(map<Id, nat>, seq<Id>), GraphError>)
      ensures r.Ok? <==> forall i :: 0 <= i < |startIds| ==> startIds[i] in nodes
      ensures r.Ok? ==> LevelDone(View(), f, (set s | s in startIds), r.value.0, r.value.1, 0)
      ensures r.Err? ==> r.error.UnknownNode? && r.error.id in startIds && r.error.id !in nodes
    {
      var depths: map<Id, nat>, frontier: seq<Id> := map[], [];
      for i := 0 to |startIds|
        invariant forall k :: 0 <= k < i ==> startIds[k] in nodes
        invariant forall n :: n in depths <==> n in startIds[..i]
        invariant forall n :: n in depths ==> depths[n] == 0
        invariant forall n :: n in frontier <==> n in depths
      {
        var id := startIds[i];
        assert startIds[..i + 1] == startIds[..i] + [id];
        if id !in nodes {
          return Err(UnknownNode(id));
        }
        if id !in depths {
          depths := depths[id := 0];
          frontier := frontier + [id];
        }
      }
      assert startIds[..|startIds|] == startIds;
      StartsAreLevelZero(View(), f, startIds, depths, frontier);
      return Ok((depths, frontier));
    }

    /** One level of the traversal: follows every admissible edge out of the frontier. */
    method ExpandLevel(ghost starts: set<Id>, f: Filter, depths0: map<Id, nat>, frontier: seq<Id>, depth: nat)
      returns (depths: map<Id, nat>, next: seq<Id>)
      requires Coherent() && 1 <= depth && LevelDone(View(), f, starts, depths0, frontier, depth - 1)
      ensures LevelDone(View(), f, starts, depths, next, depth)
    {
      ghost var g := View();
      depths, next := depths0, [];
      for i := 0 to |frontier|
        invariant LevelSoFar(g, f, starts, depths0, depths, next, depth)
        invariant forall a, b :: a in frontier[..i] && Link(g, f, a, b) ==> b in depths
      {
        var nodeId := frontier[i];
        assert frontier[..i + 1] == frontier[..i] + [nodeId];
        assert nodeId in frontier;
        var es;
        if f.direction == Outward {
          es := EdgesFrom(nodeId, None);
        } else {
          es := EdgesTo(nodeId, None);
        }
        depths, next := FollowEdges(g, f, starts, depths0, depths, next, nodeId, es, depth);
        EdgesAreLinks(g, f, nodeId, es, None);
      }
      assert frontier[..|frontier|] == frontier;
      LevelComplete(g, f, starts, depths0, frontier, depths, next, depth);
    }
  }
}
