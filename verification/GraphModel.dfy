/**
 Risk graphs as values: walks, distance, and why no legal graph has a cycle of any kind
 (`packages/domain/src/graph.ts`, `packages/domain/src/ontology.ts`).
 */
module GraphModel {
  import opened Prelude
  import opened Sequences
  import opened Ontology

  type Id = string

  datatype Node = Node(id: Id, nodeType: NodeType, organisation: string)

  /** `aiInferred` is the only part of an edge's provenance that traversal looks at. */
  datatype Edge = Edge(id: Id, edgeType: EdgeType, fromId: Id, toId: Id, aiInferred: bool)

  datatype Graph = Graph(nodes: map<Id, Node>, edges: map<Id, Edge>)

  datatype Direction = Outward | Inward

  /** Which edges a traversal follows, and which way. */
  datatype Filter = Filter(edgeTypes: Option<set<EdgeType>>, direction: Direction, verifiedOnly: bool)

  predicate Passes(f: Filter, e: Edge) {
    (f.edgeTypes.Some? ==> e.edgeType in f.edgeTypes.value) && (f.verifiedOnly ==> !e.aiInferred)
  }

  function Tail(f: Filter, e: Edge): Id {
    if f.direction == Outward then e.fromId else e.toId
  }

  function Head(f: Filter, e: Edge): Id {
    if f.direction == Outward then e.toId else e.fromId
  }

  /** Some edge the filter admits leads from `a` to `b`. */
  ghost predicate Link(g: Graph, f: Filter, a: Id, b: Id) {
    exists id :: id in g.edges && Passes(f, g.edges[id]) && Tail(f, g.edges[id]) == a && Head(f, g.edges[id]) == b
  }

  /** A link, by the ends of a stored edge. */
  lemma LinkMeaning(g: Graph, f: Filter, a: Id, b: Id)
    ensures Link(g, f, a, b) <==>
              exists id :: id in g.edges && (f.edgeTypes.Some? ==> g.edges[id].edgeType in f.edgeTypes.value)
                && (f.verifiedOnly ==> !g.edges[id].aiInferred)
                && (if f.direction == Outward then g.edges[id].fromId == a && g.edges[id].toId == b
                    else g.edges[id].toId == a && g.edges[id].fromId == b)
  {
  }

  /** There is a walk of exactly `k` links from `a` to `b`. */
  ghost predicate Walk(g: Graph, f: Filter, a: Id, b: Id, k: nat)
    decreases k
  {
    if k == 0 then a == b else exists m :: Walk(g, f, a, m, k - 1) && Link(g, f, m, b)
  }

  ghost predicate Reachable(g: Graph, f: Filter, a: Id, b: Id) {
    exists k: nat :: Walk(g, f, a, b, k)
  }

  /** No walk of one or more links comes back to where it started. */
  ghost predicate Acyclic(g: Graph, f: Filter) {
    forall n, k: nat :: 0 < k ==> !Walk(g, f, n, n, k)
  }

  lemma LastLink(g: Graph, f: Filter, a: Id, b: Id, k: nat) returns (m: Id)
    requires 0 < k && Walk(g, f, a, b, k)
    ensures Walk(g, f, a, m, k - 1) && Link(g, f, m, b)
  {
    m :| Walk(g, f, a, m, k - 1) && Link(g, f, m, b);
  }

  lemma {:induction false} WalkJoin(g: Graph, f: Filter, a: Id, b: Id, c: Id, i: nat, j: nat)
    requires Walk(g, f, a, b, i) && Walk(g, f, b, c, j)
    ensures Walk(g, f, a, c, i + j)
    decreases j
  {
    if j > 0 {
      var m :| Walk(g, f, b, m, j - 1) && Link(g, f, m, c);
      WalkJoin(g, f, a, b, m, i, j - 1);
    }
  }

  function Reverse(f: Filter): Filter {
    f.(direction := if f.direction == Outward then Inward else Outward)
  }

  lemma LinkReverse(g: Graph, f: Filter, a: Id, b: Id)
    requires Link(g, f, a, b)
    ensures Link(g, Reverse(f), b, a)
  {
    var id :| id in g.edges && Passes(f, g.edges[id]) && Tail(f, g.edges[id]) == a && Head(f, g.edges[id]) == b;
    assert Passes(Reverse(f), g.edges[id]);
  }

  lemma OneLink(g: Graph, f: Filter, a: Id, b: Id)
    requires Link(g, f, a, b)
    ensures Walk(g, f, a, b, 1)
  {
    assert Walk(g, f, a, a, 0);
  }

  /** Walks read backwards are walks of the same length under the reversed filter. */
  lemma {:induction false} WalkReverse(g: Graph, f: Filter, a: Id, b: Id, k: nat)
    requires Walk(g, f, a, b, k)
    ensures Walk(g, Reverse(f), b, a, k)
    decreases k
  {
    if k > 0 {
      var m :| Walk(g, f, a, m, k - 1) && Link(g, f, m, b);
      WalkReverse(g, f, a, m, k - 1);
      LinkReverse(g, f, m, b);
      OneLink(g, Reverse(f), b, m);
      WalkJoin(g, Reverse(f), b, m, a, 1, k - 1);
    }
  }

  /** Fewer edges, fewer walks: any part of an acyclic graph is acyclic. */
  lemma {:induction false} WalkInLarger(g: Graph, h: Graph, f: Filter, a: Id, b: Id, k: nat)
    requires forall id :: id in g.edges ==> id in h.edges && h.edges[id] == g.edges[id]
    requires Walk(g, f, a, b, k)
    ensures Walk(h, f, a, b, k)
    decreases k
  {
    if k > 0 {
      var m :| Walk(g, f, a, m, k - 1) && Link(g, f, m, b);
      WalkInLarger(g, h, f, a, m, k - 1);
      assert Link(h, f, m, b);
    }
  }

  /** A walk that starts in a set no link of `g` leaves is a walk of any graph with those links. */
  lemma {:induction false} WalkStaysInside(g: Graph, h: Graph, f: Filter, inside: set<Id>, a: Id, b: Id, k: nat)
    requires forall x, y :: x in inside && Link(g, f, x, y) ==> y in inside && Link(h, f, x, y)
    requires a in inside && Walk(g, f, a, b, k)
    ensures b in inside && Walk(h, f, a, b, k)
    decreases k
  {
    if k > 0 {
      var m :| Walk(g, f, a, m, k - 1) && Link(g, f, m, b);
      WalkStaysInside(g, h, f, inside, a, m, k - 1);
    }
  }

  // ---------------------------------------------------------------- whole-graph acyclicity

  const ALL_EDGES := Filter(None, Outward, false)

  function OfType(edgeType: EdgeType): Filter {
    Filter(Some({edgeType}), Outward, false)
  }

  const DEPENDENCIES := OfType(DEPENDS_ON)

  /** Every edge joins known nodes in a way the ontology allows. */
  ghost predicate Legal(g: Graph) {
    forall id :: id in g.edges ==> LegalEdge(g, g.edges[id])
  }

  predicate LegalEdge(g: Graph, e: Edge) {
    && e.fromId in g.nodes && e.toId in g.nodes
    && IsEdgeAllowed(e.edgeType, g.nodes[e.fromId].nodeType, g.nodes[e.toId].nodeType)
  }

  function RankOf(g: Graph, n: Id): nat {
    if n in g.nodes then TypeRank(g.nodes[n].nodeType) else 0
  }

  /** A link climbs the type order, or is a dependency between assets. */
  lemma LinkClimbs(g: Graph, a: Id, b: Id)
    requires Legal(g) && Link(g, ALL_EDGES, a, b)
    ensures RankOf(g, a) < RankOf(g, b) || (RankOf(g, a) == RankOf(g, b) && Link(g, DEPENDENCIES, a, b))
  {
    var id :| id in g.edges && Tail(ALL_EDGES, g.edges[id]) == a && Head(ALL_EDGES, g.edges[id]) == b;
    assert LegalEdge(g, g.edges[id]);
    LegalEdgesClimb(g.edges[id].edgeType, g.nodes[a].nodeType, g.nodes[b].nodeType);
    if g.edges[id].edgeType == DEPENDS_ON {
      assert Passes(DEPENDENCIES, g.edges[id]);
      assert Link(g, DEPENDENCIES, a, b);
    }
  }

  function Level(rank: map<Id, nat>, n: Id): nat {
    if n in rank then rank[n] else 0
  }

  /** Each link of `f` climbs the potential, or stays level and is also a link of `d`. */
  ghost predicate Climbs(g: Graph, f: Filter, d: Filter, rank: map<Id, nat>) {
    forall a, b :: Link(g, f, a, b) ==> Level(rank, a) < Level(rank, b) || (Level(rank, a) == Level(rank, b) && Link(g, d, a, b))
  }

  /** From `a`, the walk to `b` climbed, or stayed level on links of `d`. */
  ghost predicate Climbed(g: Graph, d: Filter, rank: map<Id, nat>, a: Id, b: Id, k: nat) {
    Level(rank, a) <= Level(rank, b) && (Level(rank, a) == Level(rank, b) ==> Walk(g, d, a, b, k))
  }

  lemma ClimbOnce(g: Graph, f: Filter, d: Filter, rank: map<Id, nat>, a: Id, m: Id, b: Id, k: nat)
    requires Climbs(g, f, d, rank) && Link(g, f, m, b) && Climbed(g, d, rank, a, m, k)
    ensures Climbed(g, d, rank, a, b, k + 1)
  {
  }

  /** A walk never descends the potential, and one that stays level consists of links of `d` only. */
  lemma {:induction false} WalksClimb(g: Graph, f: Filter, d: Filter, rank: map<Id, nat>, a: Id, b: Id, k: nat)
    requires Climbs(g, f, d, rank) && Walk(g, f, a, b, k)
    ensures Climbed(g, d, rank, a, b, k)
    decreases k
  {
    if k > 0 {
      var m := LastLink(g, f, a, b, k);
      WalksClimb(g, f, d, rank, a, m, k - 1);
      ClimbOnce(g, f, d, rank, a, m, b, k - 1);
    }
  }

  /** In a legal graph without dependency cycles there is no directed cycle mixing any edge types. */
  lemma LegalGraphsAreAcyclic(g: Graph)
    requires Legal(g) && Acyclic(g, DEPENDENCIES)
    ensures Acyclic(g, ALL_EDGES)
  {
    var rank := map n | n in g.nodes :: TypeRank(g.nodes[n].nodeType);
    forall a, b | Link(g, ALL_EDGES, a, b)
      ensures Level(rank, a) < Level(rank, b) || (Level(rank, a) == Level(rank, b) && Link(g, DEPENDENCIES, a, b))
    {
      LinkClimbs(g, a, b);
    }
    forall n, k: nat | 0 < k ensures !Walk(g, ALL_EDGES, n, n, k) {
      if Walk(g, ALL_EDGES, n, n, k) {
        WalksClimb(g, ALL_EDGES, DEPENDENCIES, rank, n, n, k);
      }
    }
  }

  // ---------------------------------------------------------------- adding an edge

  function WithEdge(g: Graph, e: Edge): Graph {
    g.(edges := g.edges[e.id := e])
  }

  /** A walk after adding an edge either avoids it, or runs up to its start and on from its end. */
  lemma {:induction false} WalkWithEdge(g: Graph, f: Filter, e: Edge, a: Id, b: Id, k: nat)
    requires e.id !in g.edges && Walk(WithEdge(g, e), f, a, b, k)
    ensures Walk(g, f, a, b, k) || (Reachable(g, f, a, Tail(f, e)) && Reachable(g, f, Head(f, e), b))
    decreases k
  {
    if k > 0 {
      var h := WithEdge(g, e);
      var m :| Walk(h, f, a, m, k - 1) && Link(h, f, m, b);
      WalkWithEdge(g, f, e, a, m, k - 1);
      var id :| id in h.edges && Passes(f, h.edges[id]) && Tail(f, h.edges[id]) == m && Head(f, h.edges[id]) == b;
      if id == e.id {
        assert Walk(g, f, b, b, 0);
      } else {
        assert Link(g, f, m, b);
        if Reachable(g, f, Head(f, e), m) {
          var j: nat :| Walk(g, f, Head(f, e), m, j);
          assert Walk(g, f, Head(f, e), b, j + 1);
        }
      }
    }
  }

  /** Adding an edge keeps the graph acyclic exactly when its start cannot be reached from its end. */
  lemma EdgeClosesCycle(g: Graph, f: Filter, e: Edge)
    requires e.id !in g.edges && Passes(f, e) && Acyclic(g, f)
    ensures Acyclic(WithEdge(g, e), f) <==> !Reachable(g, f, Head(f, e), Tail(f, e))
  {
    var h, u, v := WithEdge(g, e), Tail(f, e), Head(f, e);
    if Reachable(g, f, v, u) {
      var k: nat :| Walk(g, f, v, u, k);
      WalkInLarger(g, h, f, v, u, k);
      assert h.edges[e.id] == e;
      assert Link(h, f, u, v);
      assert Walk(h, f, v, v, k + 1);
    } else {
      forall n, k: nat | 0 < k && Walk(h, f, n, n, k)
        ensures false
      {
        WalkWithEdge(g, f, e, n, n, k);
        var i: nat :| Walk(g, f, n, u, i);
        var j: nat :| Walk(g, f, v, n, j);
        WalkJoin(g, f, v, n, u, j, i);
      }
    }
  }

  /** An edge the filter ignores makes no difference. */
  lemma IgnoredEdge(g: Graph, f: Filter, e: Edge)
    requires e.id !in g.edges && !Passes(f, e) && Acyclic(g, f)
    ensures Acyclic(WithEdge(g, e), f)
  {
    var h := WithEdge(g, e);
    forall n, k: nat | 0 < k && Walk(h, f, n, n, k)
      ensures false
    {
      WalkWithoutIgnored(g, f, e, n, n, k);
    }
  }

  lemma {:induction false} WalkWithoutIgnored(g: Graph, f: Filter, e: Edge, a: Id, b: Id, k: nat)
    requires e.id !in g.edges && !Passes(f, e) && Walk(WithEdge(g, e), f, a, b, k)
    ensures Walk(g, f, a, b, k)
    decreases k
  {
    if k > 0 {
      var h := WithEdge(g, e);
      var m :| Walk(h, f, a, m, k - 1) && Link(h, f, m, b);
      WalkWithoutIgnored(g, f, e, a, m, k - 1);
      var id :| id in h.edges && Passes(f, h.edges[id]) && Tail(f, h.edges[id]) == m && Head(f, h.edges[id]) == b;
      assert id in g.edges && g.edges[id] == h.edges[id];
      assert Link(g, f, m, b);
    }
  }

  // ---------------------------------------------------------------- runs

  datatype GraphError = UnknownNode(id: Id) | InvalidEdge | DependencyCycle

  /** Why `addEdge` refuses an edge, if it does. */
  ghost function EdgeRefusal(g: Graph, e: Edge): Option<GraphError> {
    if e.fromId !in g.nodes then Some(UnknownNode(e.fromId))
    else if e.toId !in g.nodes then Some(UnknownNode(e.toId))
    else if !IsEdgeAllowed(e.edgeType, g.nodes[e.fromId].nodeType, g.nodes[e.toId].nodeType) then Some(InvalidEdge)
    else if IsAcyclicEdgeType(e.edgeType) && Reachable(g, OfType(e.edgeType), e.toId, e.fromId) then Some(DependencyCycle)
    else None
  }

  datatype GraphCommand = AddNode(node: Node) | AddEdge(edge: Edge)

  ghost function GraphStep(g: Graph, c: GraphCommand): Graph {
    match c
    case AddNode(node) => g.(nodes := g.nodes[node.id := node])
    case AddEdge(edge) => if EdgeRefusal(g, edge).None? then WithEdge(g, edge) else g
  }

  const EMPTY := Graph(map[], map[])

  ghost predicate Sound(g: Graph) {
    Legal(g) && Acyclic(g, DEPENDENCIES)
  }

  /** `addEdge` refuses a legally typed edge exactly when adding it would close a dependency cycle. */
  lemma RefusedIffCycle(g: Graph, e: Edge)
    requires Sound(g) && e.id !in g.edges
    requires LegalEdge(g, e)
    ensures EdgeRefusal(g, e).None? <==> Acyclic(WithEdge(g, e), DEPENDENCIES)
    ensures EdgeRefusal(g, e).None? <==> Sound(WithEdge(g, e))
  {
    OnlyDependenciesAreAcyclic(e.edgeType);
    if e.edgeType == DEPENDS_ON {
      EdgeClosesCycle(g, DEPENDENCIES, e);
    } else {
      IgnoredEdge(g, DEPENDENCIES, e);
    }
    forall id | id in WithEdge(g, e).edges ensures LegalEdge(WithEdge(g, e), WithEdge(g, e).edges[id]) {
      assert id != e.id ==> LegalEdge(g, g.edges[id]);
    }
  }

  /** Storing a node keeps the graph sound exactly when its edges, if it had any, are legal under its type. */
  lemma NodeKeepsSound(g: Graph, node: Node)
    requires Sound(g)
    ensures var h := GraphStep(g, AddNode(node));
            Sound(h) <==> forall id :: id in g.edges && node.id in {g.edges[id].fromId, g.edges[id].toId} ==> LegalEdge(h, g.edges[id])
  {
    var h := GraphStep(g, AddNode(node));
    forall n, k: nat | 0 < k ensures !Walk(h, DEPENDENCIES, n, n, k) {
      if Walk(h, DEPENDENCIES, n, n, k) {
        WalkInLarger(h, g, DEPENDENCIES, n, n, k);
      }
    }
    forall id | id in g.edges && node.id !in {g.edges[id].fromId, g.edges[id].toId} ensures LegalEdge(h, h.edges[id]) {
      assert LegalEdge(g, g.edges[id]);
    }
    if Sound(h) {
      forall id | id in g.edges && node.id in {g.edges[id].fromId, g.edges[id].toId} ensures LegalEdge(h, g.edges[id]) {
        assert LegalEdge(h, h.edges[id]);
      }
    }
  }

  /** Some of the edges of a sound graph form a sound graph. */
  lemma PartIsSound(g: Graph, part: Graph)
    requires Sound(g) && PartOf(part, g)
    ensures Sound(part)
  {
    forall id | id in part.edges ensures LegalEdge(part, part.edges[id]) {
      assert LegalEdge(g, g.edges[id]);
    }
    forall n, k: nat | 0 < k ensures !Walk(part, DEPENDENCIES, n, n, k) {
      if Walk(part, DEPENDENCIES, n, n, k) {
        WalkInLarger(part, g, DEPENDENCIES, n, n, k);
      }
    }
  }

  /** Known nodes with some of the edges between them, unchanged. */
  ghost predicate PartOf(part: Graph, g: Graph) {
    && (forall n :: n in part.nodes ==> n in g.nodes && part.nodes[n] == g.nodes[n])
    && (forall id :: id in part.edges ==> id in g.edges && part.edges[id] == g.edges[id])
    && (forall id :: id in part.edges ==> part.edges[id].fromId in part.nodes && part.edges[id].toId in part.nodes)
  }

  /** An accepted edge keeps the graph sound even if its id was in use: taking the old edge away only removes walks. */
  lemma AcceptedEdgeKeepsSound(g: Graph, e: Edge)
    requires Sound(g) && EdgeRefusal(g, e).None?
    ensures Sound(WithEdge(g, e))
  {
    var rest := g.(edges := g.edges - {e.id});
    AcceptedByPart(g, rest, e);
    assert WithEdge(rest, e) == WithEdge(g, e);
    RefusedIffCycle(rest, e);
  }

  /** What a sound graph accepts, it accepts with some of its edges taken away. */
  lemma AcceptedByPart(g: Graph, part: Graph, e: Edge)
    requires Sound(g) && EdgeRefusal(g, e).None? && part.nodes == g.nodes
    requires forall id :: id in part.edges ==> id in g.edges && part.edges[id] == g.edges[id]
    ensures Sound(part) && EdgeRefusal(part, e).None?
  {
    forall id | id in part.edges ensures LegalEdge(g, part.edges[id]) {
      assert part.edges[id] == g.edges[id];
    }
    PartIsSound(g, part);
    if Reachable(part, OfType(e.edgeType), e.toId, e.fromId) {
      ReachableInLarger(part, g, OfType(e.edgeType), e.toId, e.fromId);
    }
  }

  lemma ReachableInLarger(g: Graph, h: Graph, f: Filter, a: Id, b: Id)
    requires forall id :: id in g.edges ==> id in h.edges && h.edges[id] == g.edges[id]
    requires Reachable(g, f, a, b)
    ensures Reachable(h, f, a, b)
  {
    var k: nat :| Walk(g, f, a, b, k);
    WalkInLarger(g, h, f, a, b, k);
  }

  /**
   What one call may do to the graph. Re-used edge ids leave stale index entries, which only add links to
   what the cycle check sees: it may then refuse more than it has to, but never less.
   */
  ghost predicate Moves(g: Graph, c: GraphCommand, h: Graph) {
    match c
    case AddNode(_) => h == GraphStep(g, c)
    case AddEdge(edge) => h == g || (EdgeRefusal(g, edge).None? && h == WithEdge(g, edge))
  }

  /** A node stored again under a type that makes one of its stored edges illegal. */
  predicate Retypes(g: Graph, c: GraphCommand) {
    c.AddNode? && exists id :: id in g.edges && Orphans(g, c.node, g.edges[id])
  }

  predicate Orphans(g: Graph, node: Node, e: Edge) {
    (node.id == e.fromId || node.id == e.toId) && !LegalEdge(g.(nodes := g.nodes[node.id := node]), e)
  }

  /** Exactly which calls leave a graph that is no longer sound. */
  lemma MoveKeepsSound(g: Graph, c: GraphCommand, h: Graph)
    requires Sound(g) && Moves(g, c, h)
    ensures Sound(h) <==> !Retypes(g, c)
  {
    match c
    case AddNode(node) =>
      NodeKeepsSound(g, node);
      if !Retypes(g, c) {
        forall id | id in g.edges && node.id in {g.edges[id].fromId, g.edges[id].toId} ensures LegalEdge(h, g.edges[id]) {
          assert !Orphans(g, node, g.edges[id]);
        }
      } else {
        var id :| id in g.edges && Orphans(g, node, g.edges[id]);
        assert node.id in {g.edges[id].fromId, g.edges[id].toId} && !LegalEdge(h, g.edges[id]);
      }
    case AddEdge(edge) =>
      if h != g {
        AcceptedEdgeKeepsSound(g, edge);
      }
  }

  lemma EmptyIsSound()
    ensures Sound(EMPTY)
  {
    forall n, k: nat | 0 < k ensures !Walk(EMPTY, DEPENDENCIES, n, n, k) {
      assert forall m :: !Link(EMPTY, DEPENDENCIES, m, n);
    }
  }

  /** The graphs a sequence of calls leads through, one more than there are calls. */
  ghost predicate IsRun(commands: seq<GraphCommand>, graphs: seq<Graph>) {
    && |graphs| == |commands| + 1 && graphs[0] == EMPTY
    && forall i :: 0 <= i < |commands| ==> Moves(graphs[i], commands[i], graphs[i + 1])
  }

  /**
   Whole-graph soundness: over any run of `addNode` and `addEdge`, edge ids re-used or not, the graph stays
   legal and free of dependency cycles if and only if no node was stored again under a type its edges forbid.
   */
  lemma RunsAreSound(commands: seq<GraphCommand>, graphs: seq<Graph>)
    requires IsRun(commands, graphs)
    ensures (forall n :: 0 <= n < |graphs| ==> Sound(graphs[n]))
       <==> (forall t :: 0 <= t < |commands| ==> !Retypes(graphs[t], commands[t]))
  {
    var good := seq(|graphs|, n requires 0 <= n < |graphs| => Sound(graphs[n]));
    var breaks := seq(|commands|, t requires 0 <= t < |commands| => Retypes(graphs[t], commands[t]));
    forall t | 0 <= t < |breaks| && good[t] ensures good[t + 1] <==> !breaks[t] {
      MoveKeepsSound(graphs[t], commands[t], graphs[t + 1]);
    }
    EmptyIsSound();
    NeverBroken(good, breaks);
    assert forall n :: 0 <= n < |graphs| ==> (good[n] <==> Sound(graphs[n]));
    assert forall t :: 0 <= t < |commands| ==> (breaks[t] <==> Retypes(graphs[t], commands[t]));
  }

  /** Whole-graph acyclicity: no such run ever builds a cycle of any kind. */
  lemma RunsAreAcyclic(commands: seq<GraphCommand>, graphs: seq<Graph>, n: nat)
    requires IsRun(commands, graphs) && n <= |commands|
    requires forall t :: 0 <= t < |commands| ==> !Retypes(graphs[t], commands[t])
    ensures Sound(graphs[n]) && Acyclic(graphs[n], ALL_EDGES)
  {
    RunsAreSound(commands, graphs);
    LegalGraphsAreAcyclic(graphs[n]);
  }
}
