/**
 The stored graph (`apps/api/src/graph/graph.service.ts` over `InMemoryGraphRepository`): nodes and
 edges are persisted, and a `RiskGraph` of one organisation is rebuilt from them for every check.
 */
module GraphServices {
  import opened Prelude
  import opened Ontology
  import opened GraphModel
  import opened RiskGraphs

  datatype ServiceError = EndpointNotFound | Unauthorised | Rejected(cause: GraphError)

  // ---------------------------------------------------------------- one organisation's part

  predicate InOrganisation(g: Graph, organisation: string, n: Id) {
    n in g.nodes && g.nodes[n].organisation == organisation
  }

  /** `loadSubgraph`: the organisation's nodes, and the edges between them. */
  function Subgraph(g: Graph, organisation: string): Graph {
    Graph(map n | n in g.nodes && g.nodes[n].organisation == organisation :: g.nodes[n],
          map id | id in g.edges && InOrganisation(g, organisation, g.edges[id].fromId)
                                 && InOrganisation(g, organisation, g.edges[id].toId) :: g.edges[id])
  }

  /** The part holds exactly the organisation's nodes, and the edges with both ends among them, unchanged. */
  lemma SubgraphMeaning(g: Graph, organisation: string)
    requires Legal(g)
    ensures var part := Subgraph(g, organisation);
            && (forall n :: n in part.nodes <==> n in g.nodes && g.nodes[n].organisation == organisation)
            && (forall n :: n in part.nodes ==> part.nodes[n] == g.nodes[n])
            && (forall id :: id in g.edges ==> g.edges[id].fromId in g.nodes && g.edges[id].toId in g.nodes)
            && (forall id :: id in part.edges <==>
                  (id in g.edges && g.nodes[g.edges[id].fromId].organisation == organisation
                   && g.nodes[g.edges[id].toId].organisation == organisation))
            && (forall id :: id in part.edges ==> part.edges[id] == g.edges[id])
  {
    forall id | id in g.edges ensures g.edges[id].fromId in g.nodes && g.edges[id].toId in g.nodes {
      assert LegalEdge(g, g.edges[id]);
    }
  }

  /** Everything stored is legal and free of dependency cycles, under its own id, and within one organisation. */
  ghost predicate Stored(g: Graph) {
    && Sound(g)
    && (forall n :: n in g.nodes ==> g.nodes[n].id == n)
    && (forall id :: id in g.edges ==> g.edges[id].id == id)
    && (forall id :: id in g.edges ==> g.nodes[g.edges[id].fromId].organisation == g.nodes[g.edges[id].toId].organisation)
  }

  /** A stored edge, added back to any part of the stored graph that lacks it, is never refused. */
  lemma StoredEdgeAccepted(g: Graph, part: Graph, id: Id)
    requires Stored(g) && PartOf(part, g) && id in g.edges && id !in part.edges
    requires g.edges[id].fromId in part.nodes && g.edges[id].toId in part.nodes
    ensures EdgeRefusal(part, g.edges[id]).None?
  {
    var e := g.edges[id];
    assert LegalEdge(g, e);
    PartIsSound(g, part);
    PartIsSound(g, WithEdge(part, e));
    RefusedIffCycle(part, e);
  }

  lemma LinkStaysInOrganisation(g: Graph, organisation: string, f: Filter, a: Id, b: Id)
    requires Stored(g) && InOrganisation(g, organisation, a) && Link(g, f, a, b)
    ensures InOrganisation(g, organisation, b) && Link(Subgraph(g, organisation), f, a, b)
  {
    var id :| id in g.edges && Passes(f, g.edges[id]) && Tail(f, g.edges[id]) == a && Head(f, g.edges[id]) == b;
    assert LegalEdge(g, g.edges[id]);
    assert id in Subgraph(g, organisation).edges;
  }

  /** Walks never leave an organisation, so its own part decides reachability. */
  lemma SubgraphReachability(g: Graph, organisation: string, f: Filter, a: Id, b: Id)
    requires Stored(g) && InOrganisation(g, organisation, a)
    ensures Reachable(Subgraph(g, organisation), f, a, b) <==> Reachable(g, f, a, b)
  {
    var part := Subgraph(g, organisation);
    forall x, y | x in part.nodes && Link(g, f, x, y) ensures y in part.nodes && Link(part, f, x, y) {
      LinkStaysInOrganisation(g, organisation, f, x, y);
    }
    forall k: nat | Walk(g, f, a, b, k) ensures Walk(part, f, a, b, k) {
      WalkStaysInside(g, part, f, part.nodes.Keys, a, b, k);
    }
    forall k: nat | Walk(part, f, a, b, k) ensures Walk(g, f, a, b, k) {
      WalkInLarger(part, g, f, a, b, k);
    }
  }

  /** The check made against an organisation's own part says what a check against the whole store would say. */
  lemma SameVerdict(g: Graph, organisation: string, e: Edge)
    requires Stored(g) && InOrganisation(g, organisation, e.fromId) && InOrganisation(g, organisation, e.toId)
    ensures EdgeRefusal(Subgraph(g, organisation), e) == EdgeRefusal(g, e)
  {
    SubgraphReachability(g, organisation, OfType(e.edgeType), e.toId, e.fromId);
  }

  /** The part with only some of its edges loaded. */
  function Loaded(part: Graph, ids: set<Id>): Graph {
    Graph(part.nodes, map id | id in part.edges && id in ids :: part.edges[id])
  }

  /** In whatever order its edges are loaded, none is refused. */
  ghost predicate Replayable(part: Graph) {
    forall id, ids: set<Id> :: id in part.edges && id !in ids ==> EdgeRefusal(Loaded(part, ids), part.edges[id]).None?
  }

  /** Lossless rebuild: any part of a stored graph can be loaded again edge by edge, in any order. */
  lemma StoredPartsAreReplayable(g: Graph, part: Graph)
    requires Stored(g) && PartOf(part, g)
    ensures Replayable(part)
  {
    forall id, ids: set<Id> | id in part.edges && id !in ids
      ensures EdgeRefusal(Loaded(part, ids), part.edges[id]).None?
    {
      StoredEdgeAccepted(g, Loaded(part, ids), id);
    }
  }

  lemma LoadOne(part: Graph, ids: set<Id>, id: Id)
    requires Replayable(part) && id in part.edges && id !in ids && part.edges[id].id == id
    ensures GraphStep(Loaded(part, ids), AddEdge(part.edges[id])) == Loaded(part, ids + {id})
    ensures EdgeRefusal(Loaded(part, ids), part.edges[id]).None?
  {
  }

  /** Storing an accepted edge between an organisation's own nodes keeps the store sound. */
  lemma AcceptedEdgeKeepsStored(g: Graph, e: Edge)
    requires Stored(g) && e.id !in g.edges && EdgeRefusal(g, e).None?
    requires e.fromId in g.nodes && e.toId in g.nodes && g.nodes[e.fromId].organisation == g.nodes[e.toId].organisation
    ensures Stored(WithEdge(g, e))
  {
    RefusedIffCycle(g, e);
  }

  class GraphService {
    var nodes: map<Id, Node>
    var edges: map<Id, Edge>

    function Store(): Graph
      reads this
    {
      Graph(nodes, edges)
    }

    constructor ()
      ensures Store() == EMPTY && Stored(Store())
    {
      nodes, edges := map[], map[];
      new;
      EmptyIsSound();
    }

    /** `id` is a fresh UUID. */
    method CreateNode(caller: string, id: Id, nodeType: NodeType)
      requires Stored(Store()) && id !in nodes
      modifies this
      ensures Stored(Store())
      ensures nodes == old(nodes)[id := Node(id, nodeType, caller)] && edges == old(edges)
    {
      ghost var g := Store();
      forall i | i in g.edges ensures g.edges[i].fromId != id && g.edges[i].toId != id {
        assert LegalEdge(g, g.edges[i]);
      }
      MoveKeepsSound(g, AddNode(Node(id, nodeType, caller)), GraphStep(g, AddNode(Node(id, nodeType, caller))));
      nodes := nodes[id := Node(id, nodeType, caller)];
    }

    /** Rebuilding an organisation's graph, its edges taken in any order, refuses none of them. */
    method LoadGraph(organisation: string) returns (graph: RiskGraph)
      requires Stored(Store())
      ensures fresh(graph) && graph.Coherent()
      ensures graph.View() == Subgraph(Store(), organisation)
      ensures forall n :: n in graph.nodes <==> n in nodes && nodes[n].organisation == organisation
      ensures forall n :: n in graph.nodes ==> graph.nodes[n] == nodes[n]
      ensures forall id :: id in graph.edges <==>
                id in edges && nodes[edges[id].fromId].organisation == organisation && nodes[edges[id].toId].organisation == organisation
      ensures forall id :: id in graph.edges ==> graph.edges[id] == edges[id]
      ensures Acyclic(graph.View(), ALL_EDGES)
    {
      ghost var g := Store();
      var part := Subgraph(Store(), organisation);
      graph := new RiskGraph();
      LoadNodes(graph, part.nodes);
      StoredPartsAreReplayable(g, part);
      LoadEdges(graph, part);
      PartIsSound(g, part);
      LegalGraphsAreAcyclic(part);
      SubgraphMeaning(g, organisation);
    }

    /** `createEdge`: the check against the caller's own part refuses exactly what one against the whole store would. */
    method CreateEdge(caller: string, edge: Edge) returns (r: Result<(), ServiceError>)
      requires Stored(Store()) && edge.id !in edges
      modifies this
      ensures Stored(Store()) && nodes == old(nodes)
      ensures edges == if r.Ok? then old(edges)[edge.id := edge] else old(edges)
      ensures r == (
        if edge.fromId !in nodes || edge.toId !in nodes then Err(EndpointNotFound)
        else if nodes[edge.fromId].organisation != caller || nodes[edge.toId].organisation != caller then Err(Unauthorised)
        else match EdgeRefusal(old(Store()), edge) case Some(error) => Err(Rejected(error)) case None => Ok(()))
    {
      if edge.fromId !in nodes || edge.toId !in nodes {
        return Err(EndpointNotFound);
      }
      if nodes[edge.fromId].organisation != caller || nodes[edge.toId].organisation != caller {
        return Err(Unauthorised);
      }
      var checked := CheckAgainstPart(caller, edge);
      if checked.Err? {
        return Err(Rejected(checked.error));
      }
      AcceptedEdgeKeepsStored(Store(), edge);
      edges := edges[edge.id := edge];
      return Ok(());
    }

    /** The trial addition to a rebuilt graph of the caller's own part. */
    method CheckAgainstPart(caller: string, edge: Edge) returns (r: Result<(), GraphError>)
      requires Stored(Store())
      requires InOrganisation(Store(), caller, edge.fromId) && InOrganisation(Store(), caller, edge.toId)
      ensures r == match EdgeRefusal(Store(), edge) case Some(error) => Err(error) case None => Ok(())
    {
      var graph := LoadGraph(caller);
      SameVerdict(Store(), caller, edge);
      r := graph.AddEdge(edge);
    }
  }

  method LoadNodes(graph: RiskGraph, nodes: map<Id, Node>)
    requires graph.Coherent() && graph.View() == EMPTY
    requires forall n :: n in nodes ==> nodes[n].id == n
    modifies graph
    ensures graph.Coherent() && graph.View() == Graph(nodes, map[])
  {
    var todo := nodes.Keys;
    while todo != {}
      invariant todo <= nodes.Keys
      invariant graph.Coherent() && graph.edges == map[]
      invariant graph.nodes == map n | n in nodes.Keys - todo :: nodes[n]
      decreases todo
    {
      var n :| n in todo;
      graph.AddNode(nodes[n]);
      todo := todo - {n};
    }
  }

  lemma LoadedAllOrNone(part: Graph)
    ensures Missing(part, part.edges.Keys) == Graph(part.nodes, map[])
    ensures Missing(part, {}) == part
  {
  }

  /** The part of which the edges `todo` are still to be loaded. */
  function Missing(part: Graph, todo: set<Id>): Graph {
    Loaded(part, part.edges.Keys - todo)
  }

  lemma LoadNext(part: Graph, todo: set<Id>, id: Id)
    requires Replayable(part) && todo <= part.edges.Keys && id in todo && part.edges[id].id == id
    ensures EdgeRefusal(Missing(part, todo), part.edges[id]).None?
    ensures WithEdge(Missing(part, todo), part.edges[id]) == Missing(part, todo - {id})
  {
    LoadOne(part, part.edges.Keys - todo, id);
    assert part.edges.Keys - (todo - {id}) == (part.edges.Keys - todo) + {id};
  }

  /** One iteration of the rebuild: the edge is not refused. */
  method LoadEdge(graph: RiskGraph, part: Graph, todo: set<Id>, id: Id)
    requires graph.Coherent() && graph.View() == Missing(part, todo)
    requires Replayable(part) && todo <= part.edges.Keys && id in todo && part.edges[id].id == id
    modifies graph
    ensures graph.Coherent() && graph.View() == Missing(part, todo - {id})
  {
    LoadNext(part, todo, id);
    var added := graph.AddEdge(part.edges[id]);
  }

  method LoadEdges(graph: RiskGraph, part: Graph)
    requires graph.Coherent() && graph.View() == Graph(part.nodes, map[])
    requires Replayable(part) && forall id :: id in part.edges ==> part.edges[id].id == id
    modifies graph
    ensures graph.Coherent() && graph.View() == part
  {
    LoadedAllOrNone(part);
    var todo := part.edges.Keys;
    while todo != {}
      invariant todo <= part.edges.Keys
      invariant graph.Coherent() && graph.View() == Missing(part, todo)
      decreases todo
    {
      var id :| id in todo;
      LoadEdge(graph, part, todo, id);
      todo := todo - {id};
    }
  }
}
