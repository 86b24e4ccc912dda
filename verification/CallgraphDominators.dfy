/**
 Dominators of a call graph: the analysis asks the graph for callers and callees of a node
 (graph/include/DominatorAnalysis.h, getCallers and getCallees in graph/src/Callgraph.cpp).
 */
module CallgraphDominators {
  import opened CallgraphModel
  import opened CallPaths
  import opened Dominators

  function LiveNodes(nodes: Nodes): set<NodeId> {
    set n: NodeId | n < |nodes| && nodes[n].Some?
  }

  /** What a call graph answers to the analysis, in the order of its lists. */
  function GraphOf(cg: Callgraph): Graph
    reads cg
  {
    Graph(map n | n in LiveNodes(cg.nodes) :: ListOf(cg.calleeList, n),
          map n | n in LiveNodes(cg.nodes) :: ListOf(cg.callerList, n))
  }

  function Direction(edges: Edges, dir: TraverseDir): Edges {
    if dir == Forward then edges else set e | e in edges :: (e.1, e.0)
  }

  /** The two views agree: the analysis walks along the edges of the call graph. */
  lemma SameEdges(cg: Callgraph, dir: TraverseDir)
    requires cg.Valid()
    ensures GraphOf(cg).Valid() && GraphOf(cg).Edges(dir) == Direction(cg.edges, dir)
    ensures forall n: NodeId :: n in GraphOf(cg).callees <==> Live(cg.nodes, n)
    ensures forall u: NodeId, v: NodeId ::
              GraphOf(cg).Edge(dir, u, v) <==> if dir == Forward then (u, v) in cg.edges else (v, u) in cg.edges
    ensures forall u: NodeId, v: NodeId ::
              (u, v) in Direction(cg.edges, dir) <==> if dir == Forward then (u, v) in cg.edges else (v, u) in cg.edges
  {
    var g := GraphOf(cg);
    assert forall n: NodeId :: n in g.callees <==> Live(cg.nodes, n);
    assert forall u: NodeId, v: NodeId :: u in g.callees && v in g.callees[u] <==> (u, v) in cg.edges;
    assert forall u: NodeId, v: NodeId :: v in g.callers && u in g.callers[v] <==> (u, v) in cg.edges;
    var walked, edges := g.Edges(dir), Direction(cg.edges, dir);
    forall e: (NodeId, NodeId)
      ensures e in walked <==> e in edges
    {
      var (u, v) := e;
      assert e in walked <==> g.Edge(dir, u, v);
      if (v, u) in cg.edges {
        assert e == ((v, u).1, (v, u).0);
      }
    }
    assert walked == edges;
  }

  /** The dominators of a call graph, if the start node is not called again or calls itself. */
  method DominatorsOf(cg: Callgraph, dir: TraverseDir, start: NodeId) returns (domMap: DomMap)
    requires cg.Valid() && Live(cg.nodes, start)
    requires (start, start) in cg.edges
             || forall u: NodeId :: Reaches(Direction(cg.edges, dir), start, u) ==>
                  (u, start) !in Direction(cg.edges, dir)
    ensures forall n: NodeId :: Init(domMap, n) <==> Reaches(Direction(cg.edges, dir), start, n)
    ensures forall d: NodeId, n: NodeId :: Init(domMap, n) ==>
              (d in domMap[n].doms
               <==> forall p :: CallPaths.IsPath(Direction(cg.edges, dir), start, p, n) ==> d in p)
  {
    SameEdges(cg, dir);
    hide Callgraph.Valid, GraphOf, Graph.Valid;
    assert EntryStays(GraphOf(cg), dir, start);
    domMap := ComputeDominators(GraphOf(cg), dir, start);
  }
}
