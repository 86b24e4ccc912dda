/**
 Reachability with a cache (graph/src/ReachabilityAnalysis.cpp).
 */
module Reachability {
  import opened CallgraphModel
  import opened CallPaths
  import opened Optional

  /** Exactly what a node reaches, itself included. */
  ghost predicate Exactly(edges: Edges, n: NodeId, reachable: set<NodeId>) {
    forall v :: v in reachable <==> Reaches(edges, n, v)
  }

  /** How often the queue still names a node that has been visited already. */
  function Repeats(queue: seq<NodeId>, visited: set<NodeId>): nat {
    if queue == [] then 0
    else Repeats(queue[..|queue| - 1], visited) + if queue[|queue| - 1] in visited then 1 else 0
  }

  lemma {:induction false} RepeatsOfTail(queue: seq<NodeId>, visited: set<NodeId>)
    requires queue != []
    ensures Repeats(queue, visited) == Repeats(queue[1..], visited) + if queue[0] in visited then 1 else 0
  {
    if |queue| > 1 {
      RepeatsOfTail(queue[..|queue| - 1], visited);
      assert queue[..|queue| - 1][1..] == queue[1..][..|queue| - 2];
    }
  }

  /** What holds between visits: nothing wrong was visited, and all that is missing is queued. */
  ghost predicate Exploring(edges: Edges, n: NodeId, visited: set<NodeId>, queue: seq<NodeId>) {
    && (n in visited || n in queue)
    && (forall v :: v in visited || v in queue ==> Reaches(edges, n, v))
    && (forall u, v :: u in visited && (u, v) in edges ==> v in visited || v in queue)
  }

  lemma ExploredIsExact(edges: Edges, n: NodeId, visited: set<NodeId>)
    requires Exploring(edges, n, visited, [])
    ensures Exactly(edges, n, visited)
  {
    assert ClosedUnder(edges, visited);
    forall v | Reaches(edges, n, v)
      ensures v in visited
    {
      var p :| IsPath(edges, n, p, v);
      ClosedContains(edges, visited, n, p, v);
    }
  }

  lemma Visited(edges: Edges, n: NodeId, visited: set<NodeId>, queue: seq<NodeId>, more: seq<NodeId>)
    requires Exploring(edges, n, visited, queue) && queue != []
    requires forall v :: v in more <==> (queue[0], v) in edges && v !in visited + {queue[0]}
    ensures Exploring(edges, n, visited + {queue[0]}, queue[1..] + more)
  {
    var node, rest := queue[0], queue[1..];
    assert forall v :: v in queue <==> v == node || v in rest;
    forall v | v in more
      ensures Reaches(edges, n, v)
    {
      ReachesFurther(edges, n, node, v);
    }
  }

  /** A source with all targets of edges: where every visit takes place. */
  ghost function Universe(edges: Edges, n: NodeId): set<NodeId> {
    {n} + set e | e in edges :: e.1
  }

  lemma {:induction false} ReachedInUniverse(edges: Edges, n: NodeId, v: NodeId)
    requires Reaches(edges, n, v)
    ensures v in Universe(edges, n)
  {
    var p :| IsPath(edges, n, p, v);
    if |p| > 1 {
      assert (p[|p| - 2], p[|p| - 2 + 1]) in edges;
    }
  }

  class ReachabilityAnalysis {
    const cg: Callgraph
    var reachableNodes: map<NodeId, set<NodeId>>
    var computedFor: set<NodeId>

    ghost predicate Valid()
      reads this
    {
      computedFor <= reachableNodes.Keys
    }

    /** The cached answer for a node is there, and right for these edges. */
    ghost predicate Cached(edges: Edges, n: NodeId)
      reads this
    {
      n in computedFor && n in reachableNodes && Exactly(edges, n, reachableNodes[n])
    }

    constructor (graph: Callgraph)
      ensures Valid() && cg == graph && computedFor == {}
    {
      cg, reachableNodes, computedFor := graph, map[], {};
    }

    /** Appends the callees not visited, in whatever order they come. */
    method PushUnvisited(queue: seq<NodeId>, children: set<NodeId>, visited: set<NodeId>)
      returns (longer: seq<NodeId>, ghost more: seq<NodeId>)
      ensures longer == queue + more
      ensures forall v :: v in more <==> v in children && v !in visited
      ensures Repeats(longer, visited) == Repeats(queue, visited)
    {
      longer, more := queue, [];
      var todo := children;
      while todo != {}
        invariant longer == queue + more && todo <= children
        invariant forall v :: v in more <==> v in children - todo && v !in visited
        invariant Repeats(longer, visited) == Repeats(queue, visited)
      {
        var child :| child in todo;
        if child !in visited {
          assert (longer + [child])[..|longer + [child]| - 1] == longer;
          longer, more := longer + [child], more + [child];
        }
        todo := todo - {child};
      }
    }

    /** Computes what a node reaches.  A visited node may come out of the queue again, and pushes
        its missing callees once more; every visit leaves fewer nodes, or fewer repeats. */
    method RunForNode(n: NodeId)
      requires Valid() && cg.Valid()
      modifies this
      ensures Valid() && Cached(cg.edges, n)
      ensures computedFor == old(computedFor) + {n}
      ensures reachableNodes == old(reachableNodes)[n := reachableNodes[n]]
    {
      computedFor := computedFor + {n};
      if n !in reachableNodes {
        reachableNodes := reachableNodes[n := {}];
      }
      var visitedNodes := Explore(n);
      reachableNodes := reachableNodes[n := visitedNodes];
    }

    method Explore(n: NodeId) returns (visitedNodes: set<NodeId>)
      requires cg.Valid()
      ensures Exactly(cg.edges, n, visitedNodes)
    {
      hide Callgraph.Valid, Reaches;
      visitedNodes := {};
      var workQueue := [n];
      ReachesItself(cg.edges, n);
      while workQueue != []
        invariant Exploring(cg.edges, n, visitedNodes, workQueue)
        decreases Universe(cg.edges, n) - visitedNodes, Repeats(workQueue, visitedNodes)
      {
        var node := workQueue[0];
        ghost var visited, queue := visitedNodes, workQueue;
        ReachedInUniverse(cg.edges, n, node);
        visitedNodes := visitedNodes + {node};
        workQueue := workQueue[1..];
        ghost var more;
        RepeatsOfTail(queue, visitedNodes);
        workQueue, more := PushUnvisited(workQueue, cg.GetCallees(node), visitedNodes);
        Visited(cg.edges, n, visited, queue, more);
        assert node in visited ==> visitedNodes == visited;
      }
      ExploredIsExact(cg.edges, n, visitedNodes);
    }

    /** A cached answer is used as it is; everything else is computed on the graph as it is now. */
    method ExistsPathBetween(src: NodeId, dest: NodeId, forceUpdate: bool) returns (r: bool)
      requires Valid() && cg.Valid()
      modifies this
      ensures Valid() && src in reachableNodes && r == (dest in reachableNodes[src])
      ensures forceUpdate || src !in old(computedFor) || old(Cached(cg.edges, src)) ==>
                Cached(cg.edges, src) && (r <==> Reaches(cg.edges, src, dest))
      ensures !forceUpdate && src in old(computedFor) ==> reachableNodes == old(reachableNodes)
      ensures forall m: NodeId :: old(Cached(cg.edges, m)) ==> Cached(cg.edges, m)
      ensures computedFor == old(computedFor) + {src}
    {
      if src !in reachableNodes {
        reachableNodes := reachableNodes[src := {}];
      }
      if !forceUpdate && src in computedFor {
        return dest in reachableNodes[src];
      }
      RunForNode(src);
      r := dest in reachableNodes[src];
    }

    method GetReachableNodesFrom(node: NodeId, forceUpdate: bool) returns (r: set<NodeId>)
      requires Valid() && cg.Valid()
      modifies this
      ensures Valid() && node in reachableNodes && r == reachableNodes[node]
      ensures forceUpdate || node !in old(computedFor) || old(Cached(cg.edges, node)) ==>
                Cached(cg.edges, node) && Exactly(cg.edges, node, r)
      ensures forall m: NodeId :: old(Cached(cg.edges, m)) ==> Cached(cg.edges, m)
      ensures computedFor == old(computedFor) + {node}
    {
      if forceUpdate || node !in computedFor {
        RunForNode(node);
      }
      r := reachableNodes[node];
    }

    method ComputeReachableFromMain() returns (mainNode: NodeId)
      requires Valid() && cg.Valid() && cg.MainOrNone().Some?
      modifies this, cg`mainNode
      ensures Valid() && cg.Valid() && old(cg.MainOrNone()) == Some(mainNode) == cg.mainNode
      ensures Cached(cg.edges, mainNode)
      ensures computedFor == old(computedFor) + {mainNode}
      ensures reachableNodes == old(reachableNodes)[mainNode := reachableNodes[mainNode]]
    {
      hide Callgraph.Valid;
      var main_ := cg.GetMain(false);
      mainNode := main_.value;
      RunForNode(mainNode);
    }

    /** There has to be an entry function. */
    method IsReachableFromMain(node: NodeId, forceUpdate: bool) returns (r: bool)
      requires Valid() && cg.Valid() && cg.MainOrNone().Some?
      modifies this, cg`mainNode
      ensures Valid() && cg.Valid() && cg.MainOrNone() == old(cg.MainOrNone())
      ensures var m := cg.MainOrNone().value;
              && computedFor == old(computedFor) + {m}
              && (forceUpdate || m !in old(computedFor) || old(Cached(cg.edges, cg.MainOrNone().value)) ==>
                    Cached(cg.edges, m) && (r <==> Reaches(cg.edges, m, node)))
      ensures forall m: NodeId :: old(Cached(cg.edges, m)) ==> Cached(cg.edges, m)
    {
      hide Callgraph.Valid;
      var m := cg.GetMain(false);
      if forceUpdate || m.value !in computedFor {
        var _ := ComputeReachableFromMain();
      }
      var mainNode := cg.GetMain(false);
      r := node in reachableNodes[mainNode.value];
    }
  }
}
