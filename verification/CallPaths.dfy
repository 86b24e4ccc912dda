/** Paths along the edges of a call graph. */
module CallPaths {
  import opened CallgraphModel

  ghost predicate IsPath(edges: Edges, u: NodeId, p: seq<NodeId>, v: NodeId) {
    && p != [] && p[0] == u && p[|p| - 1] == v
    && forall i :: 0 <= i < |p| - 1 ==> (p[i], p[i + 1]) in edges
  }

  ghost predicate Reaches(edges: Edges, u: NodeId, v: NodeId) {
    exists p :: IsPath(edges, u, p, v)
  }

  lemma ReachesItself(edges: Edges, u: NodeId)
    ensures Reaches(edges, u, u)
  {
    assert IsPath(edges, u, [u], u);
  }

  lemma ReachesFurther(edges: Edges, u: NodeId, v: NodeId, w: NodeId)
    requires Reaches(edges, u, v) && (v, w) in edges
    ensures Reaches(edges, u, w)
  {
    var p :| IsPath(edges, u, p, v);
    assert IsPath(edges, u, p + [w], w);
  }

  lemma {:induction false} ReachesTransitive(edges: Edges, u: NodeId, v: NodeId, p: seq<NodeId>, w: NodeId)
    requires Reaches(edges, u, v) && IsPath(edges, v, p, w)
    ensures Reaches(edges, u, w)
  {
    if |p| > 1 {
      var q, t := p[..|p| - 1], p[|p| - 2];
      assert (p[|p| - 2], p[|p| - 2 + 1]) in edges;
      assert IsPath(edges, v, q, t);
      ReachesTransitive(edges, u, v, q, t);
      ReachesFurther(edges, u, t, w);
    }
  }

  lemma ReachesThrough(edges: Edges, u: NodeId, v: NodeId, w: NodeId)
    requires Reaches(edges, u, v) && Reaches(edges, v, w)
    ensures Reaches(edges, u, w)
  {
    var p :| IsPath(edges, v, p, w);
    ReachesTransitive(edges, u, v, p, w);
  }

  ghost predicate ClosedUnder(edges: Edges, s: set<NodeId>) {
    forall u, v :: u in s && (u, v) in edges ==> v in s
  }

  /** A set closed under the edges contains all that its elements reach. */
  lemma {:induction false} ClosedContains(edges: Edges, s: set<NodeId>, u: NodeId, p: seq<NodeId>, v: NodeId)
    requires ClosedUnder(edges, s) && u in s && IsPath(edges, u, p, v)
    ensures v in s
  {
    if |p| > 1 {
      var q, t := p[..|p| - 1], p[|p| - 2];
      assert (p[|p| - 2], p[|p| - 2 + 1]) in edges;
      assert IsPath(edges, u, q, t);
      ClosedContains(edges, s, u, q, t);
    }
  }
}
