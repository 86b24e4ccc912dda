/**
 When are the sets of a run that ends the dominators? (graph/include/DominatorAnalysis.h)

 The start node's own callers are folded into its set.  If another node dominates all of them,
 it ends up there by mistake.  This is the only thing that can go wrong: the work list takes
 nodes in the order in which they were queued, so along a cycle through the start node that
 avoids a node d, there is always some node whose set lacks d.
 */
module SharedCallers {
  import opened Dominators
  import opened Lists
  import opened Optional

  /** A node other than the start dominates all reachable callers of the start, and there are some. */
  ghost predicate SharedBy(g: Graph, dir: TraverseDir, start: Node, d: Node) {
    && d != start
    && (exists u :: Reachable(g, dir, start, u) && g.Edge(dir, u, start))
    && forall u :: Reachable(g, dir, start, u) && g.Edge(dir, u, start) ==> Dominates(g, dir, start, d, u)
  }

  /** Such a node is reported as a dominator of the start node itself. */
  lemma SharedCallerDominator(g: Graph, dir: TraverseDir, start: Node, s: State, d: Node)
    requires g.Valid() && Inv(g, dir, start, s) && s.queue == [] && SharedBy(g, dir, start, d)
    ensures d in s.domMap[start].doms && !Exact(g, dir, start, s.domMap)
  {
    EndIsExact(g, dir, start, s);
    var u :| Reachable(g, dir, start, u) && g.Edge(dir, u, start);
    assert Balanced(g, dir, s.domMap, start);
    NewDomsContains(g, dir, s.domMap, start, d);
    assert HasInitialized(g, dir, s.domMap, start);
  }

  // ---------------------------------------------------------------- what queueing in order keeps

  /** Initialised, and not dominated by d as far as its set says. */
  predicate Lacks(m: DomMap, n: Node, d: Node) {
    Init(m, n) && d !in m[n].doms
  }

  /** A node that will be taken out of the queue before another one. */
  ghost predicate Before(queue: seq<Node>, y: Node, x: Node) {
    exists i :: 0 <= i < |queue| && queue[i] == y && x !in queue[..i + 1]
  }

  /** Whoever lacks d has passed this on, or is going to before it can be recomputed, or keeps
      lacking it because it calls itself. */
  ghost predicate PassedOn(g: Graph, dir: TraverseDir, s: State, d: Node) {
    forall x, y :: g.Edge(dir, x, y) && y != d && Lacks(s.domMap, x, d) && !g.Edge(dir, x, x)
                   ==> Lacks(s.domMap, y, d) || Before(s.queue, y, x)
  }

  lemma {:induction false} AddedBehind(s: State, outs: seq<Node>)
    requires Distinct(s.queue)
    ensures var r := AddToQueue(s, outs); s.queue <= r.queue && Distinct(r.queue)
    decreases |outs|
  {
    if outs != [] {
      var n := outs[0];
      var data := if n in s.domMap then s.domMap[n] else DEFAULT;
      var data' := if data.node.None? then data.(node := Some(n)) else data;
      var s' := State(s.domMap[n := data'], if n in s.queue then s.queue else s.queue + [n]);
      AddedBehind(s', outs[1..]);
    }
  }

  /** A step takes the head out, and appends what is not queued yet. */
  lemma StepQueue(g: Graph, dir: TraverseDir, s: State)
    requires Continues(g, s) && Distinct(s.queue)
    ensures s.queue[1..] <= Step(g, dir, s).queue && Distinct(Step(g, dir, s).queue)
    ensures s.queue[0] !in s.queue[1..]
  {
    var n := s.queue[0];
    var touched := Touch(s.domMap, g.Incoming(dir, n));
    var doms := NewDoms(g, dir, s.domMap, n);
    if !touched[n].initialized || touched[n].doms != doms {
      var changed := touched[n := touched[n].(doms := doms, initialized := true)];
      AddedBehind(State(changed, s.queue[1..]), g.Outgoing(dir, n));
    }
  }

  lemma BeforeStays(queue: seq<Node>, queue': seq<Node>, y: Node, x: Node)
    requires Before(queue, y, x) && y != queue[0] && queue[1..] <= queue'
    ensures Before(queue', y, x)
  {
    var i :| 0 <= i < |queue| && queue[i] == y && x !in queue[..i + 1];
    assert queue'[..i] == queue[1..][..i] == queue[..i + 1][1..];
    assert queue'[i - 1] == y && x !in queue'[..i - 1 + 1];
  }

  lemma HeadIsFirst(queue: seq<Node>, y: Node)
    requires queue != []
    ensures !Before(queue, y, queue[0])
  {
    forall i | 0 <= i < |queue| && queue[i] == y
      ensures queue[0] in queue[..i + 1]
    {
      assert queue[..i + 1][0] == queue[0];
    }
  }

  lemma IsBefore(queue: seq<Node>, y: Node, x: Node)
    requires y in queue && x !in queue
    ensures Before(queue, y, x)
  {
    var i :| 0 <= i < |queue| && queue[i] == y;
    assert x !in queue[..i + 1];
  }

  /** A recomputed node lacks d if some initialised caller does. */
  lemma LacksNext(g: Graph, dir: TraverseDir, m: DomMap, x: Node, y: Node, d: Node)
    requires g.Valid() && y in g.callees && g.Edge(dir, x, y) && y != d && Lacks(m, x, d)
    ensures d !in NewDoms(g, dir, m, y)
  {
    NewDomsContains(g, dir, m, y, d);
  }

  lemma PassedOnAt(g: Graph, dir: TraverseDir, start: Node, s: State, d: Node, x: Node, y: Node)
    requires g.Valid() && Inv(g, dir, start, s) && s.queue != [] && Distinct(s.queue) && PassedOn(g, dir, s, d)
    requires g.Edge(dir, x, y) && y != d && !g.Edge(dir, x, x) && Lacks(Step(g, dir, s).domMap, x, d)
    ensures Lacks(Step(g, dir, s).domMap, y, d) || Before(Step(g, dir, s).queue, y, x)
  {
    hide Inv, Graph.Valid, Graph.Edge, Step, NewDoms, Before, Distinct;
    InvHead(g, dir, start, s);
    StepResult(g, dir, s);
    StepQueue(g, dir, s);
    var r, h := Step(g, dir, s), s.queue[0];
    if y == h {
      LacksNext(g, dir, s.domMap, x, y, d);
    } else if x == h {
      HeadIsFirst(s.queue, y);
      if y in r.queue {
        IsBefore(r.queue, y, x);
      }
    } else if Before(s.queue, y, x) {
      BeforeStays(s.queue, r.queue, y, x);
    }
  }

  lemma StepPassesOn(g: Graph, dir: TraverseDir, start: Node, s: State, d: Node)
    requires g.Valid() && Inv(g, dir, start, s) && s.queue != [] && Distinct(s.queue) && PassedOn(g, dir, s, d)
    ensures PassedOn(g, dir, Step(g, dir, s), d) && Distinct(Step(g, dir, s).queue)
  {
    hide Inv, Graph.Valid, Graph.Edge, Step, Before;
    InvHead(g, dir, start, s);
    StepQueue(g, dir, s);
    forall x, y | g.Edge(dir, x, y) && y != d && Lacks(Step(g, dir, s).domMap, x, d) && !g.Edge(dir, x, x)
      ensures Lacks(Step(g, dir, s).domMap, y, d) || Before(Step(g, dir, s).queue, y, x)
    {
      PassedOnAt(g, dir, start, s, d, x, y);
    }
  }

  // ---------------------------------------------------------------- a cycle through the start node

  /** A path from the start to one of its callers that avoids d. */
  ghost predicate Cycle(g: Graph, dir: TraverseDir, start: Node, p: seq<Node>, d: Node) {
    p != [] && IsPath(g, dir, start, p, p[|p| - 1]) && g.Edge(dir, p[|p| - 1], start) && d !in p
  }

  function Next(p: seq<Node>, i: nat): Node
    requires i < |p|
  {
    if i + 1 < |p| then p[i + 1] else p[0]
  }

  lemma NextIsCalled(g: Graph, dir: TraverseDir, start: Node, p: seq<Node>, d: Node, i: nat)
    requires Cycle(g, dir, start, p, d) && i < |p|
    ensures g.Edge(dir, p[i], Next(p, i)) && Next(p, i) in p && Next(p, i) != d
  {
    if i + 1 < |p| {
      assert g.Edge(dir, p[i], p[i + 1]);
    }
  }

  ghost predicate SomeLacks(m: DomMap, p: seq<Node>, d: Node) {
    exists i :: 0 <= i < |p| && Lacks(m, p[i], d)
  }

  /** If the head is the node that lacks d, its successor on the cycle does so too by now. */
  lemma StepLeavesSome(g: Graph, dir: TraverseDir, start: Node, s: State, p: seq<Node>, d: Node)
    requires g.Valid() && Inv(g, dir, start, s) && s.queue != [] && Distinct(s.queue) && PassedOn(g, dir, s, d)
    requires Cycle(g, dir, start, p, d) && SomeLacks(s.domMap, p, d)
    ensures SomeLacks(Step(g, dir, s).domMap, p, d)
  {
    hide Inv, Graph.Valid, Graph.Edge, Step, NewDoms, Before, Distinct, Cycle, IsPath;
    InvHead(g, dir, start, s);
    StepResult(g, dir, s);
    var r, h := Step(g, dir, s), s.queue[0];
    var i :| 0 <= i < |p| && Lacks(s.domMap, p[i], d);
    if p[i] == h {
      NextIsCalled(g, dir, start, p, d, i);
      HeadIsFirst(s.queue, Next(p, i));
      var y := Next(p, i);
      if g.Edge(dir, h, h) {
        NotInCycle(g, dir, start, p, d, i);
        LacksNext(g, dir, s.domMap, h, h, d);
        assert Lacks(r.domMap, p[i], d);
      } else {
        var j :| 0 <= j < |p| && p[j] == y;
        assert Lacks(s.domMap, p[j], d) && p[j] != h;
        assert Lacks(r.domMap, p[j], d);
      }
    } else {
      assert Lacks(r.domMap, p[i], d);
    }
  }

  lemma NotInCycle(g: Graph, dir: TraverseDir, start: Node, p: seq<Node>, d: Node, i: nat)
    requires Cycle(g, dir, start, p, d) && i < |p|
    ensures p[i] != d
  {
  }

  /** Along every run: from the first iteration on, some node of the cycle lacks d. */
  lemma {:induction false} RunLeavesSome(g: Graph, dir: TraverseDir, start: Node, p: seq<Node>, d: Node, k: nat)
    requires g.Valid() && start in g.callees && Cycle(g, dir, start, p, d)
    ensures var s := RunOf(g, dir, start, k);
            Distinct(s.queue) && PassedOn(g, dir, s, d) && (k > 0 ==> SomeLacks(s.domMap, p, d))
  {
    hide Inv, Step, Graph.Valid, Graph.Edge, PassedOn, SomeLacks, Cycle;
    if k == 0 {
      NothingPassedOn(g, dir, start, d);
    } else {
      RunLeavesSome(g, dir, start, p, d, k - 1);
      RunKeepsInv(g, dir, start, k - 1);
      var s := RunOf(g, dir, start, k - 1);
      if s.queue != [] {
        StepPassesOn(g, dir, start, s, d);
        if k == 1 {
          StartLacks(g, dir, start, p, d);
        } else {
          StepLeavesSome(g, dir, start, s, p, d);
        }
      }
    }
  }

  lemma NothingPassedOn(g: Graph, dir: TraverseDir, start: Node, d: Node)
    ensures PassedOn(g, dir, Start(start), d) && Distinct(Start(start).queue)
  {
  }

  /** The first iteration gives the start node itself as its only dominator. */
  lemma StartLacks(g: Graph, dir: TraverseDir, start: Node, p: seq<Node>, d: Node)
    requires g.Valid() && start in g.callees && Cycle(g, dir, start, p, d)
    ensures Start(start).queue != [] && SomeLacks(Step(g, dir, Start(start)).domMap, p, d)
  {
    var s := Start(start);
    StepResult(g, dir, s);
    NewDomsContains(g, dir, s.domMap, start, d);
    assert p[0] == start && Lacks(Step(g, dir, s).domMap, p[0], d);
  }

  /** At the end of a run it goes all the way round. */
  lemma {:induction false} EndLacks(g: Graph, dir: TraverseDir, start: Node, s: State, p: seq<Node>, d: Node, i: nat)
    requires g.Valid() && Inv(g, dir, start, s) && s.queue == [] && Cycle(g, dir, start, p, d)
    requires i < |p| && Lacks(s.domMap, p[i], d)
    ensures Lacks(s.domMap, start, d)
    decreases |p| - i
  {
    hide Inv, Graph.Valid, Graph.Edge, NewDoms, Cycle;
    var y := Next(p, i);
    NextIsCalled(g, dir, start, p, d, i);
    InvQueues(g, dir, start, s, p[i], y);
    InvBalances(g, dir, start, s, y);
    LacksNext(g, dir, s.domMap, p[i], y, d);
    if i + 1 < |p| {
      EndLacks(g, dir, start, s, p, d, i + 1);
    } else {
      CycleStarts(g, dir, start, p, d);
    }
  }

  lemma CycleStarts(g: Graph, dir: TraverseDir, start: Node, p: seq<Node>, d: Node)
    requires Cycle(g, dir, start, p, d)
    ensures p[0] == start
  {
  }

  /** A node that ends up in the start node's set dominates all its callers. */
  lemma OnlyShared(g: Graph, dir: TraverseDir, start: Node, k: nat, d: Node)
    requires g.Valid() && start in g.callees && RunOf(g, dir, start, k).queue == []
    requires d != start && d in DomsOf(RunOf(g, dir, start, k).domMap, start)
    ensures SharedBy(g, dir, start, d)
  {
    hide Graph.Valid, Graph.Edge;
    var s := RunOf(g, dir, start, k);
    RunKeepsInv(g, dir, start, k);
    EndIsExact(g, dir, start, s);
    StartHasCaller(g, dir, start, s, d);
    forall u | Reachable(g, dir, start, u) && g.Edge(dir, u, start)
      ensures Dominates(g, dir, start, d, u)
    {
      forall p | IsPath(g, dir, start, p, u)
        ensures d in p
      {
        if d !in p {
          RunLeavesSome(g, dir, start, p, d, k);
          var i :| 0 <= i < |p| && Lacks(s.domMap, p[i], d);
          EndLacks(g, dir, start, s, p, d, i);
          assert false;
        }
      }
    }
  }

  lemma StartHasCaller(g: Graph, dir: TraverseDir, start: Node, s: State, d: Node)
    requires g.Valid() && Inv(g, dir, start, s) && s.queue == []
    requires d != start && d in DomsOf(s.domMap, start)
    ensures exists u :: Reachable(g, dir, start, u) && g.Edge(dir, u, start)
  {
    NewDomsContains(g, dir, s.domMap, start, d);
    assert Balanced(g, dir, s.domMap, start);
    var u :| Init(s.domMap, u) && g.Edge(dir, u, start);
  }

  /** For every graph, direction and start node: a run that ends is exact if and only if no other
      node dominates all reachable callers of the start node. */
  lemma EveryRun(g: Graph, dir: TraverseDir, start: Node, k: nat)
    requires g.Valid() && start in g.callees && RunOf(g, dir, start, k).queue == []
    ensures Exact(g, dir, start, RunOf(g, dir, start, k).domMap) <==> !exists d :: SharedBy(g, dir, start, d)
  {
    hide Graph.Valid, Graph.Edge, SharedBy, Exact;
    var s := RunOf(g, dir, start, k);
    RunKeepsInv(g, dir, start, k);
    EndIsExact(g, dir, start, s);
    if d :| SharedBy(g, dir, start, d) {
      SharedCallerDominator(g, dir, start, s, d);
    } else {
      StartInItself(g, dir, start, s);
      forall d | d in s.domMap[start].doms
        ensures d == start
      {
        if d != start {
          OnlyShared(g, dir, start, k, d);
        }
      }
      assert s.domMap[start].doms == {start};
    }
  }

  lemma StartInItself(g: Graph, dir: TraverseDir, start: Node, s: State)
    requires g.Valid() && Inv(g, dir, start, s) && s.queue == []
    ensures start in s.domMap && start in s.domMap[start].doms
  {
    assert Balanced(g, dir, s.domMap, start);
  }
}
