/**
 Dominators by a work list (graph/include/DominatorAnalysis.h).

 The result is compared with the definition by paths: d dominates n when every path from the
 start node to n passes through d.
 */
module Dominators {
  import CallPaths
  import opened Optional

  type Node = nat

  datatype TraverseDir = Forward | Backward

  /** Callees and callers of every node, each in the order in which they are enumerated. */
  datatype Graph = Graph(callees: map<Node, seq<Node>>, callers: map<Node, seq<Node>>)
  {
    ghost predicate Valid() {
      && callees.Keys == callers.Keys
      && (forall u, v :: u in callees && v in callees[u] ==> v in callers && u in callers[v])
      && (forall u, v :: v in callers && u in callers[v] ==> u in callees && v in callees[u])
    }

    function Outgoing(dir: TraverseDir, n: Node): seq<Node>
      requires n in callees && n in callers
    {
      if dir == Backward then callers[n] else callees[n]
    }

    function Incoming(dir: TraverseDir, n: Node): seq<Node>
      requires n in callees && n in callers
    {
      if dir == Forward then callers[n] else callees[n]
    }

    predicate Edge(dir: TraverseDir, u: Node, v: Node) {
      u in callees && u in callers && v in Outgoing(dir, u)
    }

    function Edges(dir: TraverseDir): (r: set<(Node, Node)>)
      ensures forall u: Node, v: Node :: (u, v) in r <==> Edge(dir, u, v)
    {
      set u, v | u in callees && u in callers && v in Outgoing(dir, u) :: (u, v)
    }
  }

  lemma EdgeBothWays(g: Graph, dir: TraverseDir)
    requires g.Valid()
    ensures forall u, v :: g.Edge(dir, u, v) ==> v in g.callees && v in g.callers && u in g.Incoming(dir, v)
    ensures forall u, v :: v in g.callees && u in g.Incoming(dir, v) ==> g.Edge(dir, u, v)
  {
  }

  // ---------------------------------------------------------------- paths

  ghost predicate IsPath(g: Graph, dir: TraverseDir, start: Node, p: seq<Node>, n: Node) {
    CallPaths.IsPath(g.Edges(dir), start, p, n)
  }

  ghost predicate Reachable(g: Graph, dir: TraverseDir, start: Node, n: Node) {
    CallPaths.Reaches(g.Edges(dir), start, n)
  }

  ghost predicate Dominates(g: Graph, dir: TraverseDir, start: Node, d: Node, n: Node) {
    forall p :: IsPath(g, dir, start, p, n) ==> d in p
  }

  lemma PathExtends(g: Graph, dir: TraverseDir, start: Node, p: seq<Node>, u: Node, v: Node)
    requires IsPath(g, dir, start, p, u) && g.Edge(dir, u, v)
    ensures IsPath(g, dir, start, p + [v], v)
  {
  }

  lemma PathShrinks(g: Graph, dir: TraverseDir, start: Node, p: seq<Node>, n: Node)
    requires IsPath(g, dir, start, p, n) && |p| > 1
    ensures IsPath(g, dir, start, p[..|p| - 1], p[|p| - 2]) && g.Edge(dir, p[|p| - 2], n)
  {
  }

  lemma ReachableStep(g: Graph, dir: TraverseDir, start: Node, u: Node, v: Node)
    requires Reachable(g, dir, start, u) && g.Edge(dir, u, v)
    ensures Reachable(g, dir, start, v)
  {
    var p :| CallPaths.IsPath(g.Edges(dir), start, p, u);
    PathExtends(g, dir, start, p, u, v);
  }

  lemma StartPath(g: Graph, dir: TraverseDir, start: Node)
    ensures IsPath(g, dir, start, [start], start)
    ensures Reachable(g, dir, start, start)
    ensures forall d :: Dominates(g, dir, start, d, start) <==> d == start
  {
    assert IsPath(g, dir, start, [start], start);
  }

  /** A dominator of a node other than itself dominates every predecessor. */
  lemma DominatesPredecessor(g: Graph, dir: TraverseDir, start: Node, d: Node, u: Node, n: Node)
    requires Dominates(g, dir, start, d, n) && d != n && g.Edge(dir, u, n)
    ensures Dominates(g, dir, start, d, u)
  {
    forall p | IsPath(g, dir, start, p, u)
      ensures d in p
    {
      PathExtends(g, dir, start, p, u, n);
      assert d in p + [n];
    }
  }

  // ---------------------------------------------------------------- intersections

  /** The common elements, by a scan of one container. */
  method UnorderedIntersection(a: set<Node>, b: set<Node>) returns (result: set<Node>)
    ensures result == a * b
  {
    result := {};
    var rest := a;
    while rest != {}
      invariant rest <= a && result == (a - rest) * b
      decreases rest
    {
      var item :| item in rest;
      if item in b {
        result := result + {item};
      }
      rest := rest - {item};
    }
  }

  datatype DomData = DomData(node: Option<Node>, doms: set<Node>, initialized: bool)

  const DEFAULT := DomData(None, {}, false)

  type DomMap = map<Node, DomData>

  predicate Init(m: DomMap, n: Node) {
    n in m && m[n].initialized
  }

  function DomsOf(m: DomMap, n: Node): set<Node> {
    if n in m then m[n].doms else {}
  }

  /** The nodes that every listed node has as a dominator; none for an empty list. */
  function Meet(nodes: seq<Node>, m: DomMap): set<Node> {
    if nodes == [] then {}
    else if |nodes| == 1 then DomsOf(m, nodes[0])
    else Meet(nodes[..|nodes| - 1], m) * DomsOf(m, nodes[|nodes| - 1])
  }

  lemma {:induction false} MeetContains(nodes: seq<Node>, m: DomMap, d: Node)
    ensures d in Meet(nodes, m) <==> nodes != [] && forall k :: 0 <= k < |nodes| ==> d in DomsOf(m, nodes[k])
  {
    if |nodes| > 1 {
      var init := nodes[..|nodes| - 1];
      MeetContains(init, m, d);
      assert forall k :: 0 <= k < |init| ==> init[k] == nodes[k];
    }
  }

  method Intersection(nodes: seq<Node>, m: DomMap) returns (r: set<Node>)
    requires forall k :: 0 <= k < |nodes| ==> nodes[k] in m
    ensures r == Meet(nodes, m)
  {
    if nodes == [] {
      return {};
    }
    r := m[nodes[0]].doms;
    assert nodes[..1] == [nodes[0]];
    for i := 1 to |nodes|
      invariant r == Meet(nodes[..i], m)
    {
      assert nodes[..i + 1][..i] == nodes[..i];
      r := UnorderedIntersection(r, m[nodes[i]].doms);
    }
    assert nodes[..|nodes|] == nodes;
  }

  // ---------------------------------------------------------------- one iteration

  datatype State = State(domMap: DomMap, queue: seq<Node>)

  /** Looking a node up creates a default entry for it. */
  function Touch(m: DomMap, nodes: seq<Node>): (r: DomMap)
    ensures forall n :: n in r <==> n in m || n in nodes
    ensures forall n :: n in r ==> r[n] == if n in m then m[n] else DEFAULT
  {
    map n | n in m.Keys + (set k | k in nodes) :: if n in m then m[n] else DEFAULT
  }

  function Initialized(m: DomMap, nodes: seq<Node>): (r: seq<Node>)
    ensures forall n :: n in r <==> n in nodes && Init(m, n)
  {
    if nodes == [] then []
    else
      var last := nodes[|nodes| - 1];
      var init := Initialized(m, nodes[..|nodes| - 1]);
      assert nodes == nodes[..|nodes| - 1] + [last];
      if Init(m, last) then init + [last] else init
  }

  /** What the equations make of a node: itself and what all initialised predecessors share. */
  function NewDoms(g: Graph, dir: TraverseDir, m: DomMap, n: Node): set<Node>
    requires n in g.callees && n in g.callers
  {
    Meet(Initialized(m, g.Incoming(dir, n)), m) + {n}
  }

  /** Appends the listed nodes that are not queued yet, and notes which node an entry is for. */
  function AddToQueue(s: State, outs: seq<Node>): (r: State)
    decreases |outs|
  {
    if outs == [] then s
    else
      var n := outs[0];
      var data := if n in s.domMap then s.domMap[n] else DEFAULT;
      var data' := if data.node.None? then data.(node := Some(n)) else data;
      var s' := State(s.domMap[n := data'], if n in s.queue then s.queue else s.queue + [n]);
      AddToQueue(s', outs[1..])
  }

  function Step(g: Graph, dir: TraverseDir, s: State): State
    requires s.queue != [] && s.queue[0] in g.callees && s.queue[0] in g.callers && s.queue[0] in s.domMap
  {
    var n := s.queue[0];
    var touched := Touch(s.domMap, g.Incoming(dir, n));
    var doms := NewDoms(g, dir, s.domMap, n);
    if !touched[n].initialized || touched[n].doms != doms then
      var changed := touched[n := touched[n].(doms := doms, initialized := true)];
      AddToQueue(State(changed, s.queue[1..]), g.Outgoing(dir, n))
    else
      State(touched, s.queue[1..])
  }

  function Start(start: Node): State {
    State(map[start := DomData(Some(start), {}, false)], [start])
  }

  // ---------------------------------------------------------------- what every iteration keeps

  /** The queue and the map hold nodes of the graph that the start node reaches; the equations
      hold wherever nothing is queued, and no dominator is ever missing. */
  ghost predicate Inv(g: Graph, dir: TraverseDir, start: Node, s: State) {
    && (forall n :: n in s.queue ==> n in s.domMap && n in g.callees && Reachable(g, dir, start, n))
    && (forall n :: Init(s.domMap, n) ==> n in g.callees && Reachable(g, dir, start, n))
    && (Init(s.domMap, start) || start in s.queue)
    && (forall n :: (Init(s.domMap, n) || n in s.queue) && n != start ==> HasInitialized(g, dir, s.domMap, n))
    && (forall u, v :: Init(s.domMap, u) && g.Edge(dir, u, v) ==> Init(s.domMap, v) || v in s.queue)
    && (forall n :: Init(s.domMap, n) && n !in s.queue ==> Balanced(g, dir, s.domMap, n))
    && (forall d, n :: Init(s.domMap, n) && Dominates(g, dir, start, d, n) ==> d in s.domMap[n].doms)
  }

  ghost predicate HasInitialized(g: Graph, dir: TraverseDir, m: DomMap, n: Node) {
    exists u :: Init(m, u) && g.Edge(dir, u, n)
  }

  ghost predicate Balanced(g: Graph, dir: TraverseDir, m: DomMap, n: Node) {
    n in m && n in g.callees && n in g.callers && m[n].doms == NewDoms(g, dir, m, n)
  }

  /** An element of the new set other than the node itself is shared by the predecessors. */
  lemma NewDomsContains(g: Graph, dir: TraverseDir, m: DomMap, n: Node, d: Node)
    requires g.Valid() && n in g.callees
    ensures d in NewDoms(g, dir, m, n) <==>
            d == n || (HasInitialized(g, dir, m, n) && forall u :: Init(m, u) && g.Edge(dir, u, n) ==> d in m[u].doms)
  {
    var us := Initialized(m, g.Incoming(dir, n));
    IncomingEdges(g, dir, n);
    hide Graph.Valid, Graph.Edge, Meet;
    assert forall u :: u in us <==> Init(m, u) && g.Edge(dir, u, n);
    MeetOver(us, m, d);
    if us != [] {
      assert us[0] in us && HasInitialized(g, dir, m, n);
    }
  }

  lemma MeetOver(us: seq<Node>, m: DomMap, d: Node)
    requires forall u :: u in us ==> u in m
    ensures d in Meet(us, m) <==> us != [] && forall u :: u in us ==> d in m[u].doms
  {
  }

  lemma IncomingEdges(g: Graph, dir: TraverseDir, n: Node)
    requires g.Valid() && n in g.callees
    ensures n in g.callers && forall u :: u in g.Incoming(dir, n) <==> g.Edge(dir, u, n)
  {
  }

  lemma NewDomsSame(g: Graph, dir: TraverseDir, m: DomMap, m': DomMap, n: Node)
    requires g.Valid() && n in g.callees
    requires forall u :: g.Edge(dir, u, n) ==> Init(m, u) == Init(m', u) && (Init(m, u) ==> m[u].doms == m'[u].doms)
    ensures NewDoms(g, dir, m, n) == NewDoms(g, dir, m', n)
  {
    forall d
      ensures d in NewDoms(g, dir, m, n) <==> d in NewDoms(g, dir, m', n)
    {
      NewDomsContains(g, dir, m, n, d);
      NewDomsContains(g, dir, m', n, d);
    }
  }

  lemma {:induction false} AddToQueueResult(s: State, outs: seq<Node>)
    ensures var r := AddToQueue(s, outs);
            && (forall n :: n in r.queue <==> n in s.queue || n in outs)
            && (forall n :: n in r.domMap <==> n in s.domMap || n in outs)
            && (forall n :: Init(r.domMap, n) == Init(s.domMap, n))
            && (forall n :: n in s.domMap ==> r.domMap[n].doms == s.domMap[n].doms)
    decreases |outs|
  {
    if outs != [] {
      var n := outs[0];
      var data := if n in s.domMap then s.domMap[n] else DEFAULT;
      var data' := if data.node.None? then data.(node := Some(n)) else data;
      var s' := State(s.domMap[n := data'], if n in s.queue then s.queue else s.queue + [n]);
      AddToQueueResult(s', outs[1..]);
      assert outs == [n] + outs[1..];
    }
  }

  /** One iteration, by its effect on the queue and on the sets. */
  lemma StepResult(g: Graph, dir: TraverseDir, s: State)
    requires g.Valid() && s.queue != [] && s.queue[0] in g.callees && s.queue[0] in s.domMap
    ensures var r, n := Step(g, dir, s), s.queue[0];
            var doms := NewDoms(g, dir, s.domMap, n);
            var changed := !s.domMap[n].initialized || s.domMap[n].doms != doms;
            && Init(r.domMap, n) && r.domMap[n].doms == doms
            && (forall k :: k in s.domMap ==> k in r.domMap)
            && (forall k :: k != n ==> Init(r.domMap, k) == Init(s.domMap, k))
            && (forall k :: k != n && Init(s.domMap, k) ==> r.domMap[k].doms == s.domMap[k].doms)
            && (forall k :: k in r.queue <==> k in s.queue[1..] || (changed && g.Edge(dir, n, k)))
            && (changed ==> forall k :: g.Edge(dir, n, k) ==> k in r.domMap)
            && (!changed ==> |r.queue| == |s.queue| - 1)
  {
    var n := s.queue[0];
    var touched := Touch(s.domMap, g.Incoming(dir, n));
    var doms := NewDoms(g, dir, s.domMap, n);
    if !touched[n].initialized || touched[n].doms != doms {
      var changed := touched[n := touched[n].(doms := doms, initialized := true)];
      AddToQueueResult(State(changed, s.queue[1..]), g.Outgoing(dir, n));
    }
  }

  lemma StartInv(g: Graph, dir: TraverseDir, start: Node)
    requires start in g.callees
    ensures Inv(g, dir, start, Start(start))
  {
    StartPath(g, dir, start);
  }

  /** The head of the queue gets no dominator too few. */
  lemma NothingMissing(g: Graph, dir: TraverseDir, start: Node, s: State, n: Node, d: Node)
    requires g.Valid() && Inv(g, dir, start, s) && n in s.queue && Dominates(g, dir, start, d, n)
    ensures d in NewDoms(g, dir, s.domMap, n)
  {
    NewDomsContains(g, dir, s.domMap, n, d);
    if n == start {
      StartPath(g, dir, start);
    } else if d != n {
      forall u | Init(s.domMap, u) && g.Edge(dir, u, n)
        ensures d in s.domMap[u].doms
      {
        DominatesPredecessor(g, dir, start, d, u, n);
      }
    }
  }

  lemma InvHead(g: Graph, dir: TraverseDir, start: Node, s: State)
    requires g.Valid() && Inv(g, dir, start, s) && s.queue != []
    ensures s.queue[0] in s.domMap && s.queue[0] in g.callees && s.queue[0] in g.callers
    ensures forall n :: n in s.queue <==> n == s.queue[0] || n in s.queue[1..]
  {
  }

  lemma InvReaches(g: Graph, dir: TraverseDir, start: Node, s: State)
    requires Inv(g, dir, start, s)
    ensures forall n :: n in s.queue ==> n in s.domMap && n in g.callees && Reachable(g, dir, start, n)
    ensures forall n :: Init(s.domMap, n) ==> n in g.callees && Reachable(g, dir, start, n)
    ensures Init(s.domMap, start) || start in s.queue
  {
  }

  lemma StepReaches(g: Graph, dir: TraverseDir, start: Node, s: State)
    requires g.Valid() && Inv(g, dir, start, s) && s.queue != []
    ensures var r := Step(g, dir, s);
            && (forall n :: n in r.queue ==> n in r.domMap && n in g.callees && Reachable(g, dir, start, n))
            && (forall n :: Init(r.domMap, n) ==> n in g.callees && Reachable(g, dir, start, n))
            && (Init(r.domMap, start) || start in r.queue)
  {
    hide Inv, Graph.Valid, Graph.Edge, Reachable, Step, NewDoms;
    InvHead(g, dir, start, s);
    InvReaches(g, dir, start, s);
    var r, x := Step(g, dir, s), s.queue[0];
    EdgeBothWays(g, dir);
    StepResult(g, dir, s);
    forall n | n in r.queue
      ensures n in r.domMap && n in g.callees && Reachable(g, dir, start, n)
    {
      if n !in s.queue[1..] {
        ReachableStep(g, dir, start, x, n);
      }
    }
  }

  lemma InvFeeds(g: Graph, dir: TraverseDir, start: Node, s: State, n: Node)
    requires Inv(g, dir, start, s) && (Init(s.domMap, n) || n in s.queue) && n != start
    ensures HasInitialized(g, dir, s.domMap, n)
  {
  }

  lemma StepFeeds(g: Graph, dir: TraverseDir, start: Node, s: State, n: Node)
    requires g.Valid() && Inv(g, dir, start, s) && s.queue != []
    requires (Init(Step(g, dir, s).domMap, n) || n in Step(g, dir, s).queue) && n != start
    ensures HasInitialized(g, dir, Step(g, dir, s).domMap, n)
  {
    hide Inv, Graph.Valid, Graph.Edge, Reachable, Step, NewDoms, Balanced, Dominates;
    InvHead(g, dir, start, s);
    var r, x := Step(g, dir, s), s.queue[0];
    StepResult(g, dir, s);
    if Init(s.domMap, n) || n in s.queue {
      InvFeeds(g, dir, start, s, n);
      var u :| Init(s.domMap, u) && g.Edge(dir, u, n);
      assert Init(r.domMap, u);
    } else {
      assert g.Edge(dir, x, n);
    }
  }

  lemma InvQueues(g: Graph, dir: TraverseDir, start: Node, s: State, u: Node, v: Node)
    requires Inv(g, dir, start, s) && Init(s.domMap, u) && g.Edge(dir, u, v)
    ensures Init(s.domMap, v) || v in s.queue
  {
  }

  lemma StepQueues(g: Graph, dir: TraverseDir, start: Node, s: State, u: Node, v: Node)
    requires g.Valid() && Inv(g, dir, start, s) && s.queue != []
    requires Init(Step(g, dir, s).domMap, u) && g.Edge(dir, u, v)
    ensures Init(Step(g, dir, s).domMap, v) || v in Step(g, dir, s).queue
  {
    hide Inv, Graph.Valid, Graph.Edge, Step, NewDoms;
    InvHead(g, dir, start, s);
    StepResult(g, dir, s);
    if Init(s.domMap, u) {
      InvQueues(g, dir, start, s, u, v);
    }
  }

  lemma InvBalances(g: Graph, dir: TraverseDir, start: Node, s: State, n: Node)
    requires Inv(g, dir, start, s) && Init(s.domMap, n) && n !in s.queue
    ensures Balanced(g, dir, s.domMap, n)
  {
  }

  /** A node that is not queued after a step has the predecessors it had. */
  lemma PredecessorKept(g: Graph, dir: TraverseDir, start: Node, s: State, n: Node, u: Node)
    requires g.Valid() && Inv(g, dir, start, s) && s.queue != []
    requires n !in Step(g, dir, s).queue && g.Edge(dir, u, n)
    ensures Init(s.domMap, u) == Init(Step(g, dir, s).domMap, u)
    ensures Init(s.domMap, u) ==> s.domMap[u].doms == Step(g, dir, s).domMap[u].doms
  {
    hide Inv, Graph.Valid, Graph.Edge, Step, NewDoms;
    InvHead(g, dir, start, s);
    StepResult(g, dir, s);
  }

  lemma StepBalances(g: Graph, dir: TraverseDir, start: Node, s: State, n: Node)
    requires g.Valid() && Inv(g, dir, start, s) && s.queue != []
    requires Init(Step(g, dir, s).domMap, n) && n !in Step(g, dir, s).queue
    ensures Balanced(g, dir, Step(g, dir, s).domMap, n)
  {
    hide Inv, Graph.Valid, Graph.Edge, Step, NewDoms;
    InvHead(g, dir, start, s);
    var r, x := Step(g, dir, s), s.queue[0];
    StepResult(g, dir, s);
    if n != x {
      InvBalances(g, dir, start, s, n);
    }
    InBothMaps(g, n);
    forall u | g.Edge(dir, u, n)
      ensures Init(s.domMap, u) == Init(r.domMap, u)
      ensures Init(s.domMap, u) ==> s.domMap[u].doms == r.domMap[u].doms
    {
      PredecessorKept(g, dir, start, s, n, u);
    }
    NewDomsSame(g, dir, s.domMap, r.domMap, n);
  }

  lemma InBothMaps(g: Graph, n: Node)
    requires g.Valid() && n in g.callees
    ensures n in g.callers
  {
  }

  lemma StepMissesNone(g: Graph, dir: TraverseDir, start: Node, s: State, n: Node, d: Node)
    requires g.Valid() && Inv(g, dir, start, s) && s.queue != []
    requires Init(Step(g, dir, s).domMap, n) && Dominates(g, dir, start, d, n)
    ensures d in Step(g, dir, s).domMap[n].doms
  {
    StepResult(g, dir, s);
    if n == s.queue[0] {
      NothingMissing(g, dir, start, s, n, d);
    }
  }

  /** The seven parts make the invariant. */
  lemma InvHolds(g: Graph, dir: TraverseDir, start: Node, s: State)
    requires forall n :: n in s.queue ==> n in s.domMap && n in g.callees && Reachable(g, dir, start, n)
    requires forall n :: Init(s.domMap, n) ==> n in g.callees && Reachable(g, dir, start, n)
    requires Init(s.domMap, start) || start in s.queue
    requires forall n :: (Init(s.domMap, n) || n in s.queue) && n != start ==> HasInitialized(g, dir, s.domMap, n)
    requires forall u, v :: Init(s.domMap, u) && g.Edge(dir, u, v) ==> Init(s.domMap, v) || v in s.queue
    requires forall n :: Init(s.domMap, n) && n !in s.queue ==> Balanced(g, dir, s.domMap, n)
    requires forall d, n :: Init(s.domMap, n) && Dominates(g, dir, start, d, n) ==> d in s.domMap[n].doms
    ensures Inv(g, dir, start, s)
  {
  }

  lemma StepKeepsInv(g: Graph, dir: TraverseDir, start: Node, s: State)
    requires g.Valid() && Inv(g, dir, start, s) && s.queue != []
    ensures Inv(g, dir, start, Step(g, dir, s))
  {
    hide Inv, Step, Reachable, Dominates, HasInitialized, Balanced, Graph.Edge, Graph.Valid;
    InvHead(g, dir, start, s);
    var r := Step(g, dir, s);
    StepReaches(g, dir, start, s);
    forall n | (Init(r.domMap, n) || n in r.queue) && n != start
      ensures HasInitialized(g, dir, r.domMap, n)
    {
      StepFeeds(g, dir, start, s, n);
    }
    forall u, v | Init(r.domMap, u) && g.Edge(dir, u, v)
      ensures Init(r.domMap, v) || v in r.queue
    {
      StepQueues(g, dir, start, s, u, v);
    }
    forall n | Init(r.domMap, n) && n !in r.queue
      ensures Balanced(g, dir, r.domMap, n)
    {
      StepBalances(g, dir, start, s, n);
    }
    forall d, n | Init(r.domMap, n) && Dominates(g, dir, start, d, n)
      ensures d in r.domMap[n].doms
    {
      StepMissesNone(g, dir, start, s, n, d);
    }
    InvHolds(g, dir, start, r);
  }

  // ---------------------------------------------------------------- the end of a run

  /** The initialised nodes are those the start node reaches, and each has exactly its
      dominators. */
  ghost predicate Exact(g: Graph, dir: TraverseDir, start: Node, m: DomMap) {
    && (forall n :: Init(m, n) <==> Reachable(g, dir, start, n))
    && (forall d, n :: Init(m, n) ==> (d in m[n].doms <==> Dominates(g, dir, start, d, n)))
  }

  lemma {:induction false} PathInitialized(g: Graph, dir: TraverseDir, start: Node, s: State, p: seq<Node>, n: Node)
    requires Inv(g, dir, start, s) && s.queue == [] && IsPath(g, dir, start, p, n)
    ensures Init(s.domMap, n)
    decreases |p|
  {
    if |p| > 1 {
      PathShrinks(g, dir, start, p, n);
      PathInitialized(g, dir, start, s, p[..|p| - 1], p[|p| - 2]);
    }
  }

  lemma {:induction false} DomsOnPath(g: Graph, dir: TraverseDir, start: Node, s: State, p: seq<Node>, n: Node, d: Node)
    requires g.Valid() && Inv(g, dir, start, s) && s.queue == [] && IsPath(g, dir, start, p, n)
    requires Init(s.domMap, start) && s.domMap[start].doms == {start}
    requires Init(s.domMap, n) && d in s.domMap[n].doms
    ensures d in p
    decreases |p|
  {
    if |p| > 1 && d != n {
      var q, u := p[..|p| - 1], p[|p| - 2];
      PathShrinks(g, dir, start, p, n);
      PathInitialized(g, dir, start, s, q, u);
      assert Balanced(g, dir, s.domMap, n);
      NewDomsContains(g, dir, s.domMap, n, d);
      DomsOnPath(g, dir, start, s, q, u, d);
    } else {
      assert p[|p| - 1] == n && p[0] == start;
    }
  }

  lemma EndReaches(g: Graph, dir: TraverseDir, start: Node, s: State)
    requires g.Valid() && Inv(g, dir, start, s) && s.queue == []
    ensures forall n :: Init(s.domMap, n) <==> Reachable(g, dir, start, n)
  {
    hide Inv, Graph.Valid, Graph.Edges;
    InvReaches(g, dir, start, s);
    forall n | Reachable(g, dir, start, n)
      ensures Init(s.domMap, n)
    {
      var p :| CallPaths.IsPath(g.Edges(dir), start, p, n);
      PathInitialized(g, dir, start, s, p, n);
    }
  }

  lemma InvMissesNone(g: Graph, dir: TraverseDir, start: Node, s: State, n: Node, d: Node)
    requires Inv(g, dir, start, s) && Init(s.domMap, n) && Dominates(g, dir, start, d, n)
    ensures d in s.domMap[n].doms
  {
  }

  /** A run that ends is exact if and only if the start node is its own only dominator. */
  lemma EndIsExact(g: Graph, dir: TraverseDir, start: Node, s: State)
    requires g.Valid() && Inv(g, dir, start, s) && s.queue == []
    ensures Exact(g, dir, start, s.domMap) <==> s.domMap[start].doms == {start}
    ensures forall n :: Init(s.domMap, n) <==> Reachable(g, dir, start, n)
  {
    hide Inv, Graph.Valid, IsPath, Reachable;
    EndReaches(g, dir, start, s);
    StartPath(g, dir, start);
    if s.domMap[start].doms == {start} {
      forall d, n | Init(s.domMap, n)
        ensures d in s.domMap[n].doms <==> Dominates(g, dir, start, d, n)
      {
        if Dominates(g, dir, start, d, n) {
          InvMissesNone(g, dir, start, s, n, d);
        } else {
          var p :| IsPath(g, dir, start, p, n) && d !in p;
          if d in s.domMap[n].doms {
            DomsOnPath(g, dir, start, s, p, n, d);
          }
        }
      }
    }
    if Exact(g, dir, start, s.domMap) {
      forall d
        ensures d in s.domMap[start].doms <==> d == start
      {
      }
    }
  }

  // ---------------------------------------------------------------- runs

  ghost predicate Continues(g: Graph, s: State) {
    s.queue != [] && s.queue[0] in g.callees && s.queue[0] in g.callers && s.queue[0] in s.domMap
  }

  /** The state after `k` iterations, or the last one if the queue runs empty before. */
  ghost function RunOf(g: Graph, dir: TraverseDir, start: Node, k: nat): State {
    if k == 0 then Start(start)
    else
      var s := RunOf(g, dir, start, k - 1);
      if Continues(g, s) then Step(g, dir, s) else s
  }

  lemma {:induction false} RunKeepsInv(g: Graph, dir: TraverseDir, start: Node, k: nat)
    requires g.Valid() && start in g.callees
    ensures Inv(g, dir, start, RunOf(g, dir, start, k))
    ensures Continues(g, RunOf(g, dir, start, k)) <==> RunOf(g, dir, start, k).queue != []
  {
    hide Inv, Step, Graph.Valid;
    if k == 0 {
      StartInv(g, dir, start);
    } else {
      RunKeepsInv(g, dir, start, k - 1);
      var s := RunOf(g, dir, start, k - 1);
      if s.queue != [] {
        StepKeepsInv(g, dir, start, s);
      }
    }
    InvContinues(g, dir, start, RunOf(g, dir, start, k));
  }

  lemma InvContinues(g: Graph, dir: TraverseDir, start: Node, s: State)
    requires g.Valid() && Inv(g, dir, start, s)
    ensures Continues(g, s) <==> s.queue != []
  {
    assert s.queue != [] ==> s.queue[0] in s.queue;
  }

  // ---------------------------------------------------------------- termination

  /** No node that the start node reaches leads back to it, or the start node calls itself: then
      its own set is among those that are intersected, whoever else calls it. */
  ghost predicate EntryStays(g: Graph, dir: TraverseDir, start: Node) {
    g.Edge(dir, start, start) || forall u :: Reachable(g, dir, start, u) ==> !g.Edge(dir, u, start)
  }

  /** Sets only shrink: recomputing a set never adds to it. */
  ghost predicate Shrinking(g: Graph, dir: TraverseDir, start: Node, m: DomMap) {
    && (forall n :: Init(m, n) && n in g.callees && n in g.callers ==> NewDoms(g, dir, m, n) <= m[n].doms)
    && (forall n :: Init(m, n) ==> m[n].doms <= g.callees.Keys)
    && (forall n :: Init(m, n) ==> Init(m, start))
    && (Init(m, start) ==> m[start].doms == {start})
  }

  /** What can still be removed: an uninitialised node counts as having every dominator, and
      more. */
  ghost function Removable(g: Graph, m: DomMap): set<(Node, Option<Node>)> {
    (set n | n in g.callees && !Init(m, n) :: (n, None))
    + (set n, d | n in g.callees && d in g.callees && (Init(m, n) ==> d in m[n].doms) :: (n, Some(d)))
  }

  lemma HeadShrinks(g: Graph, dir: TraverseDir, start: Node, s: State)
    requires g.Valid() && Inv(g, dir, start, s) && Shrinking(g, dir, start, s.domMap) && s.queue != []
    requires EntryStays(g, dir, start)
    ensures var x := s.queue[0];
            var doms := NewDoms(g, dir, s.domMap, x);
            && doms <= g.callees.Keys
            && (x == start ==> doms == {start})
            && (Init(s.domMap, x) ==> doms <= s.domMap[x].doms)
  {
    var x := s.queue[0];
    assert x in s.queue;
    forall d | d in NewDoms(g, dir, s.domMap, x)
      ensures d in g.callees && (x == start ==> d == start)
    {
      NewDomsContains(g, dir, s.domMap, x, d);
      if d != x {
        var u :| Init(s.domMap, u) && g.Edge(dir, u, x);
        assert d in s.domMap[u].doms;
      }
    }
    NewDomsContains(g, dir, s.domMap, x, x);
  }

  /** Before the start node is initialised, it alone is queued. */
  lemma InvEntry(g: Graph, dir: TraverseDir, start: Node, s: State)
    requires Inv(g, dir, start, s) && s.queue != []
    requires forall n :: Init(s.domMap, n) ==> Init(s.domMap, start)
    ensures Init(s.domMap, start) || s.queue[0] == start
  {
    if s.queue[0] != start {
      InvFeeds(g, dir, start, s, s.queue[0]);
    }
  }

  lemma StepKeepsShrinking(g: Graph, dir: TraverseDir, start: Node, s: State)
    requires g.Valid() && Inv(g, dir, start, s) && Shrinking(g, dir, start, s.domMap) && s.queue != []
    requires EntryStays(g, dir, start)
    ensures Shrinking(g, dir, start, Step(g, dir, s).domMap)
  {
    hide Inv, Step, Graph.Valid, Graph.Edge, NewDoms, EntryStays;
    InvHead(g, dir, start, s);
    InvEntry(g, dir, start, s);
    var r, x := Step(g, dir, s), s.queue[0];
    HeadShrinks(g, dir, start, s);
    StepResult(g, dir, s);
    forall n | Init(r.domMap, n) && n in g.callees && n in g.callers
      ensures NewDoms(g, dir, r.domMap, n) <= r.domMap[n].doms
    {
      StillShrinks(g, dir, start, s, n);
    }
  }

  lemma StillShrinks(g: Graph, dir: TraverseDir, start: Node, s: State, n: Node)
    requires g.Valid() && Inv(g, dir, start, s) && Shrinking(g, dir, start, s.domMap) && s.queue != []
    requires EntryStays(g, dir, start)
    requires Init(Step(g, dir, s).domMap, n)
    ensures n in g.callees ==> NewDoms(g, dir, Step(g, dir, s).domMap, n) <= Step(g, dir, s).domMap[n].doms
  {
    hide Inv, Step, Graph.Valid, Graph.Edge, Balanced, Dominates, NewDoms, Reachable;
    InvHead(g, dir, start, s);
    var r, x := Step(g, dir, s), s.queue[0];
    HeadShrinks(g, dir, start, s);
    StepResult(g, dir, s);
    StepReaches(g, dir, start, s);
    if n in g.callees {
      InBothMaps(g, n);
      InvReaches(g, dir, start, s);
      forall d | d in NewDoms(g, dir, r.domMap, n)
        ensures d in r.domMap[n].doms
      {
        NewDomsContains(g, dir, r.domMap, n, d);
        NewDomsContains(g, dir, s.domMap, n, d);
        if n != start {
          assert Init(s.domMap, n) || n in s.queue;
          InvFeeds(g, dir, start, s, n);
          assert forall u :: Init(s.domMap, u) ==> Init(r.domMap, u) && r.domMap[u].doms <= s.domMap[u].doms;
        }
      }
    }
  }

  /** Every iteration removes something, or leaves the sets alone and shortens the queue. */
  lemma StepDecreases(g: Graph, dir: TraverseDir, start: Node, s: State)
    requires g.Valid() && Inv(g, dir, start, s) && Shrinking(g, dir, start, s.domMap) && s.queue != []
    requires EntryStays(g, dir, start)
    ensures var r := Step(g, dir, s);
            || Removable(g, r.domMap) < Removable(g, s.domMap)
            || (Removable(g, r.domMap) == Removable(g, s.domMap) && |r.queue| < |s.queue|)
  {
    var r, x := Step(g, dir, s), s.queue[0];
    HeadShrinks(g, dir, start, s);
    StepResult(g, dir, s);
    assert x in s.queue;
    hide Step, NewDoms, Inv, Shrinking, Graph.Valid, Removable;
    RemovableShrinks(g, s.domMap, r.domMap, x);
  }

  lemma RemovableShrinks(g: Graph, m: DomMap, m': DomMap, x: Node)
    requires x in g.callees && Init(m', x) && (Init(m, x) ==> m'[x].doms <= m[x].doms)
    requires forall k :: k != x ==> Init(m', k) == Init(m, k) && (Init(m, k) ==> m'[k].doms == m[k].doms)
    requires m'[x].doms <= g.callees.Keys && (Init(m, x) ==> m[x].doms <= g.callees.Keys)
    ensures Removable(g, m') <= Removable(g, m)
    ensures !Init(m, x) || m[x].doms != m'[x].doms ==> Removable(g, m') < Removable(g, m)
  {
    if !Init(m, x) {
      assert (x, None) in Removable(g, m) && (x, None) !in Removable(g, m');
    } else if m[x].doms != m'[x].doms {
      var d :| d in m[x].doms && d !in m'[x].doms;
      assert (x, Some(d)) in Removable(g, m) && (x, Some(d)) !in Removable(g, m');
    }
  }

  // ---------------------------------------------------------------- the algorithm

  /** Looks up the predecessors of a node, and collects those initialised. */
  method InitializedPredecessors(nodes: seq<Node>, m: DomMap) returns (m': DomMap, initialized: seq<Node>)
    ensures m' == Touch(m, nodes) && initialized == Initialized(m, nodes)
  {
    m', initialized := m, [];
    assert Touch(m, nodes[..0]) == m;
    for i := 0 to |nodes|
      invariant m' == Touch(m, nodes[..i]) && initialized == Initialized(m, nodes[..i])
    {
      assert nodes[..i + 1][..i] == nodes[..i];
      assert nodes[..i + 1] == nodes[..i] + [nodes[i]];
      if nodes[i] !in m' {
        m' := m'[nodes[i] := DEFAULT];
      }
      assert m' == Touch(m, nodes[..i + 1]);
      if m'[nodes[i]].initialized {
        initialized := initialized + [nodes[i]];
      }
    }
    assert nodes[..|nodes|] == nodes;
  }

  method QueueAll(m: DomMap, queue: seq<Node>, outs: seq<Node>) returns (m': DomMap, queue': seq<Node>)
    ensures State(m', queue') == AddToQueue(State(m, queue), outs)
  {
    m', queue' := m, queue;
    assert outs[0..] == outs;
    for i := 0 to |outs|
      invariant AddToQueue(State(m', queue'), outs[i..]) == AddToQueue(State(m, queue), outs)
    {
      var n := outs[i];
      assert outs[i..][1..] == outs[i + 1..];
      ghost var before := State(m', queue');
      var data := if n in m' then m'[n] else DEFAULT;
      if data.node.None? {
        data := data.(node := Some(n));
      }
      m' := m'[n := data];
      if n !in queue' {
        queue' := queue' + [n];
      }
      assert AddToQueue(before, outs[i..]) == AddToQueue(State(m', queue'), outs[i + 1..]);
    }
  }

  method ComputeDominators(g: Graph, dir: TraverseDir, start: Node) returns (domMap: DomMap)
    requires g.Valid() && start in g.callees && EntryStays(g, dir, start)
    ensures Exact(g, dir, start, domMap)
  {
    var workQueue := [start];
    domMap := map[start := DomData(Some(start), {}, false)];
    StartInv(g, dir, start);
    while workQueue != []
      invariant Inv(g, dir, start, State(domMap, workQueue)) && Shrinking(g, dir, start, domMap)
      decreases Removable(g, domMap), |workQueue|
    {
      ghost var s := State(domMap, workQueue);
      assert workQueue[0] in workQueue;
      StepKeepsInv(g, dir, start, s);
      StepKeepsShrinking(g, dir, start, s);
      StepDecreases(g, dir, start, s);
      hide Inv, Shrinking, Graph.Valid, EntryStays, Removable;
      domMap, workQueue := Iterate(g, dir, domMap, workQueue);
    }
    EndIsExact(g, dir, start, State(domMap, workQueue));
  }

  /** The body of the loop. */
  method Iterate(g: Graph, dir: TraverseDir, m: DomMap, queue: seq<Node>) returns (m': DomMap, queue': seq<Node>)
    requires queue != [] && queue[0] in m && queue[0] in g.callees && queue[0] in g.callers
    ensures State(m', queue') == Step(g, dir, State(m, queue))
  {
    hide Meet, Touch, Initialized, AddToQueue;
    var n := queue[0];
    queue' := queue[1..];
    var initialized;
    m', initialized := InitializedPredecessors(g.Incoming(dir, n), m);
    InitializedTouched(m, g.Incoming(dir, n));
    var domNew := Intersection(initialized, m');
    domNew := domNew + {n};
    if !m'[n].initialized || m'[n].doms != domNew {
      m' := m'[n := m'[n].(doms := domNew, initialized := true)];
      m', queue' := QueueAll(m', queue', g.Outgoing(dir, n));
    }
  }

  lemma InitializedTouched(m: DomMap, nodes: seq<Node>)
    ensures var us, m' := Initialized(m, nodes), Touch(m, nodes);
            && (forall k :: 0 <= k < |us| ==> us[k] in m')
            && Meet(us, m') == Meet(us, m)
            && (forall n :: n in m ==> n in m' && m'[n] == m[n])
  {
    var us, m' := Initialized(m, nodes), Touch(m, nodes);
    forall k | 0 <= k < |us|
      ensures us[k] in m' && us[k] in m
    {
      assert us[k] in us;
    }
    forall d
      ensures d in Meet(us, m') <==> d in Meet(us, m)
    {
      MeetContains(us, m, d);
      MeetContains(us, m', d);
      assert forall k :: 0 <= k < |us| ==> DomsOf(m, us[k]) == DomsOf(m', us[k]);
    }
  }
}
