/**
 Filling gaps in the instrumentation (FillInstrumentationGapsPhase in
 pgis/lib/src/IPCGEstimatorPhase.cpp, allNodesToMain in pgis/lib/src/CgHelper.cpp).

 Only an instrumented node with a parent that is not instrumented triggers any work, yet
 afterwards there is no gap on any path from main to an instrumented node.
 */
module GapFilling {
  import opened CallgraphModel
  import opened CallPaths
  import opened Instrumentation
  import opened Optional
  import opened Reachability

  // ---------------------------------------------------------------- the nodes on paths from main

  /** The main node, and all nodes between the entry function and the start node. */
  ghost predicate NodesToMain(edges: Edges, mainNode: NodeId, entry: NodeId, start: NodeId, s: set<NodeId>) {
    forall n :: n in s <==> n == mainNode || (Reaches(edges, entry, n) && Reaches(edges, n, start))
  }

  /** What holds between visits of the search against the edges. */
  ghost predicate Climbing(edges: Edges, mainNode: NodeId, entry: NodeId, start: NodeId, visited: set<NodeId>,
                           queue: seq<NodeId>, pNodes: set<NodeId>) {
    && (start in visited || start in queue)
    && (forall v :: v in visited || v in queue ==> Reaches(edges, v, start))
    && (forall u, v :: v in visited && Reaches(edges, entry, v) && (u, v) in edges ==> u in visited || u in queue)
    && (forall n :: n in pNodes <==> n == mainNode || (n in visited && Reaches(edges, entry, n)))
  }

  lemma {:induction false} ClimbedAlong(edges: Edges, mainNode: NodeId, entry: NodeId, start: NodeId,
                                        visited: set<NodeId>, pNodes: set<NodeId>, n: NodeId, p: seq<NodeId>)
    requires Climbing(edges, mainNode, entry, start, visited, [], pNodes)
    requires Reaches(edges, entry, n) && IsPath(edges, n, p, start)
    ensures n in visited
    decreases |p|
  {
    hide Reaches;
    if |p| > 1 {
      assert (p[0], p[0 + 1]) in edges;
      ReachesFurther(edges, entry, n, p[1]);
      PathTail(edges, n, p, start);
      ClimbedAlong(edges, mainNode, entry, start, visited, pNodes, p[1], p[1..]);
    }
  }

  lemma PathTail(edges: Edges, n: NodeId, p: seq<NodeId>, s: NodeId)
    requires IsPath(edges, n, p, s) && |p| > 1
    ensures (n, p[1]) in edges && IsPath(edges, p[1], p[1..], s)
  {
  }

  lemma ClimbedIsExact(edges: Edges, mainNode: NodeId, entry: NodeId, start: NodeId, visited: set<NodeId>,
                       pNodes: set<NodeId>)
    requires Climbing(edges, mainNode, entry, start, visited, [], pNodes)
    ensures NodesToMain(edges, mainNode, entry, start, pNodes)
  {
    forall n | Reaches(edges, entry, n) && Reaches(edges, n, start)
      ensures n in visited
    {
      var p :| IsPath(edges, n, p, start);
      ClimbedAlong(edges, mainNode, entry, start, visited, pNodes, n, p);
    }
  }

  /** One entry of the queue: its callers are queued only if main reaches it. */
  lemma Climbed(edges: Edges, mainNode: NodeId, entry: NodeId, start: NodeId, visited: set<NodeId>,
                queue: seq<NodeId>, pNodes: set<NodeId>, more: seq<NodeId>)
    requires Climbing(edges, mainNode, entry, start, visited, queue, pNodes) && queue != []
    requires queue[0] !in visited && Reaches(edges, entry, queue[0])
    requires forall u :: u in more <==> (u, queue[0]) in edges
    ensures Climbing(edges, mainNode, entry, start, visited + {queue[0]}, queue[1..] + more, pNodes + {queue[0]})
  {
    hide Reaches;
    var node, rest := queue[0], queue[1..];
    assert forall v :: v in queue <==> v == node || v in rest;
    forall u | u in more
      ensures Reaches(edges, u, start)
    {
      ReachesItself(edges, u);
      ReachesFurther(edges, u, u, node);
      ReachesThrough(edges, u, node, start);
    }
  }

  lemma Dropped(edges: Edges, mainNode: NodeId, entry: NodeId, start: NodeId, visited: set<NodeId>,
                queue: seq<NodeId>, pNodes: set<NodeId>)
    requires Climbing(edges, mainNode, entry, start, visited, queue, pNodes) && queue != []
    requires queue[0] in visited || !Reaches(edges, entry, queue[0])
    ensures Climbing(edges, mainNode, entry, start, visited + {queue[0]}, queue[1..], pNodes)
  {
  }

  /** A node with all sources of edges. */
  ghost function Callers(edges: Edges, start: NodeId): set<NodeId> {
    {start} + set e | e in edges :: e.0
  }

  lemma ClimbedInCallers(edges: Edges, start: NodeId, v: NodeId)
    requires Reaches(edges, v, start)
    ensures v in Callers(edges, start)
  {
    var p :| IsPath(edges, v, p, start);
    if |p| > 1 {
      assert (p[0], p[0 + 1]) in edges;
    }
  }

  method InAnyOrder(s: set<NodeId>) returns (r: seq<NodeId>)
    ensures forall x :: x in r <==> x in s
  {
    r := [];
    var todo := s;
    while todo != {}
      invariant todo <= s && forall x :: x in r <==> x in s - todo
    {
      var x :| x in todo;
      r, todo := r + [x], todo - {x};
    }
  }

  /** The analysis has no outdated answer for main. */
  ghost predicate MainUpToDate(ra: ReachabilityAnalysis)
    reads ra, ra.cg
  {
    && ra.Valid() && ra.cg.Valid() && ra.cg.MainOrNone().Some?
    && (ra.cg.MainOrNone().value in ra.computedFor ==> ra.Cached(ra.cg.edges, ra.cg.MainOrNone().value))
  }

  /** Everything between main and a node, without looking behind nodes that main does not reach. */
  method AllNodesToMain(startNode: NodeId, mainNode: NodeId, init: map<NodeId, set<NodeId>>, ra: ReachabilityAnalysis)
    returns (pNodes: set<NodeId>)
    requires MainUpToDate(ra)
    requires startNode in init ==>
               NodesToMain(ra.cg.edges, mainNode, ra.cg.MainOrNone().value, startNode, init[startNode])
    modifies ra, ra.cg`mainNode
    ensures MainUpToDate(ra) && ra.cg.MainOrNone() == old(ra.cg.MainOrNone())
    ensures NodesToMain(ra.cg.edges, mainNode, ra.cg.MainOrNone().value, startNode, pNodes)
  {
    hide Callgraph.Valid, Reaches, NodesToMain, Climbing;
    if startNode in init {
      return init[startNode];
    }
    ghost var edges, entry := ra.cg.edges, ra.cg.MainOrNone().value;
    pNodes := {mainNode};
    var visitedNodes, workQueue := {}, [startNode];
    StartsClimbing(edges, mainNode, entry, startNode);
    while workQueue != []
      invariant MainUpToDate(ra) && ra.cg.MainOrNone() == Some(entry)
      invariant Climbing(edges, mainNode, entry, startNode, visitedNodes, workQueue, pNodes)
      decreases Callers(edges, startNode) - visitedNodes, |workQueue|
    {
      var node := workQueue[0];
      ghost var visited, queue, p := visitedNodes, workQueue, pNodes;
      QueuedClimbs(edges, mainNode, entry, startNode, visited, queue, p);
      workQueue := workQueue[1..];
      if node !in visitedNodes {
        visitedNodes := visitedNodes + {node};
        var reachable := ra.IsReachableFromMain(node, false);
        if reachable {
          pNodes := pNodes + {node};
          var pns := InAnyOrder(ra.cg.GetCallers(node));
          Climbed(edges, mainNode, entry, startNode, visited, queue, p, pns);
          workQueue := workQueue + pns;
        } else {
          Dropped(edges, mainNode, entry, startNode, visited, queue, p);
        }
      } else {
        Dropped(edges, mainNode, entry, startNode, visited, queue, p);
        assert visited + {node} == visited;
      }
    }
    ClimbedIsExact(edges, mainNode, entry, startNode, visitedNodes, pNodes);
  }

  lemma StartsClimbing(edges: Edges, mainNode: NodeId, entry: NodeId, start: NodeId)
    ensures Climbing(edges, mainNode, entry, start, {}, [start], {mainNode})
  {
    ReachesItself(edges, start);
  }

  lemma QueuedClimbs(edges: Edges, mainNode: NodeId, entry: NodeId, start: NodeId, visited: set<NodeId>,
                     queue: seq<NodeId>, pNodes: set<NodeId>)
    requires Climbing(edges, mainNode, entry, start, visited, queue, pNodes) && queue != []
    ensures queue[0] in Callers(edges, start)
  {
    assert queue[0] in queue;
    ClimbedInCallers(edges, start, queue[0]);
  }

  // ---------------------------------------------------------------- what the phase adds

  /** An instrumented node with a parent that is not. */
  ghost predicate Trigger(edges: Edges, marked: set<NodeId>, t: NodeId) {
    t in marked && exists u :: (u, t) in edges && u !in marked
  }

  /** Wanted because of one trigger. */
  ghost predicate WantedFor(edges: Edges, marked: set<NodeId>, main_: NodeId, t: NodeId, n: NodeId) {
    n !in marked && Trigger(edges, marked, t) && (n == main_ || (Reaches(edges, main_, n) && Reaches(edges, n, t)))
  }

  ghost predicate Wanted(edges: Edges, marked: set<NodeId>, main_: NodeId, n: NodeId) {
    exists t: NodeId :: WantedFor(edges, marked, main_, t, n)
  }

  /** A node between main and an instrumented node that could be, but is not, instrumented. */
  ghost predicate Gap(edges: Edges, after: set<NodeId>, fillable: NodeId -> bool, main_: NodeId, n: NodeId) {
    && n !in after && fillable(n) && Reaches(edges, main_, n)
    && exists s :: s in after && Reaches(edges, n, s)
  }

  /** The one way to leave a gap: main itself is newly instrumented because of nodes that main
      does not reach, and main can be called again. */
  ghost predicate OnlyMainAdded(edges: Edges, marked: set<NodeId>, fillable: NodeId -> bool, main_: NodeId) {
    && main_ !in marked && fillable(main_)
    && (exists t :: Trigger(edges, marked, t))
    && (forall t :: Trigger(edges, marked, t) ==> !Reaches(edges, main_, t))
    && (exists n :: n != main_ && n !in marked && fillable(n) && Reaches(edges, main_, n) && Reaches(edges, n, main_))
  }

  lemma {:induction false} TriggerOnPath(edges: Edges, marked: set<NodeId>, n: NodeId, p: seq<NodeId>, s: NodeId)
    requires n !in marked && s in marked && IsPath(edges, n, p, s)
    ensures exists t :: Trigger(edges, marked, t) && Reaches(edges, n, t)
    decreases |p|
  {
    hide Reaches;
    PathTail(edges, n, p, s);
    ReachesItself(edges, n);
    ReachesFurther(edges, n, n, p[1]);
    if p[1] in marked {
      assert Trigger(edges, marked, p[1]);
    } else {
      TriggerOnPath(edges, marked, p[1], p[1..], s);
      var t :| Trigger(edges, marked, t) && Reaches(edges, p[1], t);
      ReachesThrough(edges, n, p[1], t);
    }
  }

  lemma WantedBecause(edges: Edges, marked: set<NodeId>, main_: NodeId, t: NodeId, n: NodeId)
    requires n !in marked && Trigger(edges, marked, t) && Reaches(edges, main_, n) && Reaches(edges, n, t)
    ensures Wanted(edges, marked, main_, n)
  {
    assert WantedFor(edges, marked, main_, t, n);
  }

  lemma PathOf(edges: Edges, u: NodeId, v: NodeId)
    requires Reaches(edges, u, v)
    ensures exists p :: IsPath(edges, u, p, v)
  {
  }

  // ---------------------------------------------------------------- the phase

  /** A wanted node is a node of the graph. */
  lemma WantedIsLive(graph: Callgraph, marked: set<NodeId>, main_: NodeId, n: NodeId)
    requires graph.Valid() && Live(graph.nodes, main_) && Wanted(graph.edges, marked, main_, n)
    ensures Live(graph.nodes, n)
  {
    if n != main_ {
      var p :| IsPath(graph.edges, main_, p, n);
      assert (p[|p| - 2], p[|p| - 2 + 1]) in graph.edges;
    }
  }

  ghost predicate OneLike(nodes: Nodes, chosen: set<NodeId>, n: NodeId)
    requires Live(nodes, n)
  {
    exists m: NodeId ::
      m in chosen && Live(nodes, m) && nodes[m].value.functionName == nodes[n].value.functionName
  }

  /** The chosen nodes: wanted ones, exactly one for each name of a wanted node. */
  ghost predicate OnePerName(nodes: Nodes, edges: Edges, marked: set<NodeId>, main_: NodeId, chosen: set<NodeId>) {
    && (forall n: NodeId :: n in chosen ==> Live(nodes, n) && Wanted(edges, marked, main_, n))
    && (forall m: NodeId, n: NodeId |
          m in chosen && n in chosen && nodes[m].value.functionName == nodes[n].value.functionName :: m == n)
    && (forall n: NodeId :: Wanted(edges, marked, main_, n) ==> Live(nodes, n) && OneLike(nodes, chosen, n))
  }

  /** A wanted node that could be instrumented, but another one of its name was chosen. */
  ghost predicate LeftOut(edges: Edges, marked: set<NodeId>, fillable: NodeId -> bool, main_: NodeId,
                          chosen: set<NodeId>, n: NodeId)
  {
    Wanted(edges, marked, main_, n) && n !in chosen && fillable(n)
  }

  ghost predicate Filled(marked: set<NodeId>, fillable: NodeId -> bool, chosen: set<NodeId>, after: set<NodeId>) {
    forall n: NodeId :: n in after <==> n in marked || (n in chosen && fillable(n))
  }

  /** A gap of a node that is not wanted can only be there because main alone was added. */
  lemma GapMeansOnlyMain(edges: Edges, marked: set<NodeId>, fillable: NodeId -> bool, main_: NodeId,
                         chosen: set<NodeId>, after: set<NodeId>, n: NodeId)
    requires Filled(marked, fillable, chosen, after)
    requires forall m: NodeId :: m in chosen ==> Wanted(edges, marked, main_, m)
    requires Gap(edges, after, fillable, main_, n) && !Wanted(edges, marked, main_, n)
    ensures OnlyMainAdded(edges, marked, fillable, main_)
  {
    hide Reaches, Trigger;
    var s :| s in after && Reaches(edges, n, s);
    if s in marked {
      assert exists p :: IsPath(edges, n, p, s) by { PathOf(edges, n, s); }
      var p :| IsPath(edges, n, p, s);
      TriggerOnPath(edges, marked, n, p, s);
      var t :| Trigger(edges, marked, t) && Reaches(edges, n, t);
      WantedBecause(edges, marked, main_, t, n);
      assert false;
    }
    var t :| WantedFor(edges, marked, main_, t, s);
    if Reaches(edges, s, t) {
      ReachesThrough(edges, n, s, t);
      WantedBecause(edges, marked, main_, t, n);
      assert false;
    }
    forall t | Trigger(edges, marked, t)
      ensures !Reaches(edges, main_, t)
    {
      if Reaches(edges, main_, t) {
        ReachesThrough(edges, n, main_, t);
        WantedBecause(edges, marked, main_, t, n);
      }
    }
  }

  /** If main alone was added, the other functions on its cycles are gaps. */
  lemma OnlyMainLeavesGap(nodes: Nodes, edges: Edges, marked: set<NodeId>, fillable: NodeId -> bool, main_: NodeId,
                          chosen: set<NodeId>, after: set<NodeId>)
    requires OnePerName(nodes, edges, marked, main_, chosen) && Filled(marked, fillable, chosen, after)
    requires OnlyMainAdded(edges, marked, fillable, main_)
    ensures exists n :: Gap(edges, after, fillable, main_, n)
  {
    hide Reaches, Trigger;
    var n :| n != main_ && n !in marked && fillable(n) && Reaches(edges, main_, n) && Reaches(edges, n, main_);
    var t :| Trigger(edges, marked, t);
    assert WantedFor(edges, marked, main_, t, main_);
    forall m: NodeId | Wanted(edges, marked, main_, m)
      ensures m == main_
    {
      var u: NodeId :| WantedFor(edges, marked, main_, u, m);
      if m != main_ {
        ReachesThrough(edges, main_, m, u);
      }
    }
    assert OneLike(nodes, chosen, main_);
    assert main_ in after && n !in after;
    assert Gap(edges, after, fillable, main_, n);
  }

  /** Whoever is left out leaves a gap: main reaches it, and it reaches a trigger. */
  lemma LeftOutIsGap(nodes: Nodes, edges: Edges, marked: set<NodeId>, fillable: NodeId -> bool, main_: NodeId,
                     chosen: set<NodeId>, after: set<NodeId>, n: NodeId)
    requires OnePerName(nodes, edges, marked, main_, chosen) && Filled(marked, fillable, chosen, after)
    requires LeftOut(edges, marked, fillable, main_, chosen, n)
    ensures Gap(edges, after, fillable, main_, n)
  {
    hide Reaches;
    ReachesItself(edges, main_);
    var t: NodeId :| WantedFor(edges, marked, main_, t, n);
    if n == main_ {
      assert OneLike(nodes, chosen, n);
      var m: NodeId :| m in chosen && Live(nodes, m) && nodes[m].value.functionName == nodes[n].value.functionName;
      assert m != main_;
      var u: NodeId :| WantedFor(edges, marked, main_, u, m);
      ReachesThrough(edges, main_, m, u);
      assert u in after && Reaches(edges, n, u);
    } else {
      assert t in after && Reaches(edges, n, t);
    }
  }

  /** After the phase a gap is left if and only if main alone was added, or a node was left out
      for another one of its name. */
  lemma GapsClosed(nodes: Nodes, edges: Edges, marked: set<NodeId>, fillable: NodeId -> bool, main_: NodeId,
                   chosen: set<NodeId>, after: set<NodeId>)
    requires OnePerName(nodes, edges, marked, main_, chosen) && Filled(marked, fillable, chosen, after)
    ensures (exists n :: Gap(edges, after, fillable, main_, n))
            <==> OnlyMainAdded(edges, marked, fillable, main_)
                 || exists n :: LeftOut(edges, marked, fillable, main_, chosen, n)
  {
    if n :| Gap(edges, after, fillable, main_, n) && !LeftOut(edges, marked, fillable, main_, chosen, n) {
      hide OnlyMainAdded, Wanted, Reaches;
      assert !Wanted(edges, marked, main_, n);
      GapMeansOnlyMain(edges, marked, fillable, main_, chosen, after, n);
    }
    hide OnlyMainAdded, Wanted, Gap, OnePerName, LeftOut;
    if OnlyMainAdded(edges, marked, fillable, main_) {
      OnlyMainLeavesGap(nodes, edges, marked, fillable, main_, chosen, after);
    }
    if n :| LeftOut(edges, marked, fillable, main_, chosen, n) {
      LeftOutIsGap(nodes, edges, marked, fillable, main_, chosen, after, n);
    }
  }

  // ---------------------------------------------------------------- what can be told before

  /** Two wanted nodes of one name. */
  ghost predicate Rivals(nodes: Nodes, edges: Edges, marked: set<NodeId>, main_: NodeId, m: NodeId, n: NodeId) {
    && m != n && Wanted(edges, marked, main_, m) && Wanted(edges, marked, main_, n)
    && Live(nodes, m) && Live(nodes, n) && nodes[m].value.functionName == nodes[n].value.functionName
  }

  /** Both could be instrumented: one will be left out in any case. */
  ghost predicate FillableRivals(nodes: Nodes, edges: Edges, marked: set<NodeId>, fillable: NodeId -> bool,
                                 main_: NodeId)
  {
    exists m: NodeId, n: NodeId :: Rivals(nodes, edges, marked, main_, m, n) && fillable(m) && fillable(n)
  }

  /** One of them could be instrumented, and might be left out. */
  ghost predicate AnyRivals(nodes: Nodes, edges: Edges, marked: set<NodeId>, fillable: NodeId -> bool, main_: NodeId) {
    exists m: NodeId, n: NodeId :: Rivals(nodes, edges, marked, main_, m, n) && fillable(n)
  }

  lemma RivalsLeaveOut(nodes: Nodes, edges: Edges, marked: set<NodeId>, fillable: NodeId -> bool, main_: NodeId,
                       chosen: set<NodeId>)
    requires OnePerName(nodes, edges, marked, main_, chosen) && FillableRivals(nodes, edges, marked, fillable, main_)
    ensures exists n :: LeftOut(edges, marked, fillable, main_, chosen, n)
  {
    hide Wanted;
    var m: NodeId, n: NodeId :| Rivals(nodes, edges, marked, main_, m, n) && fillable(m) && fillable(n);
    if m in chosen {
      assert LeftOut(edges, marked, fillable, main_, chosen, n);
    } else {
      assert LeftOut(edges, marked, fillable, main_, chosen, m);
    }
  }

  lemma LeftOutIsRival(nodes: Nodes, edges: Edges, marked: set<NodeId>, fillable: NodeId -> bool, main_: NodeId,
                       chosen: set<NodeId>, n: NodeId)
    requires OnePerName(nodes, edges, marked, main_, chosen) && LeftOut(edges, marked, fillable, main_, chosen, n)
    ensures AnyRivals(nodes, edges, marked, fillable, main_)
  {
    hide Wanted;
    assert OneLike(nodes, chosen, n);
    var m: NodeId :| m in chosen && Live(nodes, m) && nodes[m].value.functionName == nodes[n].value.functionName;
    assert Rivals(nodes, edges, marked, main_, m, n);
  }

  /** What can be told before the phase: two fillable wanted nodes of one name always leave a gap,
      and if no fillable wanted node shares its name with a wanted one, main decides. */
  lemma GapsForeseen(nodes: Nodes, edges: Edges, marked: set<NodeId>, fillable: NodeId -> bool, main_: NodeId,
                     chosen: set<NodeId>, after: set<NodeId>)
    requires OnePerName(nodes, edges, marked, main_, chosen) && Filled(marked, fillable, chosen, after)
    ensures FillableRivals(nodes, edges, marked, fillable, main_) ==> exists n :: Gap(edges, after, fillable, main_, n)
    ensures !AnyRivals(nodes, edges, marked, fillable, main_) ==>
              ((exists n :: Gap(edges, after, fillable, main_, n)) <==> OnlyMainAdded(edges, marked, fillable, main_))
  {
    hide OnlyMainAdded, Gap, OnePerName, Wanted, FillableRivals, AnyRivals, LeftOut;
    GapsClosed(nodes, edges, marked, fillable, main_, chosen, after);
    if FillableRivals(nodes, edges, marked, fillable, main_) {
      RivalsLeaveOut(nodes, edges, marked, fillable, main_, chosen);
    }
    if n :| LeftOut(edges, marked, fillable, main_, chosen, n) {
      LeftOutIsRival(nodes, edges, marked, fillable, main_, chosen, n);
    }
  }

  // The choice that prefers some nodes, and smaller ids among equals.

  predicate Better(preferred: NodeId -> bool, m: NodeId, n: NodeId) {
    (preferred(m) && !preferred(n)) || (preferred(m) == preferred(n) && m < n)
  }

  lemma BetterIsTotal(preferred: NodeId -> bool, m: NodeId, n: NodeId)
    requires m != n
    ensures Better(preferred, m, n) || Better(preferred, n, m)
  {
  }

  ghost predicate Best(nodes: Nodes, edges: Edges, marked: set<NodeId>, main_: NodeId, preferred: NodeId -> bool,
                       n: NodeId)
  {
    && Live(nodes, n) && Wanted(edges, marked, main_, n)
    && forall m: NodeId :: Rivals(nodes, edges, marked, main_, m, n) ==> !Better(preferred, m, n)
  }

  ghost function Choice(nodes: Nodes, edges: Edges, marked: set<NodeId>, main_: NodeId, preferred: NodeId -> bool)
    : set<NodeId>
  {
    set n: NodeId | n < |nodes| && Best(nodes, edges, marked, main_, preferred, n)
  }

  /** Among the wanted nodes of a name there is a best one. */
  lemma {:induction false} SomeBest(nodes: Nodes, edges: Edges, marked: set<NodeId>, main_: NodeId,
                                    preferred: NodeId -> bool, n: NodeId)
    requires Live(nodes, n) && Wanted(edges, marked, main_, n)
    ensures OneLike(nodes, Choice(nodes, edges, marked, main_, preferred), n)
    decreases !preferred(n), n
  {
    hide Wanted;
    if m: NodeId :| Rivals(nodes, edges, marked, main_, m, n) && Better(preferred, m, n) {
      SomeBest(nodes, edges, marked, main_, preferred, m);
    } else {
      assert Best(nodes, edges, marked, main_, preferred, n);
      assert n in Choice(nodes, edges, marked, main_, preferred);
    }
  }

  lemma ChoiceIsOnePerName(nodes: Nodes, edges: Edges, marked: set<NodeId>, main_: NodeId, preferred: NodeId -> bool)
    requires forall n: NodeId :: Wanted(edges, marked, main_, n) ==> Live(nodes, n)
    ensures OnePerName(nodes, edges, marked, main_, Choice(nodes, edges, marked, main_, preferred))
  {
    hide Wanted;
    var chosen := Choice(nodes, edges, marked, main_, preferred);
    forall n: NodeId | Wanted(edges, marked, main_, n)
      ensures OneLike(nodes, chosen, n)
    {
      SomeBest(nodes, edges, marked, main_, preferred, n);
    }
    forall m: NodeId, n: NodeId |
      m in chosen && n in chosen && nodes[m].value.functionName == nodes[n].value.functionName
      ensures m == n
    {
      if m != n {
        assert Rivals(nodes, edges, marked, main_, m, n) && Rivals(nodes, edges, marked, main_, n, m);
        BetterIsTotal(preferred, m, n);
      }
    }
  }

  /** The conditions cannot be improved: unless two fillable nodes share a name, there is a choice
      that leaves nobody out; and if a fillable node has a rival, there is one that does. */
  lemma ForesightIsSharp(nodes: Nodes, edges: Edges, marked: set<NodeId>, fillable: NodeId -> bool, main_: NodeId)
    requires forall n: NodeId :: Wanted(edges, marked, main_, n) ==> Live(nodes, n)
    ensures !FillableRivals(nodes, edges, marked, fillable, main_)
            <==> exists chosen :: OnePerName(nodes, edges, marked, main_, chosen)
                                  && forall n :: !LeftOut(edges, marked, fillable, main_, chosen, n)
    ensures AnyRivals(nodes, edges, marked, fillable, main_)
            <==> exists chosen, n :: OnePerName(nodes, edges, marked, main_, chosen)
                                     && LeftOut(edges, marked, fillable, main_, chosen, n)
  {
    hide Wanted, OnePerName;
    if !FillableRivals(nodes, edges, marked, fillable, main_) {
      PreferringFillable(nodes, edges, marked, fillable, main_);
    }
    forall chosen | OnePerName(nodes, edges, marked, main_, chosen)
                    && FillableRivals(nodes, edges, marked, fillable, main_)
      ensures exists n :: LeftOut(edges, marked, fillable, main_, chosen, n)
    {
      RivalsLeaveOut(nodes, edges, marked, fillable, main_, chosen);
    }
    if AnyRivals(nodes, edges, marked, fillable, main_) {
      var m: NodeId, n: NodeId :| Rivals(nodes, edges, marked, main_, m, n) && fillable(n);
      PreferringOne(nodes, edges, marked, fillable, main_, m, n);
    }
    forall chosen, n | OnePerName(nodes, edges, marked, main_, chosen)
                       && LeftOut(edges, marked, fillable, main_, chosen, n)
      ensures AnyRivals(nodes, edges, marked, fillable, main_)
    {
      LeftOutIsRival(nodes, edges, marked, fillable, main_, chosen, n);
    }
  }

  lemma PreferringFillable(nodes: Nodes, edges: Edges, marked: set<NodeId>, fillable: NodeId -> bool, main_: NodeId)
    requires forall n: NodeId :: Wanted(edges, marked, main_, n) ==> Live(nodes, n)
    requires !FillableRivals(nodes, edges, marked, fillable, main_)
    ensures var chosen := Choice(nodes, edges, marked, main_, fillable);
            && OnePerName(nodes, edges, marked, main_, chosen)
            && forall n :: !LeftOut(edges, marked, fillable, main_, chosen, n)
  {
    hide Wanted, OnePerName;
    ChoiceIsOnePerName(nodes, edges, marked, main_, fillable);
    forall n: NodeId | Wanted(edges, marked, main_, n) && fillable(n)
      ensures n in Choice(nodes, edges, marked, main_, fillable)
    {
      forall m: NodeId | Rivals(nodes, edges, marked, main_, m, n)
        ensures !Better(fillable, m, n)
      {
        assert !fillable(m);
      }
      assert Best(nodes, edges, marked, main_, fillable, n);
    }
  }

  lemma PreferringOne(nodes: Nodes, edges: Edges, marked: set<NodeId>, fillable: NodeId -> bool, main_: NodeId,
                      m: NodeId, n: NodeId)
    requires forall n: NodeId :: Wanted(edges, marked, main_, n) ==> Live(nodes, n)
    requires Rivals(nodes, edges, marked, main_, m, n) && fillable(n)
    ensures exists chosen, n :: OnePerName(nodes, edges, marked, main_, chosen)
                                && LeftOut(edges, marked, fillable, main_, chosen, n)
  {
    hide Wanted, OnePerName;
    var preferred := (x: NodeId) => x == m;
    var chosen := Choice(nodes, edges, marked, main_, preferred);
    ChoiceIsOnePerName(nodes, edges, marked, main_, preferred);
    assert Better(preferred, m, n);
    assert !Best(nodes, edges, marked, main_, preferred, n);
    assert LeftOut(edges, marked, fillable, main_, chosen, n);
  }

  class FillInstrumentationGapsPhase {
    const graph: Callgraph
    const marks: Marks
    const facts: NodeId -> NodeFacts
    const options: Options
    const eligibleForPath: NodeId -> bool
    /** One node for each name. */
    var nodesToFill: map<string, NodeId>

    constructor (graph: Callgraph, marks: Marks, facts: NodeId -> NodeFacts, options: Options,
                 eligibleForPath: NodeId -> bool)
      ensures this.graph == graph && this.marks == marks && this.facts == facts && this.options == options
      ensures this.eligibleForPath == eligibleForPath && nodesToFill == map[]
    {
      this.graph, this.marks, this.facts, this.options := graph, marks, facts, options;
      this.eligibleForPath, nodesToFill := eligibleForPath, map[];
    }

    /** Not known to be never called, and instrumentable as a function or at its call sites. */
    predicate Fillable(n: NodeId)
      ensures Fillable(n) <==>
                !(facts(n).measured.Some? && facts(n).measured.value.callCount == 0.0
                  && facts(n).measured.value.isExclusiveRuntime)
                && (facts(n).hasBody || facts(n).isMPIFunction
                    || (!options.onlyEligibleNodes && !options.useCSInstrumentation)
                    || (options.useCSInstrumentation && (!options.onlyEligibleNodes || eligibleForPath(n))))
    {
      && !facts(n).NeverCalled()
      && (options.AsFunction(facts(n))
          || (options.useCSInstrumentation && (!options.onlyEligibleNodes || eligibleForPath(n))))
    }

    /** The nodes to fill: all wanted ones of the first so many, each under its own name. */
    ghost predicate Collected(marked: set<NodeId>, main_: NodeId, first: nat)
      reads this`nodesToFill, graph
    {
      && (forall name :: name in nodesToFill ==>
            && Wanted(graph.edges, marked, main_, nodesToFill[name])
            && Live(graph.nodes, nodesToFill[name])
            && graph.nodes[nodesToFill[name]].value.functionName == name)
      && (forall t: NodeId, n: NodeId |
            t < first && WantedFor(graph.edges, marked, main_, t, n) && Live(graph.nodes, n) ::
            graph.nodes[n].value.functionName in nodesToFill)
    }

    /** Looks at every node, and collects all between main and those with a gap above them. */
    method CollectNodesToFill(mainMethod: NodeId)
      requires graph.Valid() && NoneErased(graph.nodes) && Live(graph.nodes, mainMethod)
      requires graph.MainOrNone() == Some(mainMethod) && nodesToFill == map[]
      modifies this`nodesToFill, graph`mainNode
      ensures graph.Valid() && graph.MainOrNone() == Some(mainMethod)
      ensures Collected(marks.All(), mainMethod, |graph.nodes|)
    {
      hide Callgraph.Valid, Wanted, WantedFor, NodesToMain, Reaches;
      ghost var marked := marks.All();
      var ra := new ReachabilityAnalysis(graph);
      var pathsToMain: map<NodeId, set<NodeId>> := map[];
      for i := 0 to |graph.nodes|
        invariant MainUpToDate(ra) && ra.cg == graph && fresh(ra) && graph.MainOrNone() == Some(mainMethod)
        invariant marks.All() == marked && forall k :: k in pathsToMain ==> k < i
        invariant Collected(marked, mainMethod, i)
      {
        var node := i;
        var parents := graph.GetCallers(node);
        if marks.IsAnyInstrumented(node) && exists p :: p in parents && !marks.IsAnyInstrumented(p) {
          var nodesToMain := AllNodesToMain(node, mainMethod, pathsToMain, ra);
          pathsToMain := pathsToMain[node := nodesToMain];
          InsertAll(mainMethod, node, nodesToMain);
        } else {
          NotWantedFor(graph.edges, marked, mainMethod, node);
        }
      }
    }

    /** All nodes on the paths to one node. */
    method InsertAll(mainMethod: NodeId, t: NodeId, nodesToMain: set<NodeId>)
      requires graph.Valid() && Live(graph.nodes, mainMethod) && Collected(marks.All(), mainMethod, t)
      requires Trigger(graph.edges, marks.All(), t)
      requires NodesToMain(graph.edges, mainMethod, mainMethod, t, nodesToMain)
      modifies this`nodesToFill
      ensures Collected(marks.All(), mainMethod, t + 1)
    {
      hide Callgraph.Valid, Reaches, Trigger, Wanted;
      ghost var marked := marks.All();
      var todo := nodesToMain;
      while todo != {}
        invariant todo <= nodesToMain && Collected(marked, mainMethod, t)
        invariant forall n :: n in nodesToMain - todo && n !in marked && Live(graph.nodes, n) ==>
                    graph.nodes[n].value.functionName in nodesToFill
      {
        var ntm :| ntm in todo;
        if !marks.IsAnyInstrumented(ntm) {
          assert Wanted(graph.edges, marked, mainMethod, ntm) by {
            WantedThrough(graph.edges, marked, mainMethod, t, ntm, nodesToMain);
          }
          WantedIsLive(graph, marked, mainMethod, ntm);
          var name := graph.nodes[ntm].value.functionName;
          if name !in nodesToFill {
            nodesToFill := nodesToFill[name := ntm];
          }
        }
        todo := todo - {ntm};
      }
    }

    /** Fills the gaps: one wanted node of each name, as far as it can be instrumented, and
        nothing else.  With unique names these are all wanted nodes. */
    method ModifyGraph(mainMethod: NodeId)
      requires graph.Valid() && NoneErased(graph.nodes)
      requires Live(graph.nodes, mainMethod) && graph.MainOrNone() == Some(mainMethod)
      requires nodesToFill == map[]
      modifies this`nodesToFill, graph`mainNode, marks
      ensures graph.Valid()
      ensures OnePerName(graph.nodes, graph.edges, old(marks.All()), mainMethod, nodesToFill.Values)
      ensures forall n :: n in marks.All() <==> n in old(marks.All()) || (n in nodesToFill.Values && Fillable(n))
      ensures NameUnique(graph.nodes) ==>
                forall n ::
                  n in marks.All()
                  <==> n in old(marks.All())
                       || (Wanted(graph.edges, old(marks.All()), mainMethod, n) && Fillable(n))
      ensures (exists n :: Gap(graph.edges, marks.All(), Fillable, mainMethod, n))
              <==> OnlyMainAdded(graph.edges, old(marks.All()), Fillable, mainMethod)
                   || exists n :: LeftOut(graph.edges, old(marks.All()), Fillable, mainMethod, nodesToFill.Values, n)
      ensures FillableRivals(graph.nodes, graph.edges, old(marks.All()), Fillable, mainMethod) ==>
                exists n :: Gap(graph.edges, marks.All(), Fillable, mainMethod, n)
      ensures !AnyRivals(graph.nodes, graph.edges, old(marks.All()), Fillable, mainMethod) ==>
                ((exists n :: Gap(graph.edges, marks.All(), Fillable, mainMethod, n))
                 <==> OnlyMainAdded(graph.edges, old(marks.All()), Fillable, mainMethod))
    {
      hide Callgraph.Valid, Wanted, Gap, OnlyMainAdded, NameUnique, OnePerName, LeftOut, FillableRivals, AnyRivals;
      ghost var marked := marks.All();
      CollectNodesToFill(mainMethod);
      CollectedByName(marked, mainMethod);
      FillAll();
      if NameUnique(graph.nodes) {
        AllCollected(marked, mainMethod);
      }
      GapsClosed(graph.nodes, graph.edges, marked, Fillable, mainMethod, nodesToFill.Values, marks.All());
      GapsForeseen(graph.nodes, graph.edges, marked, Fillable, mainMethod, nodesToFill.Values, marks.All());
    }

    method FillAll()
      modifies marks
      ensures forall n :: n in marks.All() <==> n in old(marks.All()) || (n in nodesToFill.Values && Fillable(n))
      ensures forall n ::
                if n in nodesToFill.Values && Fillable(n) then
                  n in marks.state
                  && marks.state[n] == if facts(n).hasBody || facts(n).isMPIFunction
                                          || (!options.onlyEligibleNodes && !options.useCSInstrumentation)
                                       then Instrumented else InstrumentedPath
                else
                  (n in marks.state <==> n in old(marks.state))
                  && (n in marks.state ==> marks.state[n] == old(marks.state)[n])
    {
      var todo := nodesToFill.Keys;
      while todo != {}
        invariant todo <= nodesToFill.Keys
        invariant forall n ::
                    if Fillable(n) && exists name :: name in nodesToFill.Keys - todo && nodesToFill[name] == n then
                      n in marks.state
                      && marks.state[n] == if options.AsFunction(facts(n)) then Instrumented else InstrumentedPath
                    else
                      (n in marks.state <==> n in old(marks.state))
                      && (n in marks.state ==> marks.state[n] == old(marks.state)[n])
        invariant forall n ::
                    n in marks.All()
                    <==> n in old(marks.All())
                         || (Fillable(n) && exists name :: name in nodesToFill.Keys - todo && nodesToFill[name] == n)
      {
        var name :| name in todo;
        var ntf := nodesToFill[name];
        if !facts(ntf).NeverCalled() {
          if options.AsFunction(facts(ntf)) {
            marks.InstrumentNode(ntf);
          } else if options.useCSInstrumentation {
            if options.onlyEligibleNodes {
              if eligibleForPath(ntf) {
                marks.InstrumentPathNode(ntf);
              }
            } else {
              marks.InstrumentPathNode(ntf);
            }
          }
        }
        todo := todo - {name};
      }
    }

    lemma CollectedByName(marked: set<NodeId>, main_: NodeId)
      requires graph.Valid() && Live(graph.nodes, main_) && Collected(marked, main_, |graph.nodes|)
      ensures OnePerName(graph.nodes, graph.edges, marked, main_, nodesToFill.Values)
    {
      hide Callgraph.Valid, Reaches, WantedFor;
      forall n: NodeId | Wanted(graph.edges, marked, main_, n)
        ensures Live(graph.nodes, n) && OneLike(graph.nodes, nodesToFill.Values, n)
      {
        WantedIsLive(graph, marked, main_, n);
        var t: NodeId :| WantedFor(graph.edges, marked, main_, t, n);
        TriggerIsLive(graph, marked, main_, t, n);
        var m := nodesToFill[graph.nodes[n].value.functionName];
        assert m in nodesToFill.Values;
      }
    }

    lemma AllCollected(marked: set<NodeId>, main_: NodeId)
      requires graph.Valid() && NameUnique(graph.nodes) && Live(graph.nodes, main_)
      requires Collected(marked, main_, |graph.nodes|)
      ensures forall n: NodeId :: n in nodesToFill.Values <==> Wanted(graph.edges, marked, main_, n)
    {
      hide Callgraph.Valid, Reaches;
      forall n: NodeId | Wanted(graph.edges, marked, main_, n)
        ensures n in nodesToFill.Values
      {
        WantedIsLive(graph, marked, main_, n);
        TriggersAreLive(graph, marked);
        var name := graph.nodes[n].value.functionName;
        assert exists t: NodeId :: t < |graph.nodes| && WantedFor(graph.edges, marked, main_, t, n);
        OneOfAName(graph.nodes, nodesToFill[name], n);
        assert nodesToFill[name] == n;
      }
    }
  }

  lemma TriggerIsLive(graph: Callgraph, marked: set<NodeId>, main_: NodeId, t: NodeId, n: NodeId)
    requires graph.Valid() && WantedFor(graph.edges, marked, main_, t, n)
    ensures t < |graph.nodes|
  {
  }

  lemma NotWantedFor(edges: Edges, marked: set<NodeId>, main_: NodeId, t: NodeId)
    requires t !in marked || forall p :: (p, t) in edges ==> p in marked
    ensures forall n: NodeId :: !WantedFor(edges, marked, main_, t, n)
  {
  }

  lemma WantedThrough(edges: Edges, marked: set<NodeId>, main_: NodeId, t: NodeId, n: NodeId, s: set<NodeId>)
    requires NodesToMain(edges, main_, main_, t, s) && n in s && n !in marked && Trigger(edges, marked, t)
    ensures Wanted(edges, marked, main_, n)
  {
    assert WantedFor(edges, marked, main_, t, n);
  }

  lemma TriggersAreLive(graph: Callgraph, marked: set<NodeId>)
    requires graph.Valid()
    ensures forall t: NodeId :: Trigger(graph.edges, marked, t) ==> t < |graph.nodes|
  {
  }

  /** With unique names there are no rivals. */
  lemma UniqueNamesNoRivals(nodes: Nodes, edges: Edges, marked: set<NodeId>, fillable: NodeId -> bool, main_: NodeId)
    requires NameUnique(nodes)
    ensures !AnyRivals(nodes, edges, marked, fillable, main_)
  {
    hide NameUnique, Wanted;
    forall m: NodeId, n: NodeId | Rivals(nodes, edges, marked, main_, m, n)
      ensures false
    {
      OneOfAName(nodes, m, n);
    }
  }

  lemma OneOfAName(nodes: Nodes, m: NodeId, n: NodeId)
    requires NameUnique(nodes) && Live(nodes, m) && Live(nodes, n)
    requires nodes[m].value.functionName == nodes[n].value.functionName
    ensures m == n
  {
    var name := nodes[n].value.functionName;
    IdListed(nodes, name, m);
    IdListed(nodes, name, n);
    assert |IdsOf(nodes, name)| <= 1;
  }

  // ---------------------------------------------------------------- the gap that can be left

  const FILLABLE := NodeFacts(true, false, None, 1.0)

  /** main and n call each other, and u, which nobody calls, calls the instrumented t. */
  function ExampleNodes(): Nodes {
    [Some(CgNode(0, "main", None, true)), Some(CgNode(1, "n", None, true)), Some(CgNode(2, "u", None, true)),
     Some(CgNode(3, "t", None, true))]
  }

  function ExampleEdges(): Edges {
    {(0, 1), (1, 0), (2, 3)}
  }

  lemma ExampleNames()
    ensures NameUnique(ExampleNodes()) && IdsOf(ExampleNodes(), "main") == [0]
  {
    var nodes := ExampleNodes();
    forall i, j | 0 <= i < j < |nodes|
      ensures nodes[i].value.functionName != nodes[j].value.functionName
    {
      assert |"main"| == 4 && "n"[0] != "u"[0] && "n"[0] != "t"[0] && "u"[0] != "t"[0];
    }
    forall name
      ensures |IdsOf(nodes, name)| <= 1
    {
      IdsOfContents(nodes, name);
      if |IdsOf(nodes, name)| > 1 {
        TwoOfAName(nodes, name);
      }
    }
    IdListed(nodes, "main", 0);
    IdsOfContents(nodes, "main");
    assert |IdsOf(nodes, "main")| <= 1;
  }

  lemma TwoOfAName(nodes: Nodes, name: string)
    requires |IdsOf(nodes, name)| > 1
    ensures exists i: NodeId, j: NodeId :: i < j && Live(nodes, i) && Live(nodes, j)
              && nodes[i].value.functionName == name == nodes[j].value.functionName
  {
    IdsOfContents(nodes, name);
    var ids := IdsOf(nodes, name);
    assert ids[0] in ids && ids[1] in ids && ids[0] < ids[1];
  }

  lemma ExampleAddsOnlyMain(fillable: NodeId -> bool)
    requires forall n :: fillable(n)
    ensures OnlyMainAdded(ExampleEdges(), {3}, fillable, 0)
  {
    var edges := ExampleEdges();
    assert (2, 3) in edges && Trigger(edges, {3}, 3);
    if Reaches(edges, 0, 3) {
      var p :| IsPath(edges, 0, p, 3);
      ClosedContains(edges, {0, 1}, 0, p, 3);
    }
    assert forall t :: Trigger(edges, {3}, t) ==> t == 3;
    ReachesItself(edges, 0);
    ReachesItself(edges, 1);
    ReachesFurther(edges, 0, 0, 1);
    ReachesFurther(edges, 1, 1, 0);
  }

  method ExampleGraph() returns (graph: Callgraph)
    ensures fresh(graph) && graph.Valid() && graph.mainNode == None
    ensures graph.nodes == ExampleNodes() && graph.edges == ExampleEdges()
  {
    graph := new Callgraph();
    assert graph.mainNode == None;
    hide Callgraph.Valid, ExampleNodes, ExampleEdges, IdsOf;
    AddExampleNodes(graph);
    AddExampleEdges(graph);
  }

  method AddExampleNodes(graph: Callgraph)
    requires graph.Valid() && graph.nodes == []
    modifies graph`nodes, graph`nameIdMap, graph`hasDuplicates
    ensures graph.Valid() && graph.nodes == ExampleNodes()
  {
    hide Callgraph.Valid, IdsOf;
    var _ := graph.Insert("main", None, true);
    var _ := graph.Insert("n", None, true);
    var _ := graph.Insert("u", None, true);
    var _ := graph.Insert("t", None, true);
  }

  method AddExampleEdges(graph: Callgraph)
    requires graph.Valid() && graph.nodes == ExampleNodes() && graph.edges == {}
    modifies graph`edges, graph`calleeList, graph`callerList
    ensures graph.Valid() && graph.edges == ExampleEdges()
  {
    assert forall id: NodeId :: id < 4 ==> Live(graph.nodes, id);
    hide Callgraph.Valid, ExampleNodes, Live;
    var _ := graph.AddEdge(0, 1);
    var _ := graph.AddEdge(1, 0);
    var _ := graph.AddEdge(2, 3);
  }

  /** The phase on this graph: main is instrumented, but not n, which calls main. */
  method GapThatIsLeft() returns (phase: FillInstrumentationGapsPhase)
    ensures phase.graph.Valid() && NameUnique(phase.graph.nodes) && NoneErased(phase.graph.nodes)
    ensures exists n :: Gap(phase.graph.edges, phase.marks.All(), phase.Fillable, 0, n)
  {
    hide Callgraph.Valid, Gap, OnlyMainAdded, NameUnique, IdsOf;
    var graph := ExampleGraph();
    var marks := new Marks();
    marks.InstrumentNode(3);
    assert marks.All() == {3};
    ExampleNames();
    phase := new FillInstrumentationGapsPhase(graph, marks, _ => FILLABLE, Options(false, true), _ => false);
    assert forall n :: phase.Fillable(n);
    UniqueNamesNoRivals(graph.nodes, graph.edges, {3}, phase.Fillable, 0);
    ExampleAddsOnlyMain(phase.Fillable);
    assert graph.MainOrNone() == Some(0);
    phase.ModifyGraph(0);
  }

  /** main calls two functions `f`, and both call the instrumented t. */
  function TwinNodes(): Nodes {
    [Some(CgNode(0, "main", None, true)), Some(CgNode(1, "f", None, true)), Some(CgNode(2, "f", None, true)),
     Some(CgNode(3, "t", None, true))]
  }

  function TwinEdges(): Edges {
    {(0, 1), (0, 2), (1, 3), (2, 3)}
  }

  lemma TwinsWanted()
    ensures Wanted(TwinEdges(), {0, 3}, 0, 1) && Wanted(TwinEdges(), {0, 3}, 0, 2)
    ensures Reaches(TwinEdges(), 0, 1) && Reaches(TwinEdges(), 0, 2)
    ensures Reaches(TwinEdges(), 1, 3) && Reaches(TwinEdges(), 2, 3)
  {
    var edges := TwinEdges();
    ReachesItself(edges, 0);
    ReachesFurther(edges, 0, 0, 1);
    ReachesFurther(edges, 0, 0, 2);
    ReachesItself(edges, 1);
    ReachesFurther(edges, 1, 1, 3);
    ReachesItself(edges, 2);
    ReachesFurther(edges, 2, 2, 3);
    assert (1, 3) in edges && Trigger(edges, {0, 3}, 3);
    assert WantedFor(edges, {0, 3}, 0, 3, 1) && WantedFor(edges, {0, 3}, 0, 3, 2);
  }

  /** With several nodes of one name a gap is left: only one of the two can be chosen. */
  lemma TwinLeftOut(after: set<NodeId>, chosen: set<NodeId>, fillable: NodeId -> bool)
    requires forall n :: fillable(n)
    requires OnePerName(TwinNodes(), TwinEdges(), {0, 3}, 0, chosen) && Filled({0, 3}, fillable, chosen, after)
    ensures FillableRivals(TwinNodes(), TwinEdges(), {0, 3}, fillable, 0)
    ensures !OnlyMainAdded(TwinEdges(), {0, 3}, fillable, 0)
    ensures exists n :: Gap(TwinEdges(), after, fillable, 0, n)
  {
    TwinsWanted();
    assert Rivals(TwinNodes(), TwinEdges(), {0, 3}, 0, 1, 2);
    GapsForeseen(TwinNodes(), TwinEdges(), {0, 3}, fillable, 0, chosen, after);
  }
}
