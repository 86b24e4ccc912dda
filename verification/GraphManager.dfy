/**
 Merging all managed call graphs into the active one (graph/src/MCGManager.cpp).

 The names of the graphs come out of an unordered set, so the result must not depend on the
 order, at least not in what a graph says about function names.
 */
module GraphManager {
  import opened CallgraphModel
  import opened CallgraphMerge
  import opened Optional

  /** What a graph says about names: which there are, which have a body, which calls which. */
  datatype Summary = Summary(names: set<string>, defined: set<string>, calls: set<(string, string)>)

  ghost function NamesIn(nodes: Nodes): set<string> {
    set i | 0 <= i < |nodes| && nodes[i].Some? :: nodes[i].value.functionName
  }

  ghost function DefinedIn(nodes: Nodes): set<string> {
    set i | 0 <= i < |nodes| && nodes[i].Some? && nodes[i].value.hasBody :: nodes[i].value.functionName
  }

  ghost function CallsIn(nodes: Nodes, edges: Edges): set<(string, string)> {
    set e | e in edges && Live(nodes, e.0) && Live(nodes, e.1)
      :: (nodes[e.0].value.functionName, nodes[e.1].value.functionName)
  }

  /** Told by nodes: a name has a node, a name has a node with a body, and a node of the first
      name has an edge to one of the second. */
  lemma NamesMean(nodes: Nodes, edges: Edges, x: string, y: string)
    ensures x in NamesIn(nodes) <==> exists n: NodeId :: Live(nodes, n) && nodes[n].value.functionName == x
    ensures x in DefinedIn(nodes)
            <==> exists n: NodeId :: Live(nodes, n) && nodes[n].value.functionName == x && nodes[n].value.hasBody
    ensures (x, y) in CallsIn(nodes, edges)
            <==> exists m, n :: (m, n) in edges && Live(nodes, m) && Live(nodes, n)
                                && nodes[m].value.functionName == x && nodes[n].value.functionName == y
  {
    if m, n :| (m, n) in edges && Live(nodes, m) && Live(nodes, n)
               && nodes[m].value.functionName == x && nodes[n].value.functionName == y {
      assert (m, n).0 == m && (m, n).1 == n;
    }
    if (x, y) in CallsIn(nodes, edges) {
      var e :| e in edges && Live(nodes, e.0) && Live(nodes, e.1)
               && (x, y) == (nodes[e.0].value.functionName, nodes[e.1].value.functionName);
      assert (e.0, e.1) in edges;
    }
    assert forall n: NodeId :: Live(nodes, n) ==> 0 <= n < |nodes| && nodes[n].Some?;
  }

  ghost function SummaryOf(nodes: Nodes, edges: Edges): Summary {
    Summary(NamesIn(nodes), DefinedIn(nodes), CallsIn(nodes, edges))
  }

  ghost function Union(a: Summary, b: Summary): Summary {
    Summary(a.names + b.names, a.defined + b.defined, a.calls + b.calls)
  }

  // ---------------------------------------------------------------- one merge

  lemma MergedNamesStep(nodes: Nodes, source: CgNode)
    ensures NamesIn(MergeNode(nodes, source)) == NamesIn(nodes) + {source.functionName}
    ensures DefinedIn(MergeNode(nodes, source))
         == DefinedIn(nodes) + if source.hasBody then {source.functionName} else {}
  {
    var merged, name := MergeNode(nodes, source), source.functionName;
    IdsOfContents(nodes, name);
    var ids := IdsOf(nodes, name);
    if ids == [] {
      assert merged[..|nodes|] == nodes && merged[|nodes|].value.functionName == name;
      assert forall i :: 0 <= i < |nodes| ==> merged[i] == nodes[i];
    } else {
      assert ids[0] in ids;
      assert forall i :: 0 <= i < |nodes| && i != ids[0] ==> merged[i] == nodes[i];
      assert merged[ids[0]].value.functionName == name;
    }
    forall n | n in NamesIn(nodes) + {name}
      ensures n in NamesIn(merged)
    {
      if n != name {
        var i :| 0 <= i < |nodes| && nodes[i].Some? && nodes[i].value.functionName == n;
        assert merged[i] == nodes[i];
      }
    }
    forall n | n in DefinedIn(nodes)
      ensures n in DefinedIn(merged)
    {
      var i :| 0 <= i < |nodes| && nodes[i].Some? && nodes[i].value.hasBody && nodes[i].value.functionName == n;
      assert merged[i].Some? && merged[i].value.hasBody && merged[i].value.functionName == n;
    }
  }

  lemma {:induction false} MergedNames(nodes: Nodes, other: Nodes, n: nat)
    requires NoneErased(other) && n <= |other|
    ensures NamesIn(MergeNodes(nodes, Sources(other)[..n])) == NamesIn(nodes) + NamesIn(other[..n])
    ensures DefinedIn(MergeNodes(nodes, Sources(other)[..n])) == DefinedIn(nodes) + DefinedIn(other[..n])
  {
    hide NamesIn, DefinedIn, MergeNode;
    if n > 0 {
      MergedNames(nodes, other, n - 1);
      var fewer, node := other[..n - 1], other[n - 1].value;
      assert Sources(other)[..n][..n - 1] == Sources(other)[..n - 1];
      MergedNamesStep(MergeNodes(nodes, Sources(other)[..n - 1]), node);
      assert other[..n] == fewer + [Some(node)];
      NamesOfOneMore(fewer, node);
    } else {
      NoNamesIn(nodes);
    }
  }

  lemma NoNamesIn(nodes: Nodes)
    ensures NamesIn(nodes) == NamesIn(nodes) + NamesIn([]) && DefinedIn(nodes) == DefinedIn(nodes) + DefinedIn([])
  {
  }

  lemma NamesOfOneMore(nodes: Nodes, node: CgNode)
    ensures NamesIn(nodes + [Some(node)]) == NamesIn(nodes) + {node.functionName}
    ensures DefinedIn(nodes + [Some(node)]) == DefinedIn(nodes) + if node.hasBody then {node.functionName} else {}
  {
    var more := nodes + [Some(node)];
    assert more[|nodes|] == Some(node);
    assert forall i :: 0 <= i < |nodes| ==> more[i] == nodes[i];
    forall n | n in NamesIn(nodes)
      ensures n in NamesIn(more)
    {
      var i :| 0 <= i < |nodes| && nodes[i].Some? && nodes[i].value.functionName == n;
      assert more[i] == nodes[i];
    }
    forall n | n in DefinedIn(nodes)
      ensures n in DefinedIn(more)
    {
      var i :| 0 <= i < |nodes| && nodes[i].Some? && nodes[i].value.hasBody && nodes[i].value.functionName == n;
      assert more[i] == nodes[i];
    }
  }

  lemma CallsOfImage(nodes: Nodes, other: Nodes, edges: Edges, mapping: map<NodeId, NodeId>)
    requires NoneErased(other) && BetweenLive(other, edges)
    requires MappingFor(nodes, Sources(other), mapping)
    ensures CallsIn(nodes, ImageOf(edges, mapping)) == CallsIn(other, edges)
  {
    MappedAreLive(nodes, Sources(other), mapping);
    forall c | c in CallsIn(other, edges)
      ensures c in CallsIn(nodes, ImageOf(edges, mapping))
    {
      var e :| e in edges && c == (other[e.0].value.functionName, other[e.1].value.functionName);
      assert (mapping[e.0], mapping[e.1]) in ImageOf(edges, mapping);
    }
    forall c | c in CallsIn(nodes, ImageOf(edges, mapping))
      ensures c in CallsIn(other, edges)
    {
      var e :| e in edges && e.0 in mapping && e.1 in mapping
               && c == (nodes[mapping[e.0]].value.functionName, nodes[mapping[e.1]].value.functionName);
      assert c == (other[e.0].value.functionName, other[e.1].value.functionName);
    }
  }

  lemma CallsKept(nodes: Nodes, sources: seq<CgNode>, edges: Edges)
    requires BetweenLive(nodes, edges)
    ensures CallsIn(MergeNodes(nodes, sources), edges) == CallsIn(nodes, edges)
  {
    hide MergeNodes;
    forall e | e in edges
      ensures Live(MergeNodes(nodes, sources), e.0) && Live(MergeNodes(nodes, sources), e.1)
      ensures MergeNodes(nodes, sources)[e.0].value.functionName == nodes[e.0].value.functionName
      ensures MergeNodes(nodes, sources)[e.1].value.functionName == nodes[e.1].value.functionName
    {
      OtherNodesKept(nodes, sources, e.0);
      OtherNodesKept(nodes, sources, e.1);
    }
  }

  /** Merging is a union of what the graphs say about names. */
  lemma MergeIsUnion(nodes: Nodes, edges: Edges, other: Nodes, otherEdges: Edges, mapping: map<NodeId, NodeId>)
    requires BetweenLive(nodes, edges) && NoneErased(other) && BetweenLive(other, otherEdges)
    requires MappingFor(MergeNodes(nodes, Sources(other)), Sources(other), mapping)
    ensures SummaryOf(MergeNodes(nodes, Sources(other)), edges + ImageOf(otherEdges, mapping))
         == Union(SummaryOf(nodes, edges), SummaryOf(other, otherEdges))
  {
    hide MergeNodes, NamesIn, DefinedIn, MappingFor;
    var merged := MergeNodes(nodes, Sources(other));
    assert other[..|other|] == other && Sources(other)[..|other|] == Sources(other);
    MergedNames(nodes, other, |other|);
    CallsKept(nodes, Sources(other), edges);
    CallsOfImage(merged, other, otherEdges, mapping);
    assert CallsIn(merged, edges + ImageOf(otherEdges, mapping))
        == CallsIn(merged, edges) + CallsIn(merged, ImageOf(otherEdges, mapping));
  }

  lemma NamesStayUnique(nodes: Nodes, sources: seq<CgNode>)
    requires NameUnique(nodes)
    ensures NameUnique(MergeNodes(nodes, sources))
  {
    forall name
      ensures |IdsOf(MergeNodes(nodes, sources), name)| <= 1
    {
      MergedIds(nodes, sources, name);
      assert |IdsOf(nodes, name)| <= 1;
    }
  }

  // ---------------------------------------------------------------- merging twice

  /** All sources have been merged: each finds a node that has a body if it has one itself. */
  ghost predicate AllAbsorbed(nodes: Nodes, sources: seq<CgNode>) {
    forall s :: 0 <= s < |sources| ==> MergeNode(nodes, sources[s]) == nodes
  }

  lemma MergedAreAbsorbed(nodes: Nodes, sources: seq<CgNode>)
    requires OwnIds(nodes)
    ensures AllAbsorbed(MergeNodes(nodes, sources), sources)
  {
    forall s | 0 <= s < |sources|
      ensures MergeNode(MergeNodes(nodes, sources), sources[s]) == MergeNodes(nodes, sources)
    {
      var name := sources[s].functionName;
      NamedContents(sources, s);
      assert sources[s] in Candidates(nodes, sources, name);
      MergedNode(nodes, sources, name);
      WinnerIsFirstDefinition(Candidates(nodes, sources, name));
    }
  }

  lemma {:induction false} NamedContents(sources: seq<CgNode>, s: nat)
    requires s < |sources|
    ensures sources[s] in Named(sources, sources[s].functionName)
  {
    if s < |sources| - 1 {
      NamedContents(sources[..|sources| - 1], s);
    }
  }

  lemma {:induction false} AbsorbedAgain(nodes: Nodes, sources: seq<CgNode>)
    requires AllAbsorbed(nodes, sources)
    ensures MergeNodes(nodes, sources) == nodes
  {
    if sources != [] {
      var fewer := sources[..|sources| - 1];
      assert forall s :: 0 <= s < |fewer| ==> fewer[s] == sources[s];
      AbsorbedAgain(nodes, fewer);
    }
  }

  /** Merging the same graph a second time changes nothing, not even an id. */
  lemma MergeIsIdempotent(nodes: Nodes, edges: Edges, sources: seq<CgNode>, otherEdges: Edges,
                          mapping: map<NodeId, NodeId>, again: map<NodeId, NodeId>)
    requires OwnIds(nodes)
    requires var merged := MergeNodes(nodes, sources);
             MappingFor(merged, sources, mapping) && MappingFor(MergeNodes(merged, sources), sources, again)
    ensures var merged := MergeNodes(nodes, sources);
            var mergedEdges := edges + ImageOf(otherEdges, mapping);
            MergeNodes(merged, sources) == merged && mergedEdges + ImageOf(otherEdges, again) == mergedEdges
  {
    hide MergeNodes, AllAbsorbed;
    var merged := MergeNodes(nodes, sources);
    MergedAreAbsorbed(nodes, sources);
    AbsorbedAgain(merged, sources);
    assert forall s: NodeId | s in mapping ::
             MapsTo(merged, sources[s], mapping[s]) && MapsTo(merged, sources[s], again[s]);
    assert again == mapping;
  }

  // ---------------------------------------------------------------- where the order shows

  lemma {:induction false} MergedOneByOne(nodes: Nodes, first: seq<CgNode>, second: seq<CgNode>)
    ensures MergeNodes(MergeNodes(nodes, first), second) == MergeNodes(nodes, first + second)
  {
    if second == [] {
      assert first + second == first;
    } else {
      var last := |second| - 1;
      assert (first + second)[..|first + second| - 1] == first + second[..last];
      MergedOneByOne(nodes, first, second[..last]);
    }
  }

  lemma {:induction false} NamedOfBoth(first: seq<CgNode>, second: seq<CgNode>, name: string)
    ensures Named(first + second, name) == Named(first, name) + Named(second, name)
  {
    if second == [] {
      assert first + second == first;
    } else {
      var last := |second| - 1;
      assert (first + second)[..|first + second| - 1] == first + second[..last];
      NamedOfBoth(first, second[..last], name);
    }
  }

  lemma {:induction false} WinnerOfBoth(first: seq<CgNode>, second: seq<CgNode>)
    requires first != [] && second != []
    ensures Winner(first + second)
         == if !Winner(first).hasBody && Winner(second).hasBody then Winner(second) else Winner(first)
  {
    var last := |second| - 1;
    assert (first + second)[..|first + second| - 1] == first + second[..last];
    if last == 0 {
      assert first + second[..last] == first;
    } else {
      WinnerOfBoth(first, second[..last]);
    }
  }

  function Origin(nodes: Nodes, name: string): Option<string> {
    if IdsOf(nodes, name) != [] && Live(nodes, IdsOf(nodes, name)[0])
    then nodes[IdsOf(nodes, name)[0]].value.origin else None
  }

  /** The origin of a function depends on the order of the graphs unless just one defines it, or
      all agree. */
  lemma OriginOrder(first: seq<CgNode>, second: seq<CgNode>, name: string)
    requires Named(first, name) != [] && Named(second, name) != []
    ensures var a, b := Winner(Named(first, name)), Winner(Named(second, name));
            Origin(MergeNodes(MergeNodes([], first), second), name)
              == Origin(MergeNodes(MergeNodes([], second), first), name)
            <==> a.hasBody != b.hasBody || a.origin == b.origin
  {
    hide MergeNodes, Winner;
    MergedOneByOne([], first, second);
    MergedOneByOne([], second, first);
    NamedOfBoth(first, second, name);
    NamedOfBoth(second, first, name);
    WinnerOfBoth(Named(first, name), Named(second, name));
    WinnerOfBoth(Named(second, name), Named(first, name));
    MergedNode([], first + second, name);
    MergedNode([], second + first, name);
    assert Candidates([], first + second, name) == Named(first, name) + Named(second, name);
    assert Candidates([], second + first, name) == Named(second, name) + Named(first, name);
  }

  const FROM_A := CgNode(0, "f", Some("a.c"), true)
  const FROM_B := CgNode(0, "f", Some("b.c"), true)

  lemma OneNamed(node: CgNode, name: string)
    requires node.functionName == name
    ensures Named([node], name) == [node] && Winner([node]) == node
  {
    assert [node][..0] == [];
  }

  /** Two graphs that both define `f`, in different files: the first one decides. */
  lemma OriginsDiffer()
    ensures Origin(MergeNodes(MergeNodes([], [FROM_A]), [FROM_B]), "f")
         != Origin(MergeNodes(MergeNodes([], [FROM_B]), [FROM_A]), "f")
  {
    OneNamed(FROM_A, "f");
    OneNamed(FROM_B, "f");
    hide MergeNodes, Named, IdsOf, Origin, Winner;
    OriginOrder([FROM_A], [FROM_B], "f");
    assert "a.c" != "b.c" by {
      assert "a.c"[0] != "b.c"[0];
    }
  }

  // ---------------------------------------------------------------- all managed graphs

  ghost function AllOf(start: Summary, others: map<string, Summary>): Summary {
    Summary(
      start.names + (set n, x | n in others && x in others[n].names :: x),
      start.defined + (set n, x | n in others && x in others[n].defined :: x),
      start.calls + (set n, x | n in others && x in others[n].calls :: x))
  }

  lemma AllOfOneMore(start: Summary, done: map<string, Summary>, name: string, more: Summary)
    requires name !in done
    ensures AllOf(start, done[name := more]) == Union(AllOf(start, done), more)
  {
    var all, both := AllOf(start, done[name := more]), Union(AllOf(start, done), more);
    assert forall n :: n in done ==> n in done[name := more] && done[name := more][n] == done[n];
    assert name in done[name := more] && done[name := more][name] == more;
    assert all.names == both.names;
    assert all.defined == both.defined;
    assert all.calls == both.calls;
  }

  lemma {:induction false} NothingErased(nodes: Nodes, sources: seq<CgNode>)
    requires NoneErased(nodes)
    ensures NoneErased(MergeNodes(nodes, sources))
  {
    hide IdsOf;
    if sources != [] {
      NothingErased(nodes, sources[..|sources| - 1]);
    }
  }

  class MCGManager {
    var managedGraphs: map<string, Callgraph>
    var activeGraph: Callgraph?

    /** Each graph has one name, and the active graph is one of them. */
    ghost predicate Valid()
      reads this, managedGraphs.Values
    {
      && (forall n :: n in managedGraphs ==> managedGraphs[n].Valid())
      && (forall m, n :: m in managedGraphs && n in managedGraphs && managedGraphs[m] == managedGraphs[n] ==> m == n)
      && (activeGraph != null ==> activeGraph in managedGraphs.Values)
    }

    constructor ()
      ensures Valid() && managedGraphs == map[] && activeGraph == null
    {
      managedGraphs, activeGraph := map[], null;
    }

    /** Replacing the active graph without making the new one active would leave a dangling
        pointer behind. */
    method AddToManagedGraphs(name: string, callgraph: Callgraph, setActive: bool)
      requires Valid() && callgraph.Valid() && callgraph !in managedGraphs.Values
      requires !setActive && name in managedGraphs ==> managedGraphs[name] != activeGraph
      modifies this
      ensures Valid() && managedGraphs == old(managedGraphs)[name := callgraph]
      ensures activeGraph == if setActive then callgraph else old(activeGraph)
    {
      if !setActive && activeGraph != null {
        var n :| n in managedGraphs && managedGraphs[n] == activeGraph;
        assert managedGraphs[name := callgraph][n] == activeGraph;
      }
      managedGraphs := managedGraphs[name := callgraph];
      assert managedGraphs[name] == callgraph;
      if setActive {
        activeGraph := managedGraphs[name];
      }
    }

    /** Looking a graph up: the empty name means the active one. */
    function GetCallgraph(name: string): (r: Callgraph?)
      reads this
      ensures name != "" && name in managedGraphs ==> r == managedGraphs[name]
    {
      if name == "" then activeGraph else if name in managedGraphs then managedGraphs[name] else null
    }

    predicate AssertActive(name: string)
      requires name in managedGraphs
      reads this
    {
      managedGraphs[name] == activeGraph
    }

    /** What the graphs to be merged say.  A graph kept under the empty name is not among them:
        looking it up yields the active graph instead. */
    ghost function Others(): map<string, Summary>
      reads this, managedGraphs.Values
    {
      map n | n in managedGraphs && n != "" && managedGraphs[n] != activeGraph
        :: SummaryOf(managedGraphs[n].nodes, managedGraphs[n].edges)
    }

    /** In whatever order the names come: a name, a definition or a call is in the active graph if
        and only if it was, or if it is in some graph kept under a name. */
    method MergeIntoActiveGraph()
      requires Valid() && activeGraph != null
      requires forall n :: n in managedGraphs && managedGraphs[n] != activeGraph ==> NoneErased(managedGraphs[n].nodes)
      requires "" in managedGraphs && managedGraphs[""] != activeGraph ==>
                 NameUnique(activeGraph.nodes) && NoneErased(activeGraph.nodes)
      modifies activeGraph
      ensures Valid()
      ensures forall x ::
                x in NamesIn(activeGraph.nodes)
                <==> x in old(NamesIn(activeGraph.nodes))
                     || exists g :: g in managedGraphs && g != "" && x in old(NamesIn(managedGraphs[g].nodes))
      ensures forall x ::
                x in DefinedIn(activeGraph.nodes)
                <==> x in old(DefinedIn(activeGraph.nodes))
                     || exists g :: g in managedGraphs && g != "" && x in old(DefinedIn(managedGraphs[g].nodes))
      ensures forall x ::
                x in CallsIn(activeGraph.nodes, activeGraph.edges)
                <==> x in old(CallsIn(activeGraph.nodes, activeGraph.edges))
                     || exists g :: g in managedGraphs && g != ""
                                    && x in old(CallsIn(managedGraphs[g].nodes, managedGraphs[g].edges))
      ensures old(NameUnique(activeGraph.nodes)) ==> NameUnique(activeGraph.nodes)
    {
      hide SummaryOf, AllOf, NameUnique, NoneErased, Callgraph.Valid, NamesIn, DefinedIn, CallsIn, Others;
      ghost var start, others := SummaryOf(activeGraph.nodes, activeGraph.edges), Others();
      ghost var named := Named();
      SummaryFields(activeGraph.nodes, activeGraph.edges);
      MergeAll();
      AllOfMeans(start, others, named);
      SummaryFields(activeGraph.nodes, activeGraph.edges);
    }

    /** The loop over the names: one union after the other. */
    method MergeAll()
      requires Valid() && activeGraph != null
      requires forall n :: n in managedGraphs && managedGraphs[n] != activeGraph ==> NoneErased(managedGraphs[n].nodes)
      requires "" in managedGraphs && managedGraphs[""] != activeGraph ==>
                 NameUnique(activeGraph.nodes) && NoneErased(activeGraph.nodes)
      modifies activeGraph
      ensures Valid()
      ensures SummaryOf(activeGraph.nodes, activeGraph.edges)
           == AllOf(old(SummaryOf(activeGraph.nodes, activeGraph.edges)), old(Others()))
      ensures old(NameUnique(activeGraph.nodes)) ==> NameUnique(activeGraph.nodes)
    {
      hide SummaryOf, AllOf, NameUnique, NoneErased, Callgraph.Valid;
      var todo := managedGraphs.Keys;
      ghost var start, others := SummaryOf(activeGraph.nodes, activeGraph.edges), Others();
      ghost var done: map<string, Summary> := map[];
      NoneMerged(start);
      while todo != {}
        invariant Valid() && todo <= managedGraphs.Keys
        invariant forall n :: n in others ==> SummaryOf(managedGraphs[n].nodes, managedGraphs[n].edges) == others[n]
        invariant done.Keys == others.Keys - todo
        invariant forall n :: n in done ==> done[n] == others[n]
        invariant SummaryOf(activeGraph.nodes, activeGraph.edges) == AllOf(start, done)
        invariant old(NameUnique(activeGraph.nodes)) ==> NameUnique(activeGraph.nodes)
        invariant old(NoneErased(activeGraph.nodes)) ==> NoneErased(activeGraph.nodes)
      {
        var callgraphName :| callgraphName in todo;
        todo := todo - {callgraphName};
        if !AssertActive(callgraphName) {
          var currentCallgraph := GetCallgraph(callgraphName);
          MergeNext(activeGraph, currentCallgraph);
          if callgraphName != "" {
            AllOfOneMore(start, done, callgraphName, others[callgraphName]);
            done := done[callgraphName := others[callgraphName]];
          } else {
            UnionWithItself(AllOf(start, done));
          }
        }
      }
      assert done == others;
    }

    /** What each graph with a name says; those that are not merged are the active one. */
    lemma Named() returns (named: map<string, Summary>)
      requires activeGraph != null
      ensures forall g :: g in named <==> g in managedGraphs && g != ""
      ensures forall g :: g in named ==>
                && named[g].names == NamesIn(managedGraphs[g].nodes)
                && named[g].defined == DefinedIn(managedGraphs[g].nodes)
                && named[g].calls == CallsIn(managedGraphs[g].nodes, managedGraphs[g].edges)
      ensures forall g :: g in Others() ==> g in named && named[g] == Others()[g]
      ensures forall g :: g in named && g !in Others() ==> named[g] == SummaryOf(activeGraph.nodes, activeGraph.edges)
    {
      named := map g | g in managedGraphs && g != "" :: SummaryOf(managedGraphs[g].nodes, managedGraphs[g].edges);
    }
  }

  lemma AllOfMeans(start: Summary, others: map<string, Summary>, named: map<string, Summary>)
    requires forall g :: g in others ==> g in named && named[g] == others[g]
    requires forall g :: g in named && g !in others ==> named[g] == start
    ensures var all := AllOf(start, others);
            && (forall x :: x in all.names <==> x in start.names || exists g :: g in named && x in named[g].names)
            && (forall x :: x in all.defined <==> x in start.defined || exists g :: g in named && x in named[g].defined)
            && (forall x :: x in all.calls <==> x in start.calls || exists g :: g in named && x in named[g].calls)
  {
  }

  lemma SummaryFields(nodes: Nodes, edges: Edges)
    ensures var s := SummaryOf(nodes, edges);
            s.names == NamesIn(nodes) && s.defined == DefinedIn(nodes) && s.calls == CallsIn(nodes, edges)
  {
  }

  lemma NoneMerged(start: Summary)
    ensures AllOf(start, map[]) == start
  {
  }

  lemma UnionWithItself(s: Summary)
    ensures Union(s, s) == s
  {
  }

  /** Merging one more graph, told by what the two graphs say. */
  method MergeNext(target: Callgraph, other: Callgraph)
    requires target.Valid() && other.Valid() && NoneErased(other.nodes)
    requires other == target ==> NameUnique(target.nodes)
    modifies target
    ensures target.Valid()
    ensures SummaryOf(target.nodes, target.edges)
         == Union(old(SummaryOf(target.nodes, target.edges)), old(SummaryOf(other.nodes, other.edges)))
    ensures old(NameUnique(target.nodes)) ==> NameUnique(target.nodes)
    ensures old(NoneErased(target.nodes)) ==> NoneErased(target.nodes)
  {
    hide SummaryOf, MergeNodes, MappingFor, ActionsFor, NameUnique, Indexed, NamesIndexed, IdsOf, Erased,
      Union, ImageOf;
    ghost var nodes, edges, otherNodes, otherEdges := target.nodes, target.edges, other.nodes, other.edges;
    var recorder := Merge(target, other);
    assert BetweenLive(nodes, edges) && BetweenLive(otherNodes, otherEdges);
    MergeIsUnion(nodes, edges, otherNodes, otherEdges, recorder.mapping);
    if NameUnique(nodes) {
      NamesStayUnique(nodes, Sources(otherNodes));
    }
    if NoneErased(nodes) {
      NothingErased(nodes, Sources(otherNodes));
    }
  }

  lemma OneFunction(nodes: Nodes, name: string)
    requires nodes == [Some(CgNode(0, name, None, true))]
    ensures NamesIn(nodes) == {name} && NameUnique(nodes) && NoneErased(nodes)
  {
    assert nodes[0].value.functionName == name;
    assert nodes[..0] == [];
  }

  method OneFunctionGraph(name: string) returns (graph: Callgraph)
    requires name != ""
    ensures fresh(graph) && graph.Valid() && NamesIn(graph.nodes) == {name}
    ensures NameUnique(graph.nodes) && NoneErased(graph.nodes)
  {
    graph := new Callgraph();
    hide Callgraph.Valid, NameUnique, NoneErased;
    var _ := graph.Insert(name, None, true);
    assert graph.nodes == [Some(CgNode(0, name, None, true))];
    OneFunction(graph.nodes, name);
  }

  /** An active graph with `f`, and one with `g` under the empty name: `g` does not get in. */
  method EmptyNameIsLeftOut() returns (manager: MCGManager)
    ensures manager.Valid() && manager.activeGraph != null
    ensures "" in manager.managedGraphs && "g" in NamesIn(manager.managedGraphs[""].nodes)
    ensures "g" !in NamesIn(manager.activeGraph.nodes)
  {
    hide Callgraph.Valid, NameUnique, NoneErased, NamesIn;
    var active := OneFunctionGraph("f");
    var other := OneFunctionGraph("g");
    manager := new MCGManager();
    manager.AddToManagedGraphs("active", active, true);
    manager.AddToManagedGraphs("", other, false);
    assert "active" != "" && manager.Others() == map[];
    manager.MergeIntoActiveGraph();
    assert "f" != "g" by {
      assert "f"[0] != "g"[0];
    }
  }
}
