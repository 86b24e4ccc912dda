/**
 Merging one call graph into another by function name (Callgraph::merge in
 graph/src/Callgraph.cpp, graph/src/MergePolicy.cpp, graph/include/metacg/MergePolicy.h).
 */
module CallgraphMerge {
  import opened CallgraphModel
  import opened Optional

  /** Merge with the target node; replace its attributes if the flag says so. */
  datatype MergeAction = MergeAction(targetNode: NodeId, replace: bool)

  /** What was done with each source node, and where it went. */
  class MergeRecorder {
    var actions: map<NodeId, MergeAction>
    var mapping: map<NodeId, NodeId>

    constructor ()
      ensures actions == map[] && mapping == map[]
    {
      actions, mapping := map[], map[];
    }

    method RecordMerge(sourceId: NodeId, action: MergeAction)
      modifies this
      ensures actions == old(actions)[sourceId := action]
      ensures mapping == old(mapping)[sourceId := action.targetNode]
    {
      actions := actions[sourceId := action];
      mapping := mapping[sourceId := action.targetNode];
    }

    method RecordCopy(sourceId: NodeId, targetId: NodeId)
      modifies this`mapping
      ensures mapping == old(mapping)[sourceId := targetId]
    {
      mapping := mapping[sourceId := targetId];
    }
  }

  /** The first node of the same name, to be replaced only if the source alone has a body. */
  ghost function Match(nodes: Nodes, source: CgNode): (r: Option<MergeAction>)
    ensures r.None? <==> IdsOf(nodes, source.functionName) == []
    ensures r.Some? ==> Live(nodes, r.value.targetNode) && r.value.targetNode == IdsOf(nodes, source.functionName)[0]
                        && nodes[r.value.targetNode].value.functionName == source.functionName
  {
    var ids := IdsOf(nodes, source.functionName);
    IdsOfContents(nodes, source.functionName);
    if ids == [] then None
    else
      assert ids[0] in ids;
      Some(MergeAction(ids[0], source.hasBody && !nodes[ids[0]].value.hasBody))
  }

  /** The policy: the first node of the same name, replaced only by a definition of its own. */
  function FindMatchingNode(target: Callgraph, source: CgNode): (r: Option<MergeAction>)
    requires target.Valid()
    reads target
    ensures r == Match(target.nodes, source)
  {
    IdsOfContents(target.nodes, source.functionName);
    var nameMatches := NameList(target.nameIdMap, source.functionName);
    if nameMatches == [] then None
    else
      assert nameMatches[0] in nameMatches;
      var targetNode := target.nodes[nameMatches[0]].value;
      if targetNode.hasBody || !source.hasBody then Some(MergeAction(nameMatches[0], false))
      else Some(MergeAction(nameMatches[0], true))
  }

  // ---------------------------------------------------------------- the merged nodes, step by step

  /** What the policy makes of a target node when a source node is merged into it. */
  function Absorbed(target: CgNode, source: CgNode): CgNode {
    if target.hasBody || !source.hasBody then target
    else target.(functionName := source.functionName, hasBody := source.hasBody, origin := source.origin)
  }

  function MergeNode(nodes: Nodes, source: CgNode): Nodes {
    var ids := IdsOf(nodes, source.functionName);
    if ids == [] then nodes + [Some(CgNode(|nodes|, source.functionName, source.origin, source.hasBody))]
    else if Live(nodes, ids[0]) then nodes[ids[0] := Some(Absorbed(nodes[ids[0]].value, source))]
    else nodes
  }

  function MergeNodes(nodes: Nodes, sources: seq<CgNode>): Nodes {
    if sources == [] then nodes
    else MergeNode(MergeNodes(nodes, sources[..|sources| - 1]), sources[|sources| - 1])
  }

  function Sources(nodes: Nodes): seq<CgNode>
    requires forall i :: 0 <= i < |nodes| ==> nodes[i].Some?
  {
    seq(|nodes|, i requires 0 <= i < |nodes| => nodes[i].value)
  }

  // ---------------------------------------------------------------- the merged nodes, at once

  function Named(sources: seq<CgNode>, name: string): seq<CgNode> {
    if sources == [] then []
    else
      var rest := Named(sources[..|sources| - 1], name);
      if sources[|sources| - 1].functionName == name then rest + [sources[|sources| - 1]] else rest
  }

  /** The first definition among the candidates, or the first candidate if none is one. */
  function Winner(candidates: seq<CgNode>): CgNode
    requires candidates != []
  {
    if |candidates| == 1 then candidates[0]
    else
      var before := Winner(candidates[..|candidates| - 1]);
      if !before.hasBody && candidates[|candidates| - 1].hasBody then candidates[|candidates| - 1] else before
  }

  /** Winner is what its comment says. */
  lemma {:induction false} WinnerIsFirstDefinition(candidates: seq<CgNode>)
    requires candidates != []
    ensures Winner(candidates).hasBody <==> exists i :: 0 <= i < |candidates| && candidates[i].hasBody
    ensures !Winner(candidates).hasBody ==> Winner(candidates) == candidates[0]
    ensures Winner(candidates).hasBody ==>
              exists i :: 0 <= i < |candidates| && candidates[i] == Winner(candidates)
                          && forall j :: 0 <= j < i ==> !candidates[j].hasBody
  {
    if |candidates| > 1 {
      var last, init := |candidates| - 1, candidates[..|candidates| - 1];
      WinnerIsFirstDefinition(init);
      assert forall i :: 0 <= i < last ==> init[i] == candidates[i];
      if Winner(init).hasBody {
        var i :| 0 <= i < |init| && init[i] == Winner(init) && forall j :: 0 <= j < i ==> !init[j].hasBody;
        assert candidates[i] == Winner(candidates);
        assert candidates[i].hasBody;
      } else if candidates[last].hasBody {
        assert candidates[last] == Winner(candidates);
      }
    }
  }

  /** All nodes that end up in one: the target node itself, if there was one, and the sources. */
  function Candidates(nodes: Nodes, sources: seq<CgNode>, name: string): seq<CgNode> {
    var ids := IdsOf(nodes, name);
    (if ids != [] && Live(nodes, ids[0]) then [nodes[ids[0]].value] else []) + Named(sources, name)
  }

  /** The ids of a name after the merge: unchanged if there were any, else one new id. */
  lemma {:induction false} MergedIds(nodes: Nodes, sources: seq<CgNode>, name: string)
    ensures var merged := MergeNodes(nodes, sources);
            && |merged| >= |nodes|
            && (IdsOf(nodes, name) != [] ==> IdsOf(merged, name) == IdsOf(nodes, name))
            && (IdsOf(nodes, name) == [] ==> |IdsOf(merged, name)| == if Named(sources, name) == [] then 0 else 1)
            && (IdsOf(nodes, name) == [] && Named(sources, name) != [] ==> IdsOf(merged, name)[0] >= |nodes|)
  {
    if sources != [] {
      var source, before := sources[|sources| - 1], MergeNodes(nodes, sources[..|sources| - 1]);
      MergedIds(nodes, sources[..|sources| - 1], name);
      var ids := IdsOf(before, source.functionName);
      IdsOfContents(before, source.functionName);
      if ids == [] {
        assert MergeNode(before, source)[..|before|] == before;
      } else {
        assert ids[0] in ids;
        IdsOfUpdated(before, ids[0], Absorbed(before[ids[0]].value, source), name);
      }
    }
  }

  predicate IsFirst(nodes: Nodes, id: NodeId)
    requires Live(nodes, id)
  {
    var ids := IdsOf(nodes, nodes[id].value.functionName);
    ids != [] && ids[0] == id
  }

  /** Which slots a merge can change: only the first of each source name. */
  lemma {:induction false} OtherNodesKept(nodes: Nodes, sources: seq<CgNode>, id: NodeId)
    requires id < |nodes|
    ensures var merged := MergeNodes(nodes, sources);
            && id < |merged|
            && (nodes[id].None? ==> merged[id].None?)
            && (nodes[id].Some? ==>
                  && merged[id].Some?
                  && merged[id].value.id == nodes[id].value.id
                  && merged[id].value.functionName == nodes[id].value.functionName
                  && (!IsFirst(nodes, id) ==> merged[id] == nodes[id]))
  {
    if sources != [] {
      var source, before := sources[|sources| - 1], MergeNodes(nodes, sources[..|sources| - 1]);
      OtherNodesKept(nodes, sources[..|sources| - 1], id);
      MergedIds(nodes, sources[..|sources| - 1], source.functionName);
      IdsOfContents(before, source.functionName);
      IdsOfContents(nodes, source.functionName);
    }
  }

  /** One more source of a name: the node it goes to becomes the winner of one more candidate. */
  lemma MergedNodeStep(before: Nodes, source: CgNode, candidates: seq<CgNode>)
    requires candidates != [] ==> FirstIs(before, source.functionName, Winner(candidates))
    requires candidates == [] ==> IdsOf(before, source.functionName) == []
    ensures FirstIs(MergeNode(before, source), source.functionName, Winner(candidates + [source]))
  {
    var name, merged := source.functionName, MergeNode(before, source);
    if candidates == [] {
      assert merged[..|before|] == before;
      assert candidates + [source] == [source];
    } else {
      assert (candidates + [source])[..|candidates|] == candidates;
      var t := IdsOf(before, name)[0];
      IdsOfContents(before, name);
      assert t in IdsOf(before, name);
      IdsOfUpdated(before, t, Absorbed(before[t].value, source), name);
    }
  }

  /** The first node of a name is the given one, but for its id. */
  ghost predicate FirstIs(nodes: Nodes, name: string, node: CgNode) {
    && IdsOf(nodes, name) != [] && Live(nodes, IdsOf(nodes, name)[0])
    && nodes[IdsOf(nodes, name)[0]].value == node.(id := IdsOf(nodes, name)[0])
  }

  lemma FirstElsewhere(before: Nodes, source: CgNode, name: string, node: CgNode)
    requires FirstIs(before, name, node) && source.functionName != name
    ensures FirstIs(MergeNode(before, source), name, node)
  {
    IdsOfContents(before, name);
    IdsOfContents(before, source.functionName);
    var ids := IdsOf(before, source.functionName);
    if ids == [] {
      assert MergeNode(before, source)[..|before|] == before;
    } else {
      assert ids[0] in ids;
      assert IdsOf(before, name)[0] in IdsOf(before, name);
      IdsOfUpdated(before, ids[0], Absorbed(before[ids[0]].value, source), name);
    }
  }

  /** The node that a name's sources are merged into is the winner of all candidates. */
  lemma {:induction false} MergedNode(nodes: Nodes, sources: seq<CgNode>, name: string)
    requires forall i :: 0 <= i < |nodes| && nodes[i].Some? ==> nodes[i].value.id == i
    ensures Candidates(nodes, sources, name) == [] ==> IdsOf(MergeNodes(nodes, sources), name) == []
    ensures Candidates(nodes, sources, name) != [] ==>
              FirstIs(MergeNodes(nodes, sources), name, Winner(Candidates(nodes, sources, name)))
  {
    hide FirstIs, MergeNode, Winner, IdsOf;
    if sources == [] {
      NoSources(nodes, name);
    } else {
      var source, fewer := sources[|sources| - 1], sources[..|sources| - 1];
      MergedNode(nodes, fewer, name);
      if source.functionName == name {
        assert Candidates(nodes, sources, name) == Candidates(nodes, fewer, name) + [source];
        MergedNodeStep(MergeNodes(nodes, fewer), source, Candidates(nodes, fewer, name));
      } else {
        assert Candidates(nodes, sources, name) == Candidates(nodes, fewer, name);
        if Candidates(nodes, fewer, name) != [] {
          FirstElsewhere(MergeNodes(nodes, fewer), source, name, Winner(Candidates(nodes, fewer, name)));
        } else {
          MergedIds(nodes, sources, name);
          IdsOfContents(nodes, name);
        }
      }
    }
  }

  lemma NoSources(nodes: Nodes, name: string)
    requires forall i :: 0 <= i < |nodes| && nodes[i].Some? ==> nodes[i].value.id == i
    ensures Candidates(nodes, [], name) == [] ==> IdsOf(nodes, name) == []
    ensures Candidates(nodes, [], name) != [] ==> FirstIs(nodes, name, Winner(Candidates(nodes, [], name)))
  {
  }

  lemma {:induction false} WinnerIsCandidate(candidates: seq<CgNode>)
    requires candidates != []
    ensures Winner(candidates) in candidates
  {
    if |candidates| > 1 {
      WinnerIsCandidate(candidates[..|candidates| - 1]);
    }
  }

  // ---------------------------------------------------------------- the same told by positions

  /** The sources of a name, in their order: their positions. */
  lemma {:induction false} NamedInOrder(sources: seq<CgNode>, name: string) returns (ps: seq<nat>)
    ensures |ps| == |Named(sources, name)|
    ensures forall k | 0 <= k < |ps| :: ps[k] < |sources| && Named(sources, name)[k] == sources[ps[k]]
    ensures forall j, k | 0 <= j < k < |ps| :: ps[j] < ps[k]
    ensures forall i | 0 <= i < |sources| :: i in ps <==> sources[i].functionName == name
  {
    if sources == [] {
      ps := [];
    } else {
      var last := |sources| - 1;
      ps := NamedInOrder(sources[..last], name);
      if sources[last].functionName == name {
        ps := ps + [last];
      }
    }
  }

  /** Without a definition to take over from, the first candidate wins ... */
  lemma FirstWins(c: seq<CgNode>)
    requires c != [] && (c[0].hasBody || forall i :: 0 <= i < |c| ==> !c[i].hasBody)
    ensures Winner(c) == c[0]
  {
    hide Winner;
    WinnerIsFirstDefinition(c);
  }

  /** ... and else the first definition does. */
  lemma DefinitionWins(c: seq<CgNode>, k: nat)
    requires k < |c| && c[k].hasBody && forall i :: 0 <= i < k ==> !c[i].hasBody
    ensures Winner(c) == c[k]
  {
    hide Winner;
    WinnerIsFirstDefinition(c);
  }

  /** Where a source of a name stands among all of that name. */
  lemma NamedAt(sources: seq<CgNode>, name: string, j: nat) returns (k: nat)
    requires j < |sources| && sources[j].functionName == name
    ensures k < |Named(sources, name)| && Named(sources, name)[k] == sources[j]
    ensures forall h | 0 <= h < k ::
              Named(sources, name)[h] in sources[..j] && Named(sources, name)[h].functionName == name
  {
    var ps := NamedInOrder(sources, name);
    k :| 0 <= k < |ps| && ps[k] == j;
    forall h | 0 <= h < k
      ensures Named(sources, name)[h] in sources[..j] && Named(sources, name)[h].functionName == name
    {
      assert ps[h] < ps[k] && ps[h] in ps;
      assert sources[..j][ps[h]] == Named(sources, name)[h];
    }
  }

  lemma NamedFrom(sources: seq<CgNode>, name: string, k: nat) returns (i: nat)
    requires k < |Named(sources, name)|
    ensures i < |sources| && sources[i].functionName == name && Named(sources, name)[k] == sources[i]
  {
    var ps := NamedInOrder(sources, name);
    assert ps[k] in ps;
    i := ps[k];
  }

  /** The oldest node of a name stays as it is if it has a body, or if no source of the name has
      one ... */
  lemma KnownStays(nodes: Nodes, sources: seq<CgNode>, t: NodeId)
    requires OwnIds(nodes) && Live(nodes, t)
    requires forall n: NodeId | Live(nodes, n) && nodes[n].value.functionName == nodes[t].value.functionName :: t <= n
    requires nodes[t].value.hasBody
             || forall i | 0 <= i < |sources| && sources[i].functionName == nodes[t].value.functionName ::
                  !sources[i].hasBody
    ensures t < |MergeNodes(nodes, sources)| && MergeNodes(nodes, sources)[t] == nodes[t]
  {
    hide MergeNodes, Winner, Named;
    var name := nodes[t].value.functionName;
    FirstIsOldest(nodes, t);
    MergedIds(nodes, sources, name);
    MergedNode(nodes, sources, name);
    hide IdsOf;
    var c := [nodes[t].value] + Named(sources, name);
    assert Candidates(nodes, sources, name) == c;
    if !nodes[t].value.hasBody {
      forall h | 0 < h < |c|
        ensures !c[h].hasBody
      {
        var i := NamedFrom(sources, name, h - 1);
      }
    }
    FirstWins(c);
  }

  /** ... and else it takes over body and origin from the first source of the name that has one. */
  lemma KnownIsDefined(nodes: Nodes, sources: seq<CgNode>, t: NodeId, j: nat)
    requires OwnIds(nodes) && Live(nodes, t) && !nodes[t].value.hasBody
    requires forall n: NodeId | Live(nodes, n) && nodes[n].value.functionName == nodes[t].value.functionName :: t <= n
    requires j < |sources| && sources[j].functionName == nodes[t].value.functionName && sources[j].hasBody
    requires forall i | 0 <= i < j && sources[i].functionName == nodes[t].value.functionName :: !sources[i].hasBody
    ensures t < |MergeNodes(nodes, sources)|
    ensures MergeNodes(nodes, sources)[t] == Some(nodes[t].value.(hasBody := true, origin := sources[j].origin))
  {
    hide MergeNodes, Winner, Named;
    var name := nodes[t].value.functionName;
    FirstIsOldest(nodes, t);
    MergedIds(nodes, sources, name);
    MergedNode(nodes, sources, name);
    hide IdsOf;
    var c := [nodes[t].value] + Named(sources, name);
    assert Candidates(nodes, sources, name) == c;
    var k := NamedAt(sources, name, j);
    forall h | 0 <= h < k + 1
      ensures !c[h].hasBody
    {
      if h > 0 {
        assert c[h] == Named(sources, name)[h - 1];
      }
    }
    assert c[k + 1] == sources[j];
    DefinitionWins(c, k + 1);
  }

  /** A name that had no node gets exactly one, behind all others: the first source of the name
      with a body, or the first of all if none has one. */
  lemma NewIsDefined(nodes: Nodes, sources: seq<CgNode>, name: string, j: nat) returns (t: NodeId)
    requires OwnIds(nodes) && forall n: NodeId | Live(nodes, n) :: nodes[n].value.functionName != name
    requires j < |sources| && sources[j].functionName == name
    requires if sources[j].hasBody then
               forall i | 0 <= i < j && sources[i].functionName == name :: !sources[i].hasBody
             else
               forall i | 0 <= i < |sources| && sources[i].functionName == name :: j <= i && !sources[i].hasBody
    ensures var merged := MergeNodes(nodes, sources);
            && |nodes| <= t < |merged| && merged[t] == Some(sources[j].(id := t))
            && forall n: NodeId | Live(merged, n) && merged[n].value.functionName == name :: n == t
  {
    hide MergeNodes, Winner, Named;
    var merged := MergeNodes(nodes, sources);
    IdsOfContents(nodes, name);
    NobodyListed(nodes, name);
    MergedIds(nodes, sources, name);
    MergedNode(nodes, sources, name);
    IdsOfContents(merged, name);
    hide IdsOf;
    var c := Named(sources, name);
    assert Candidates(nodes, sources, name) == c;
    var k := NamedAt(sources, name, j);
    if sources[j].hasBody {
      DefinitionWins(c, k);
    } else {
      forall h | 0 <= h < |c|
        ensures !c[h].hasBody && (h < k ==> false)
      {
        var i := NamedFrom(sources, name, h);
      }
      FirstWins(c);
    }
    t := IdsOf(merged, name)[0];
    OnlyOne(IdsOf(merged, name));
  }

  /** A node that is not the oldest of its name does not change at all. */
  lemma YoungerStays(nodes: Nodes, sources: seq<CgNode>, older: NodeId, id: NodeId)
    requires older < id && Live(nodes, older) && Live(nodes, id)
    requires nodes[older].value.functionName == nodes[id].value.functionName
    ensures id < |MergeNodes(nodes, sources)| && MergeNodes(nodes, sources)[id] == nodes[id]
  {
    OtherNodesKept(nodes, sources, id);
    var ids := IdsOf(nodes, nodes[id].value.functionName);
    IdsOfContents(nodes, nodes[id].value.functionName);
    assert older in ids && id in ids;
  }

  lemma NobodyListed(nodes: Nodes, name: string)
    requires forall n: NodeId | Live(nodes, n) :: nodes[n].value.functionName != name
    ensures IdsOf(nodes, name) == []
  {
    IdsOfContents(nodes, name);
    assert forall i :: 0 <= i < |IdsOf(nodes, name)| ==> IdsOf(nodes, name)[i] in IdsOf(nodes, name);
  }

  lemma OnlyOne(ids: seq<NodeId>)
    requires |ids| == 1
    ensures forall n :: n in ids <==> n == ids[0]
  {
  }

  lemma FirstIsOldest(nodes: Nodes, t: NodeId)
    requires Live(nodes, t)
    requires forall n: NodeId | Live(nodes, n) && nodes[n].value.functionName == nodes[t].value.functionName :: t <= n
    ensures var ids := IdsOf(nodes, nodes[t].value.functionName); ids != [] && ids[0] == t
  {
    var ids := IdsOf(nodes, nodes[t].value.functionName);
    IdsOfContents(nodes, nodes[t].value.functionName);
    assert t in ids && ids[0] in ids;
  }

  // ---------------------------------------------------------------- the merge itself

  /** Where a source node ends up: at the first node of its name. */
  ghost predicate MapsTo(nodes: Nodes, source: CgNode, id: NodeId) {
    IdsOf(nodes, source.functionName) != [] && id == IdsOf(nodes, source.functionName)[0]
  }

  /** The mapping is total on the sources, and sends each to the first node of its name. */
  ghost predicate MappingFor(nodes: Nodes, sources: seq<CgNode>, mapping: map<NodeId, NodeId>) {
    && (forall s: NodeId :: s in mapping <==> s < |sources|)
    && (forall s: NodeId :: s < |sources| ==> MapsTo(nodes, sources[s], mapping[s]))
  }

  /** An action is recorded for each source that was not the first candidate of its name, and
      it says to replace if this source is the first definition among the candidates. */
  ghost predicate ActionsFor(nodes: Nodes, sources: seq<CgNode>, actions: map<NodeId, MergeAction>,
                             mapping: map<NodeId, NodeId>) {
    && (forall s: NodeId :: s in actions <==>
          s < |sources| && Candidates(nodes, sources[..s], sources[s].functionName) != [])
    && (forall s: NodeId | s in actions ::
          s < |sources| && s in mapping && actions[s] == MergeAction(mapping[s], FirstDefinition(nodes, sources, s)))
  }

  ghost predicate FirstDefinition(nodes: Nodes, sources: seq<CgNode>, s: NodeId)
    requires s < |sources|
  {
    && sources[s].hasBody
    && forall c :: c in Candidates(nodes, sources[..s], sources[s].functionName) ==> !c.hasBody
  }

  ghost predicate OwnIds(nodes: Nodes) {
    forall i :: 0 <= i < |nodes| && nodes[i].Some? ==> nodes[i].value.id == i
  }

  lemma MatchedAction(nodes: Nodes, sources: seq<CgNode>, source: CgNode)
    requires OwnIds(nodes)
    ensures var before := MergeNodes(nodes, sources);
            var earlier := Candidates(nodes, sources, source.functionName);
            && (Match(before, source).None? <==> earlier == [])
            && (earlier != [] ==> Match(before, source).value.replace
                                  == (source.hasBody && forall c :: c in earlier ==> !c.hasBody))
  {
    var earlier := Candidates(nodes, sources, source.functionName);
    MergedNode(nodes, sources, source.functionName);
    if earlier != [] {
      WinnerIsFirstDefinition(earlier);
      assert forall i :: 0 <= i < |earlier| ==> earlier[i] in earlier;
    }
  }

  lemma MapsToKept(nodes: Nodes, source: CgNode, other: CgNode, id: NodeId)
    requires MapsTo(nodes, source, id)
    ensures MapsTo(MergeNode(nodes, other), source, id)
  {
    MergedIds(nodes, [other], source.functionName);
    assert [other][..0] == [];
    assert MergeNodes(nodes, [other]) == MergeNode(nodes, other);
  }

  lemma MappingStep(nodes: Nodes, sources: seq<CgNode>, i: nat, mapping: map<NodeId, NodeId>, id: NodeId)
    requires i < |sources| && MappingFor(MergeNodes(nodes, sources[..i]), sources[..i], mapping)
    requires MapsTo(MergeNodes(nodes, sources[..i + 1]), sources[i], id)
    ensures MappingFor(MergeNodes(nodes, sources[..i + 1]), sources[..i + 1], mapping[i := id])
  {
    hide MapsTo, MergeNode;
    var before := MergeNodes(nodes, sources[..i]);
    assert sources[..i + 1][..i] == sources[..i];
    forall s: NodeId | s < i
      ensures MapsTo(MergeNode(before, sources[i]), sources[s], mapping[s])
    {
      assert sources[..i][s] == sources[s];
      MapsToKept(before, sources[s], sources[i], mapping[s]);
    }
  }

  lemma ActionsStep(nodes: Nodes, sources: seq<CgNode>, i: nat, actions: map<NodeId, MergeAction>,
                    mapping: map<NodeId, NodeId>, action: Option<MergeAction>, id: NodeId)
    requires i < |sources| && ActionsFor(nodes, sources[..i], actions, mapping) && i !in mapping
    requires OwnIds(nodes) && action == Match(MergeNodes(nodes, sources[..i]), sources[i])
    requires action.Some? ==> id == action.value.targetNode
    ensures ActionsFor(nodes, sources[..i + 1], if action.Some? then actions[i := action.value] else actions,
                       mapping[i := id])
  {
    hide Candidates, MergeNodes, Match, OwnIds, IdsOf, Live;
    var done, more := sources[..i], sources[..i + 1];
    assert more[..i] == done;
    MatchedAction(nodes, done, sources[i]);
    forall s: NodeId | s < i
      ensures done[..s] == more[..s] && done[s] == more[s]
      ensures FirstDefinition(nodes, done, s) <==> FirstDefinition(nodes, more, s)
    {
      assert done[..s] == more[..s];
    }
    assert action.Some? ==> (action.value.replace <==> FirstDefinition(nodes, more, i));
    hide FirstDefinition;
  }

  function ImageOf(edges: Edges, mapping: map<NodeId, NodeId>): Edges {
    set e | e in edges && e.0 in mapping && e.1 in mapping :: (mapping[e.0], mapping[e.1])
  }

  lemma NodeReplaced(nodes: Nodes, id: NodeId, node: CgNode, nameIdMap: map<string, seq<NodeId>>, hasDuplicates: bool)
    requires Live(nodes, id) && nodes[id].value.functionName == node.functionName
    requires NamesIndexed(nodes, nameIdMap) && DuplicatesNoted(nodes, hasDuplicates)
    ensures var nodes' := nodes[id := Some(node)];
            NamesIndexed(nodes', nameIdMap) && DuplicatesNoted(nodes', hasDuplicates) && Erased(nodes') == Erased(nodes)
  {
    forall name
      ensures IdsOf(nodes[id := Some(node)], name) == IdsOf(nodes, name)
    {
      IdsOfUpdated(nodes, id, node, name);
    }
    IdsOfUpdated(nodes, id, node, node.functionName);
  }

  /** A graph whose names are unique merged into itself stays as it is. */
  lemma {:induction false} MergedIntoItself(nodes: Nodes, n: nat)
    requires NoneErased(nodes) && NameUnique(nodes) && n <= |nodes|
    ensures MergeNodes(nodes, Sources(nodes)[..n]) == nodes
  {
    if n > 0 {
      MergedIntoItself(nodes, n - 1);
      var sources := Sources(nodes);
      assert sources[..n][..n - 1] == sources[..n - 1];
      IdListed(nodes, sources[n - 1].functionName, n - 1);
      assert |IdsOf(nodes, sources[n - 1].functionName)| <= 1;
    }
  }

  lemma MergesAt(nodes: Nodes, node: CgNode)
    ensures var match_ := Match(nodes, node);
            MapsTo(MergeNode(nodes, node), node, if match_.Some? then match_.value.targetNode else |nodes|)
  {
    var match_, merged := Match(nodes, node), MergeNode(nodes, node);
    if match_.Some? {
      var id := match_.value.targetNode;
      IdsOfUpdated(nodes, id, Absorbed(nodes[id].value, node), node.functionName);
    } else {
      assert merged[..|nodes|] == nodes;
    }
  }

  /** One source node: replaces, keeps, or inserts. */
  method MergeOne(target: Callgraph, node: CgNode, recorder: MergeRecorder)
    requires target.Valid() && node.functionName != ""
    modifies target`nodes, target`nameIdMap, target`hasDuplicates, recorder
    ensures target.Valid() && target.nodes == MergeNode(old(target.nodes), node)
    ensures node.id in recorder.mapping && MapsTo(target.nodes, node, recorder.mapping[node.id])
    ensures var match_ := Match(old(target.nodes), node);
            && recorder.actions == (if match_.Some? then old(recorder.actions)[node.id := match_.value]
                                    else old(recorder.actions))
            && (match_.Some? ==> recorder.mapping[node.id] == match_.value.targetNode)
    ensures recorder.mapping == old(recorder.mapping)[node.id := recorder.mapping[node.id]]
  {
    hide Callgraph.Valid, IdsOf, MapsTo;
    MergesAt(target.nodes, node);
    var found := FindMatchingNode(target, node);
    if found.Some? {
      var action := found.value;
      if action.replace {
        ReplaceNode(target, action.targetNode, node);
      }
      recorder.RecordMerge(node.id, action);
    } else {
      var targetNode := target.Insert(node.functionName, node.origin, node.hasBody);
      recorder.RecordCopy(node.id, targetNode);
    }
  }

  method ReplaceNode(target: Callgraph, id: NodeId, node: CgNode)
    requires target.Valid() && Live(target.nodes, id) && target.nodes[id].value.functionName == node.functionName
    modifies target`nodes
    ensures target.Valid()
    ensures var was := old(target.nodes)[id].value;
            target.nodes == old(target.nodes)[id := Some(was.(hasBody := node.hasBody, origin := node.origin))]
  {
    hide IdsOf, Erased, NamesIndexed, DuplicatesNoted, Indexed;
    var targetNode := target.nodes[id].value;
    targetNode := targetNode.(functionName := node.functionName);
    targetNode := targetNode.(hasBody := node.hasBody);
    targetNode := targetNode.(origin := node.origin);
    NodeReplaced(target.nodes, id, targetNode, target.nameIdMap, target.hasDuplicates);
    target.nodes := target.nodes[id := Some(targetNode)];
  }

  /** Steps 1 and 2: all nodes of the other graph. */
  method MergeAllNodes(target: Callgraph, other: Callgraph, recorder: MergeRecorder)
    requires target.Valid() && other.Valid() && NoneErased(other.nodes)
    requires other == target ==> NameUnique(target.nodes)
    requires recorder.actions == map[] && recorder.mapping == map[]
    modifies target`nodes, target`nameIdMap, target`hasDuplicates, recorder
    ensures target.Valid()
    ensures target.nodes == MergeNodes(old(target.nodes), Sources(old(other.nodes)))
    ensures MappingFor(target.nodes, Sources(old(other.nodes)), recorder.mapping)
    ensures ActionsFor(old(target.nodes), Sources(old(other.nodes)), recorder.actions, recorder.mapping)
  {
    hide Match, MapsTo, MergeNode, ActionsFor, MappingFor, Candidates, FirstDefinition, IdsOf, Indexed, Erased;
    ghost var nodes0, sources := target.nodes, Sources(other.nodes);
    NothingMerged(nodes0, sources);
    assert sources[..0] == [];
    for i := 0 to |other.nodes|
      invariant target.Valid() && other.nodes == old(other.nodes)
      invariant target.nodes == MergeNodes(nodes0, sources[..i])
      invariant MappingFor(target.nodes, sources[..i], recorder.mapping)
      invariant ActionsFor(nodes0, sources[..i], recorder.actions, recorder.mapping)
    {
      var node := other.nodes[i].value;
      ghost var mapping, actions := recorder.mapping, recorder.actions;
      ghost var match_ := Match(target.nodes, node);
      assert i !in mapping by { NotYetMapped(target.nodes, sources, i, mapping); }
      MergeOne(target, node, recorder);
      assert sources[..i + 1][..i] == sources[..i];
      MappingStep(nodes0, sources, i, mapping, recorder.mapping[i]);
      ActionsStep(nodes0, sources, i, actions, mapping, match_, recorder.mapping[i]);
      if other == target {
        MergedIntoItself(nodes0, i + 1);
      }
    }
    assert sources[..|sources|] == sources;
  }

  lemma NothingMerged(nodes: Nodes, sources: seq<CgNode>)
    ensures MergeNodes(nodes, sources[..0]) == nodes
    ensures MappingFor(nodes, sources[..0], map[]) && ActionsFor(nodes, sources[..0], map[], map[])
  {
  }

  lemma NotYetMapped(nodes: Nodes, sources: seq<CgNode>, i: nat, mapping: map<NodeId, NodeId>)
    requires i <= |sources| && MappingFor(nodes, sources[..i], mapping)
    ensures i !in mapping
  {
  }

  /** A mapped id belongs to a live node of the source's name. */
  lemma MappedAreLive(nodes: Nodes, sources: seq<CgNode>, mapping: map<NodeId, NodeId>)
    requires MappingFor(nodes, sources, mapping)
    ensures forall s: NodeId | s in mapping ::
              s < |sources| && Live(nodes, mapping[s])
              && nodes[mapping[s]].value.functionName == sources[s].functionName
  {
    forall s: NodeId | s in mapping
      ensures Live(nodes, mapping[s]) && nodes[mapping[s]].value.functionName == sources[s].functionName
    {
      IdsOfContents(nodes, sources[s].functionName);
      assert MapsTo(nodes, sources[s], mapping[s]);
      assert mapping[s] in IdsOf(nodes, sources[s].functionName);
    }
  }

  lemma MappedToOldest(nodes: Nodes, sources: seq<CgNode>, mapping: map<NodeId, NodeId>)
    requires MappingFor(nodes, sources, mapping)
    ensures forall s: NodeId, n: NodeId |
              s < |sources| && Live(nodes, n) && nodes[n].value.functionName == sources[s].functionName ::
              mapping[s] <= n
  {
    forall s: NodeId, n: NodeId |
      s < |sources| && Live(nodes, n) && nodes[n].value.functionName == sources[s].functionName
      ensures mapping[s] <= n
    {
      IdsOfContents(nodes, sources[s].functionName);
      assert MapsTo(nodes, sources[s], mapping[s]) && n in IdsOf(nodes, sources[s].functionName);
    }
  }

  /** An action is recorded for a source whose name had a node before it, in the target or among
      the sources before it; it replaces if the source has a body and none of these had one, of
      the target's nodes of the name only the oldest being looked at. */
  lemma ActionsMean(nodes: Nodes, sources: seq<CgNode>, actions: map<NodeId, MergeAction>,
                    mapping: map<NodeId, NodeId>, s: NodeId)
    requires ActionsFor(nodes, sources, actions, mapping) && s < |sources|
    ensures s in actions
            <==> (exists n: NodeId :: Live(nodes, n) && nodes[n].value.functionName == sources[s].functionName)
                 || exists i :: 0 <= i < s && sources[i].functionName == sources[s].functionName
    ensures s in actions ==> s in mapping && actions[s].targetNode == mapping[s]
    ensures s in actions ==>
              (actions[s].replace
               <==> sources[s].hasBody
                    && (forall i | 0 <= i < s && sources[i].functionName == sources[s].functionName ::
                          !sources[i].hasBody)
                    && forall t: NodeId |
                         Live(nodes, t) && nodes[t].value.functionName == sources[s].functionName
                         && (forall n: NodeId | Live(nodes, n) && nodes[n].value.functionName
                                                                  == sources[s].functionName :: t <= n) ::
                         !nodes[t].value.hasBody)
  {
    var name, before := sources[s].functionName, sources[..s];
    CandidatesMean(nodes, before, name);
    assert forall i :: 0 <= i < s ==> before[i] == sources[i];
    hide Candidates, IdsOf, Named;
    if s in actions {
      assert actions[s].replace <==> FirstDefinition(nodes, sources, s);
    }
  }

  /** The candidates for a name: the target's oldest node of the name, and all sources of it. */
  lemma CandidatesMean(nodes: Nodes, sources: seq<CgNode>, name: string)
    ensures Candidates(nodes, sources, name) != []
            <==> (exists n: NodeId :: Live(nodes, n) && nodes[n].value.functionName == name)
                 || exists i :: 0 <= i < |sources| && sources[i].functionName == name
    ensures (forall c :: c in Candidates(nodes, sources, name) ==> !c.hasBody)
            <==> (forall i | 0 <= i < |sources| && sources[i].functionName == name :: !sources[i].hasBody)
                 && forall t: NodeId | Live(nodes, t) && nodes[t].value.functionName == name
                                       && (forall n: NodeId | Live(nodes, n) && nodes[n].value.functionName == name ::
                                             t <= n) ::
                      !nodes[t].value.hasBody
  {
    NamedElements(sources, name);
    OldestOf(nodes, name);
    hide IdsOf, Named;
    var ids, named, c := IdsOf(nodes, name), Named(sources, name), Candidates(nodes, sources, name);
    assert c == (if ids != [] then [nodes[ids[0]].value] else []) + named;
    hide Candidates;
    assert named != [] <==> exists i :: 0 <= i < |sources| && sources[i].functionName == name by {
      if named != [] {
        assert named[0] in named;
      }
    }
    assert ids == [] ==> c == named;
    assert ids != [] ==> c[0] in c && c[0] == nodes[ids[0]].value && c[1..] == named;
    assert forall x :: x in c <==> x in named || (ids != [] && x == nodes[ids[0]].value);
  }

  lemma NamedElements(sources: seq<CgNode>, name: string)
    ensures forall i | 0 <= i < |sources| && sources[i].functionName == name :: sources[i] in Named(sources, name)
    ensures forall c | c in Named(sources, name) ::
              exists i :: 0 <= i < |sources| && sources[i].functionName == name && c == sources[i]
  {
    hide Named;
    forall i | 0 <= i < |sources| && sources[i].functionName == name
      ensures sources[i] in Named(sources, name)
    {
      var k := NamedAt(sources, name, i);
    }
    forall c | c in Named(sources, name)
      ensures exists i :: 0 <= i < |sources| && sources[i].functionName == name && c == sources[i]
    {
      var k: nat :| k < |Named(sources, name)| && Named(sources, name)[k] == c;
      var i := NamedFrom(sources, name, k);
    }
  }

  lemma OldestOf(nodes: Nodes, name: string)
    ensures var ids := IdsOf(nodes, name);
            && (ids != [] <==> exists n: NodeId :: Live(nodes, n) && nodes[n].value.functionName == name)
            && (ids != [] ==>
                  Live(nodes, ids[0])
                  && forall t: NodeId ::
                       t == ids[0]
                       <==> Live(nodes, t) && nodes[t].value.functionName == name
                            && forall n: NodeId | Live(nodes, n) && nodes[n].value.functionName == name :: t <= n)
  {
    var ids := IdsOf(nodes, name);
    IdsOfContents(nodes, name);
    hide IdsOf;
    if ids != [] {
      assert ids[0] in ids;
      forall n: NodeId | Live(nodes, n) && nodes[n].value.functionName == name
        ensures ids[0] <= n
      {
        assert n in ids;
      }
    }
  }

  /** Step 3: the edges, whatever the order in which they come. */
  method MergeEdges(target: Callgraph, other: Callgraph, mapping: map<NodeId, NodeId>)
    requires target.Valid() && other.Valid()
    requires forall e :: e in other.edges ==> e.0 in mapping && e.1 in mapping
    requires forall s :: s in mapping ==> Live(target.nodes, mapping[s])
    modifies target`edges, target`calleeList, target`callerList
    ensures target.Valid() && target.edges == old(target.edges) + ImageOf(old(other.edges), mapping)
    ensures forall u, v ::
              (u, v) in target.edges
              <==> (u, v) in old(target.edges)
                   || exists a, b :: (a, b) in old(other.edges) && mapping[a] == u && mapping[b] == v
  {
    hide IdsOf, Indexed, Erased, NamesIndexed, DuplicatesNoted, Live;
    var todo := other.edges;
    while todo != {}
      invariant target.Valid() && todo <= old(other.edges)
      invariant target.edges == old(target.edges) + ImageOf(old(other.edges) - todo, mapping)
    {
      var edge :| edge in todo;
      var callerId, calleeId := mapping[edge.0], mapping[edge.1];
      if !target.ExistsEdge(callerId, calleeId) {
        var _ := target.AddEdge(callerId, calleeId);
      }
      ImageOfOneMore(old(other.edges), todo, edge, mapping);
      todo := todo - {edge};
    }
    assert old(other.edges) - {} == old(other.edges);
    ImageMeans(old(other.edges), mapping);
  }

  lemma ImageMeans(edges: Edges, mapping: map<NodeId, NodeId>)
    requires forall e :: e in edges ==> e.0 in mapping && e.1 in mapping
    ensures forall u, v ::
              (u, v) in ImageOf(edges, mapping)
              <==> exists a, b :: (a, b) in edges && mapping[a] == u && mapping[b] == v
  {
    forall u, v | (u, v) in ImageOf(edges, mapping)
      ensures exists a, b :: (a, b) in edges && mapping[a] == u && mapping[b] == v
    {
      var e :| e in edges && e.0 in mapping && e.1 in mapping && (mapping[e.0], mapping[e.1]) == (u, v);
      assert (e.0, e.1) in edges;
    }
    forall a, b | (a, b) in edges
      ensures (mapping[a], mapping[b]) in ImageOf(edges, mapping)
    {
      assert (a, b).0 == a && (a, b).1 == b;
    }
  }

  lemma ImageOfOneMore(edges: Edges, todo: Edges, edge: (NodeId, NodeId), mapping: map<NodeId, NodeId>)
    requires todo <= edges && edge in todo && edge.0 in mapping && edge.1 in mapping
    ensures ImageOf(edges - (todo - {edge}), mapping)
         == ImageOf(edges - todo, mapping) + {(mapping[edge.0], mapping[edge.1])}
  {
  }

  /** The whole merge.  No slot of the other graph may have been erased. */
  method Merge(target: Callgraph, other: Callgraph) returns (recorder: MergeRecorder)
    requires target.Valid() && other.Valid() && NoneErased(other.nodes)
    requires other == target ==> NameUnique(target.nodes)
    modifies target
    ensures target.Valid() && target.mainNode == None
    ensures target.nodes == MergeNodes(old(target.nodes), Sources(old(other.nodes)))
    ensures MappingFor(target.nodes, Sources(old(other.nodes)), recorder.mapping)
    ensures ActionsFor(old(target.nodes), Sources(old(other.nodes)), recorder.actions, recorder.mapping)
    ensures target.edges == old(target.edges) + ImageOf(old(other.edges), recorder.mapping)
    ensures forall s: NodeId :: s in recorder.mapping <==> s < |old(other.nodes)|
    ensures forall s: NodeId | s < |old(other.nodes)| ::
              && Live(target.nodes, recorder.mapping[s])
              && target.nodes[recorder.mapping[s]].value.functionName == old(other.nodes)[s].value.functionName
              && forall n: NodeId | Live(target.nodes, n) && target.nodes[n].value.functionName
                                                             == old(other.nodes)[s].value.functionName ::
                   recorder.mapping[s] <= n
    ensures forall u, v ::
              (u, v) in target.edges
              <==> (u, v) in old(target.edges)
                   || exists a, b :: (a, b) in old(other.edges) && a in recorder.mapping && b in recorder.mapping
                                     && recorder.mapping[a] == u && recorder.mapping[b] == v
  {
    hide IdsOf, Indexed, Erased, NamesIndexed, DuplicatesNoted, ActionsFor, MapsTo, Candidates, MergeNodes;
    recorder := new MergeRecorder();
    MergeAllNodes(target, other, recorder);
    MappedAreLive(target.nodes, Sources(old(other.nodes)), recorder.mapping);
    MappedToOldest(target.nodes, Sources(old(other.nodes)), recorder.mapping);
    MergeEdges(target, other, recorder.mapping);
    target.mainNode := None;
  }
}
