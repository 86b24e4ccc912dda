/**
 What is left of a call graph after it was written and read in format version 2.

 The writer only warns about several nodes of one name, and gives them numbered names.
 */
module V2RoundTrip {
  import opened CallgraphModel
  import opened NodeIds
  import opened Optional
  import opened RoundTrip
  import opened V2Format
  import opened V4Format
  import opened V4Reader

  ghost predicate NoEmptyOrigin(nodes: Nodes) {
    forall u: NodeId :: Live(nodes, u) ==> nodes[u].value.origin != Some("")
  }

  /** Version 4 entries whose nodes have the strings as their names. */
  ghost predicate NamedByKeys(j: V4Graph) {
    forall k :: k in j ==> j[k].functionName == Given(k)
  }

  lemma UniqueNamesAreIds(nodes: Nodes)
    requires NameUnique(nodes)
    ensures DifferentIds(nodes, true)
    ensures forall u: NodeId :: Live(nodes, u) ==> IdString(nodes, true, u) == nodes[u].value.functionName
  {
    hide IdsOf;
    NameIdsDiffer(nodes);
    assert !SuffixClash(nodes);
  }

  /** What was written for a node, under unique names. */
  lemma WrittenEntry(nodes: Nodes, metaOf: NodeId -> Meta, j: V4Graph, k: string)
    requires NodesWritten(nodes, true, metaOf, j, |nodes|) && k in j && NameUnique(nodes) && NoEmptyOrigin(nodes)
    ensures WellFormed(j[k]) && j[k].functionName == Given(k) && OriginOf(j[k]) != Some("")
  {
    hide IdString, NameUnique;
    UniqueNamesAreIds(nodes);
    assert WrittenAs(nodes, true, metaOf, k, j[k], |nodes|);
    var u: NodeId :| LastFor(nodes, true, k, u, |nodes|)
                     && j[k] == NodeField(nodes[u].value, metaOf(u), j[k].callees);
  }

  /** With unique names and no empty origin, the entry of a node survives the detour. */
  lemma EntrySurvives(nodes: Nodes, metaOf: NodeId -> Meta, j: V4Graph, h: V2Graph, k: string)
    requires NodesWritten(nodes, true, metaOf, j, |nodes|) && Downgraded(j, h) && k in j
    requires NameUnique(nodes) && NoEmptyOrigin(nodes)
    ensures var back := UpgradedNode(k, h[k]);
            && WellFormed(j[k]) && WellFormed(back) && back.callees == j[k].callees
            && forall i: NodeId :: NodeOf(back, i) == NodeOf(j[k], i)
  {
    hide NodesWritten, NameUnique, NoEmptyOrigin, Downgraded, UpgradedNode, OverridesOf, MetaOf, OriginOf;
    WrittenEntry(nodes, metaOf, j, k);
    FileThereAndBack(j, h);
    SameKeys(j, h);
    MetaIsRead(k, h[k]);
  }

  lemma SameKeys(j: V4Graph, h: V2Graph)
    requires Downgraded(j, h)
    ensures h.Keys == j.Keys
  {
  }

  lemma MetaIsRead(k: string, jNode: V2Node)
    ensures var back := UpgradedNode(k, jNode); !back.meta.Missing? && !back.origin.Missing?
  {
  }

  lemma SurvivesRead(j: V4Graph, back: V4Graph, order: seq<string>, nodes': Nodes, edges': Edges)
    requires j.Keys == back.Keys
    requires forall k :: k in j ==>
               && WellFormed(j[k]) && WellFormed(back[k]) && back[k].callees == j[k].callees
               && forall i: NodeId :: NodeOf(back[k], i) == NodeOf(j[k], i)
    requires Enumerates(order, back) && NodesRead(back, order, nodes') && EdgesRead(back, order, edges')
    ensures Enumerates(order, j) && NodesRead(j, order, nodes') && EdgesRead(j, order, edges')
  {
  }

  /** Names are keys after the detour, so no two nodes that come back share one. */
  lemma SharedNameLost(nodes: Nodes, edges: Edges, back: V4Graph, order: seq<string>, nodes': Nodes, edges': Edges,
                       u: NodeId, v: NodeId)
    requires NamedByKeys(back) && Enumerates(order, back) && NodesRead(back, order, nodes')
    requires Live(nodes, u) && Live(nodes, v) && u != v
    requires nodes[u].value.functionName == nodes[v].value.functionName
    ensures !Isomorphic(nodes, edges, nodes', edges')
  {
  }

  lemma EmptyOriginLost(nodes: Nodes, edges: Edges, back: V4Graph, order: seq<string>, nodes': Nodes, edges': Edges,
                        u: NodeId)
    requires NodesRead(back, order, nodes') && forall k :: k in back ==> OriginOf(back[k]) != Some("")
    requires Live(nodes, u) && nodes[u].value.origin == Some("")
    ensures !Isomorphic(nodes, edges, nodes', edges')
  {
  }

  /** Version 2 keeps the graph if and only if its names are unique and no origin is empty. */
  lemma V2RoundTrip(nodes: Nodes, edges: Edges, metaOf: NodeId -> Meta, j: V4Graph, h: V2Graph, back: V4Graph,
                    order: seq<string>, nodes': Nodes, edges': Edges)
    requires Describes(nodes, edges, true, metaOf, j) && Downgraded(j, h)
    requires back == map k | k in h :: UpgradedNode(k, h[k])
    requires Enumerates(order, back) && NodesRead(back, order, nodes') && EdgesRead(back, order, edges')
    ensures Isomorphic(nodes, edges, nodes', edges') <==> NameUnique(nodes) && NoEmptyOrigin(nodes)
  {
    hide NodesWritten, EdgesWritten, UpgradedNode, DowngradedNode, NodesRead, EdgesRead, Isomorphic, Enumerates;
    FileThereAndBack(j, h);
    if !NameUnique(nodes) {
      var name :| |IdsOf(nodes, name)| > 1;
      IdsOfContents(nodes, name);
      var u, v := IdsOf(nodes, name)[0], IdsOf(nodes, name)[1];
      assert u in IdsOf(nodes, name) && v in IdsOf(nodes, name);
      SharedNameLost(nodes, edges, back, order, nodes', edges', u, v);
    } else if !NoEmptyOrigin(nodes) {
      var u: NodeId :| Live(nodes, u) && nodes[u].value.origin == Some("");
      EmptyOriginLost(nodes, edges, back, order, nodes', edges', u);
    } else {
      forall k | k in j
        ensures WellFormed(j[k]) && WellFormed(back[k]) && back[k].callees == j[k].callees
        ensures forall i: NodeId :: NodeOf(back[k], i) == NodeOf(j[k], i)
      {
        EntrySurvives(nodes, metaOf, j, h, k);
      }
      SurvivesRead(j, back, order, nodes', edges');
      UniqueNamesAreIds(nodes);
      WrittenGraphComesBack(nodes, edges, true, metaOf, j, order, nodes', edges');
    }
  }

  // ---------------------------------------------------------------- the writer and the reader

  /** Names serve as ids; several nodes of one name only cause a message. */
  method Write(cg: Callgraph, metaOf: NodeId -> Meta) returns (h: V2Graph)
    requires cg.Valid()
    ensures exists j: V4Graph :: Describes(cg.nodes, cg.edges, true, metaOf, j) && Downgraded(j, h)
  {
    hide Callgraph.Valid, Describes, Downgraded;
    var v4Json := V4Format.Write(cg, true, metaOf);
    WrittenIsReadable(cg.nodes, cg.edges, true, metaOf, v4Json);
    h := Downgrade(v4Json);
  }

  /** Reading fails just when upgrading does or the upgraded file cannot be read. */
  method Read(h: V2Graph) returns (cg: Callgraph?, ghost order: seq<string>)
    requires "" !in h
    ensures var back := map k | k in h :: UpgradedNode(k, h[k]);
            && (cg != null <==> (forall k :: k in h ==> HasOriginField(h[k])) && Readable(back))
            && (cg != null ==> fresh(cg) && cg.Valid() && Enumerates(order, back)
                               && NodesRead(back, order, cg.nodes) && EdgesRead(back, order, cg.edges))
  {
    hide Callgraph.Valid, NodesRead, EdgesRead, Readable, HasOriginField;
    var v4Json := Upgrade(h);
    if v4Json.None? {
      return null, [];
    }
    cg, order := V4Reader.Read(v4Json.value);
  }

  /** What the writer has written, the reader reads. */
  lemma WrittenIsReadableAgain(nodes: Nodes, edges: Edges, metaOf: NodeId -> Meta, j: V4Graph, h: V2Graph)
    requires Describes(nodes, edges, true, metaOf, j) && Downgraded(j, h)
    ensures forall k :: k in h ==> HasOriginField(h[k])
    ensures Readable(map k | k in h :: UpgradedNode(k, h[k]))
  {
    hide Describes, Downgraded, UpgradedNode, HasOriginField;
    FileThereAndBack(j, h);
    SameKeys(j, h);
    WrittenIsReadable(nodes, edges, true, metaOf, j);
    forall k | k in h
      ensures WellFormed(UpgradedNode(k, h[k]))
    {
      MetaIsRead(k, h[k]);
    }
  }

  lemma NoEmptyKey(nodes: Nodes, metaOf: NodeId -> Meta, j: V4Graph)
    requires NodesWritten(nodes, true, metaOf, j, |nodes|) && AllNamed(nodes)
    ensures "" !in j
  {
  }

  /** Writing a graph in version 2 and reading the file never fails, and keeps the graph if and
      only if its names are unique and no origin is empty. */
  method WriteAndReadV2(cg: Callgraph, metaOf: NodeId -> Meta) returns (copy: Callgraph)
    requires cg.Valid()
    ensures fresh(copy) && copy.Valid()
    ensures Isomorphic(cg.nodes, cg.edges, copy.nodes, copy.edges) <==> NameUnique(cg.nodes) && NoEmptyOrigin(cg.nodes)
  {
    assert AllNamed(cg.nodes);
    hide Callgraph.Valid, Describes, Downgraded, Readable, NodesRead, EdgesRead, Isomorphic, NameUnique, NoEmptyOrigin,
      AllNamed, UpgradedNode, HasOriginField, Enumerates;
    var h := Write(cg, metaOf);
    ghost var j: V4Graph :| Describes(cg.nodes, cg.edges, true, metaOf, j) && Downgraded(j, h);
    WrittenIsReadableAgain(cg.nodes, cg.edges, metaOf, j, h);
    NodesDescribed(cg.nodes, cg.edges, true, metaOf, j);
    NoEmptyKey(cg.nodes, metaOf, j);
    SameKeys(j, h);
    var read;
    ghost var order;
    read, order := Read(h);
    copy := read;
    ghost var back := map k | k in h :: UpgradedNode(k, h[k]);
    V2RoundTrip(cg.nodes, cg.edges, metaOf, j, h, back, order, copy.nodes, copy.edges);
  }

  /** A single function whose origin is the empty string. */
  method OriginThatIsLost() returns (cg: Callgraph, copy: Callgraph)
    ensures cg.Valid() && copy.Valid() && NameUnique(cg.nodes)
    ensures !Isomorphic(cg.nodes, cg.edges, copy.nodes, copy.edges)
  {
    cg := new Callgraph();
    var id := cg.Insert("f", Some(""), true);
    assert cg.nodes == [Some(CgNode(0, "f", Some(""), true))];
    assert Live(cg.nodes, 0) && cg.nodes[0].value.origin == Some("");
    assert !NoEmptyOrigin(cg.nodes);
    OneNodeUnique(cg.nodes);
    hide Callgraph.Valid, Isomorphic, NameUnique, NoEmptyOrigin;
    copy := WriteAndReadV2(cg, _ => PLAIN);
  }

  lemma OneNodeUnique(nodes: Nodes)
    requires |nodes| == 1
    ensures NameUnique(nodes)
  {
    assert nodes[..0] == [];
  }

  /** Two functions of one name: they come back under numbered names. */
  method NamesThatAreLost() returns (cg: Callgraph, copy: Callgraph)
    ensures cg.Valid() && copy.Valid() && NoEmptyOrigin(cg.nodes)
    ensures !Isomorphic(cg.nodes, cg.edges, copy.nodes, copy.edges)
  {
    cg := new Callgraph();
    var _ := cg.Insert("f", None, true);
    var _ := cg.Insert("f", None, false);
    assert cg.nodes == [Some(CgNode(0, "f", None, true)), Some(CgNode(1, "f", None, false))];
    assert cg.nodes[..1] == [Some(CgNode(0, "f", None, true))] && cg.nodes[..1][..0] == [];
    assert IdsOf(cg.nodes[..1], "f") == [0] && IdsOf(cg.nodes, "f") == [0, 1];
    assert !NameUnique(cg.nodes);
    hide Callgraph.Valid, Isomorphic, NameUnique;
    copy := WriteAndReadV2(cg, _ => PLAIN);
  }
}
