/**
 Writing a call graph in format version 4 and reading it again
 (graph/src/io/VersionFourMCGWriter.cpp, graph/src/io/VersionFourMCGReader.cpp).
 */
module V4Format {
  import opened CallgraphModel
  import opened NodeIds
  import opened Optional

  /** A field of a JSON object. */
  datatype Field<T> = Missing | Null | Given(value: T)

  datatype FileProperties = FileProperties(origin: Option<string>, others: map<string, string>)

  datatype Overrides = Overrides(overrides: seq<string>, overriddenBy: seq<string>)

  /** The metadata of a node: two kinds that version 2 stores elsewhere, and all others. */
  datatype Meta = Meta(fileProperties: Option<FileProperties>, overrideMD: Option<Overrides>,
                       others: map<string, string>)

  datatype V4Node = V4Node(functionName: Field<string>, origin: Field<string>, hasBody: Field<bool>,
                           callees: set<string>, meta: Field<Meta>)

  type V4Graph = map<string, V4Node>

  // ---------------------------------------------------------------- writing

  function OriginField(origin: Option<string>): Field<string> {
    if origin.Some? then Given(origin.value) else Field.Null
  }

  function NodeField(node: CgNode, meta: Meta, callees: set<string>): V4Node {
    V4Node(Given(node.functionName), OriginField(node.origin), Given(node.hasBody), callees, Given(meta))
  }

  /** The string that stands for a node of the graph. */
  ghost predicate StandsFor(nodes: Nodes, useNames: bool, k: string, id: NodeId) {
    Live(nodes, id) && IdString(nodes, useNames, id) == k
  }

  /** The last of the first so many nodes that a string stands for: a later one overwrites. */
  ghost predicate LastFor(nodes: Nodes, useNames: bool, k: string, id: NodeId, first: nat) {
    && id < first && StandsFor(nodes, useNames, k, id)
    && forall w: NodeId :: w < first && StandsFor(nodes, useNames, k, w) ==> w <= id
  }

  /** The entry is that of the last node that the string stands for. */
  ghost predicate WrittenAs(nodes: Nodes, useNames: bool, metaOf: NodeId -> Meta, k: string, entry: V4Node,
                            first: nat) {
    exists u: NodeId ::
      LastFor(nodes, useNames, k, u, first) && entry == NodeField(nodes[u].value, metaOf(u), entry.callees)
  }

  ghost predicate NodesWritten(nodes: Nodes, useNames: bool, metaOf: NodeId -> Meta, j: V4Graph, first: nat) {
    && (forall k :: k in j <==> exists u: NodeId :: u < first && StandsFor(nodes, useNames, k, u))
    && (forall k :: k in j ==> WrittenAs(nodes, useNames, metaOf, k, j[k], first))
  }

  ghost predicate HasEdge(nodes: Nodes, edges: Edges, useNames: bool, caller: string, callee: string) {
    exists e :: e in edges && StandsFor(nodes, useNames, caller, e.0) && StandsFor(nodes, useNames, callee, e.1)
  }

  ghost predicate EdgesWritten(nodes: Nodes, edges: Edges, useNames: bool, j: V4Graph) {
    forall k, c :: k in j ==> (c in j[k].callees <==> HasEdge(nodes, edges, useNames, k, c))
  }

  /** A file that describes the graph, as far as its strings tell the nodes apart. */
  ghost predicate Describes(nodes: Nodes, edges: Edges, useNames: bool, metaOf: NodeId -> Meta, j: V4Graph) {
    NodesWritten(nodes, useNames, metaOf, j, |nodes|) && EdgesWritten(nodes, edges, useNames, j)
  }

  /** A written file by the graph's own fields: each entry is that of the last node of its string,
      field by field, and its callees are the strings of the edges' targets. */
  lemma EntryMeans(nodes: Nodes, edges: Edges, useNames: bool, metaOf: NodeId -> Meta, j: V4Graph, k: string)
    returns (u: NodeId)
    requires Describes(nodes, edges, useNames, metaOf, j) && k in j
    ensures Live(nodes, u) && IdString(nodes, useNames, u) == k
    ensures forall w: NodeId | Live(nodes, w) && IdString(nodes, useNames, w) == k :: w <= u
    ensures j[k].functionName == Given(nodes[u].value.functionName) && j[k].hasBody == Given(nodes[u].value.hasBody)
    ensures j[k].origin == match nodes[u].value.origin case Some(o) => Given(o) case None => Field.Null
    ensures j[k].meta == Given(metaOf(u))
  {
    hide IdString;
    assert WrittenAs(nodes, useNames, metaOf, k, j[k], |nodes|);
    u :| LastFor(nodes, useNames, k, u, |nodes|) && j[k] == NodeField(nodes[u].value, metaOf(u), j[k].callees);
    forall w: NodeId | Live(nodes, w) && IdString(nodes, useNames, w) == k
      ensures w <= u
    {
      assert StandsFor(nodes, useNames, k, w);
    }
  }

  lemma EntriesMean(nodes: Nodes, edges: Edges, useNames: bool, metaOf: NodeId -> Meta, j: V4Graph)
    requires Describes(nodes, edges, useNames, metaOf, j)
    ensures forall u: NodeId | Live(nodes, u) :: IdString(nodes, useNames, u) in j
    ensures forall k, c | k in j ::
              c in j[k].callees
              <==> exists a, b :: (a, b) in edges && Live(nodes, a) && Live(nodes, b)
                                  && IdString(nodes, useNames, a) == k && IdString(nodes, useNames, b) == c
  {
    hide IdString, WrittenAs;
    forall u: NodeId | Live(nodes, u)
      ensures IdString(nodes, useNames, u) in j
    {
      assert u < |nodes| && StandsFor(nodes, useNames, IdString(nodes, useNames, u), u);
    }
    forall k, c | k in j
      ensures c in j[k].callees
              <==> exists a, b :: (a, b) in edges && Live(nodes, a) && Live(nodes, b)
                                  && IdString(nodes, useNames, a) == k && IdString(nodes, useNames, b) == c
    {
      if c in j[k].callees {
        var e :| e in edges && StandsFor(nodes, useNames, k, e.0) && StandsFor(nodes, useNames, c, e.1);
        assert (e.0, e.1) in edges;
      }
      if a, b :| (a, b) in edges && Live(nodes, a) && Live(nodes, b)
                 && IdString(nodes, useNames, a) == k && IdString(nodes, useNames, b) == c {
        var e := (a, b);
        assert StandsFor(nodes, useNames, k, e.0) && StandsFor(nodes, useNames, c, e.1);
      }
    }
  }

  /** The next node changes nothing for a string that does not stand for it. */
  lemma NotOverwritten(nodes: Nodes, useNames: bool, metaOf: NodeId -> Meta, k: string, entry: V4Node, i: nat)
    requires WrittenAs(nodes, useNames, metaOf, k, entry, i) && !StandsFor(nodes, useNames, k, i)
    ensures WrittenAs(nodes, useNames, metaOf, k, entry, i + 1)
  {
  }

  lemma JustWritten(nodes: Nodes, useNames: bool, metaOf: NodeId -> Meta, i: nat)
    requires Live(nodes, i)
    ensures WrittenAs(nodes, useNames, metaOf, IdString(nodes, useNames, i),
                      NodeField(nodes[i].value, metaOf(i), {}), i + 1)
  {
  }

  lemma CalleesAdded(nodes: Nodes, useNames: bool, metaOf: NodeId -> Meta, k: string, entry: V4Node,
                     callees: set<string>, first: nat)
    requires WrittenAs(nodes, useNames, metaOf, k, entry, first)
    ensures WrittenAs(nodes, useNames, metaOf, k, entry.(callees := callees), first)
  {
  }

  lemma ErasedSkipped(nodes: Nodes, useNames: bool, metaOf: NodeId -> Meta, j: V4Graph, i: nat)
    requires i < |nodes| && nodes[i].None? && NodesWritten(nodes, useNames, metaOf, j, i)
    ensures NodesWritten(nodes, useNames, metaOf, j, i + 1)
  {
    hide IdString, WrittenAs;
    forall k | k in j
      ensures WrittenAs(nodes, useNames, metaOf, k, j[k], i + 1)
    {
      NotOverwritten(nodes, useNames, metaOf, k, j[k], i);
    }
  }

  lemma NodeWritten(nodes: Nodes, useNames: bool, metaOf: NodeId -> Meta, j: V4Graph, i: nat)
    requires Live(nodes, i) && NodesWritten(nodes, useNames, metaOf, j, i)
    ensures NodesWritten(nodes, useNames, metaOf,
                         j[IdString(nodes, useNames, i) := NodeField(nodes[i].value, metaOf(i), {})], i + 1)
  {
    hide IdString, WrittenAs;
    var s := IdString(nodes, useNames, i);
    assert StandsFor(nodes, useNames, s, i);
    JustWritten(nodes, useNames, metaOf, i);
    forall k | k in j && k != s
      ensures WrittenAs(nodes, useNames, metaOf, k, j[k], i + 1)
    {
      NotOverwritten(nodes, useNames, metaOf, k, j[k], i);
    }
  }

  lemma EdgeWritten(nodes: Nodes, edges: Edges, useNames: bool, metaOf: NodeId -> Meta, j: V4Graph, e: (NodeId, NodeId))
    requires NodesWritten(nodes, useNames, metaOf, j, |nodes|) && EdgesWritten(nodes, edges, useNames, j)
    requires Live(nodes, e.0) && Live(nodes, e.1)
    ensures var caller, callee := IdString(nodes, useNames, e.0), IdString(nodes, useNames, e.1);
            && caller in j
            && var j' := j[caller := j[caller].(callees := j[caller].callees + {callee})];
               NodesWritten(nodes, useNames, metaOf, j', |nodes|) && EdgesWritten(nodes, edges + {e}, useNames, j')
  {
    hide IdString, WrittenAs, HasEdge;
    var caller, callee := IdString(nodes, useNames, e.0), IdString(nodes, useNames, e.1);
    assert StandsFor(nodes, useNames, caller, e.0) && StandsFor(nodes, useNames, callee, e.1);
    assert e.0 < |nodes|;
    var callees := j[caller].callees + {callee};
    var j' := j[caller := j[caller].(callees := callees)];
    forall k, c | k in j'
      ensures c in j'[k].callees <==> HasEdge(nodes, edges + {e}, useNames, k, c)
    {
      OneMoreEdge(nodes, edges, useNames, e, k, c);
    }
    CalleesAdded(nodes, useNames, metaOf, caller, j[caller], callees, |nodes|);
  }

  lemma OneMoreEdge(nodes: Nodes, edges: Edges, useNames: bool, e: (NodeId, NodeId), k: string, c: string)
    ensures HasEdge(nodes, edges + {e}, useNames, k, c)
       <==> HasEdge(nodes, edges, useNames, k, c)
            || (StandsFor(nodes, useNames, k, e.0) && StandsFor(nodes, useNames, c, e.1))
  {
  }

  method Write(cg: Callgraph, useNamesAsIds: bool, metaOf: NodeId -> Meta) returns (jNodes: V4Graph)
    requires cg.Valid()
    ensures Describes(cg.nodes, cg.edges, useNamesAsIds, metaOf, jNodes)
  {
    hide Callgraph.Valid, NodesWritten, EdgesWritten, IdString;
    jNodes := map[];
    var nodeToStr := new V4WriterMapping(cg, useNamesAsIds);
    NothingWritten(cg.nodes, useNamesAsIds, metaOf);
    for i := 0 to |cg.nodes|
      invariant nodeToStr.Valid() && nodeToStr.cg == cg && nodeToStr.useNameAsId == useNamesAsIds && fresh(nodeToStr)
      invariant NodesWritten(cg.nodes, useNamesAsIds, metaOf, jNodes, i)
      invariant forall k :: k in jNodes ==> jNodes[k].callees == {}
    {
      if cg.nodes[i].None? {
        ErasedSkipped(cg.nodes, useNamesAsIds, metaOf, jNodes, i);
        continue;
      }
      var jNode := NodeField(cg.nodes[i].value, metaOf(i), {});
      var idStr := nodeToStr.GetStrFromNode(i);
      NodeWritten(cg.nodes, useNamesAsIds, metaOf, jNodes, i);
      jNodes := jNodes[idStr := jNode];
    }
    NoEdgeWritten(cg.nodes, useNamesAsIds, jNodes);
    EdgesBetweenLive(cg);
    var todo := cg.edges;
    while todo != {}
      invariant nodeToStr.Valid() && nodeToStr.cg == cg && nodeToStr.useNameAsId == useNamesAsIds && fresh(nodeToStr)
      invariant todo <= cg.edges
      invariant NodesWritten(cg.nodes, useNamesAsIds, metaOf, jNodes, |cg.nodes|)
      invariant EdgesWritten(cg.nodes, cg.edges - todo, useNamesAsIds, jNodes)
    {
      var edge :| edge in todo;
      var callerStr := nodeToStr.GetStrFromNode(edge.0);
      var calleeStr := nodeToStr.GetStrFromNode(edge.1);
      EdgeWritten(cg.nodes, cg.edges - todo, useNamesAsIds, metaOf, jNodes, edge);
      jNodes := jNodes[callerStr := jNodes[callerStr].(callees := jNodes[callerStr].callees + {calleeStr})];
      assert cg.edges - (todo - {edge}) == cg.edges - todo + {edge};
      todo := todo - {edge};
    }
    assert cg.edges - {} == cg.edges;
  }

  lemma NothingWritten(nodes: Nodes, useNames: bool, metaOf: NodeId -> Meta)
    ensures NodesWritten(nodes, useNames, metaOf, map[], 0)
  {
  }

  lemma NoEdgeWritten(nodes: Nodes, useNames: bool, j: V4Graph)
    requires forall k :: k in j ==> j[k].callees == {}
    ensures EdgesWritten(nodes, {}, useNames, j)
  {
  }

  lemma EdgesBetweenLive(cg: Callgraph)
    requires cg.Valid()
    ensures BetweenLive(cg.nodes, cg.edges) && cg.edges - cg.edges == {}
  {
  }
}
