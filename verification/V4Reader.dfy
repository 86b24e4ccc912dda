/**
 Reading format version 4 (graph/src/io/VersionFourMCGReader.cpp): first all nodes, then all
 edges, each named by its string.
 */
module V4Reader {
  import opened CallgraphModel
  import opened Lists
  import opened Optional
  import opened V4Format

  /** All mandatory fields are there, and those that may not be null are not. */
  predicate WellFormed(jNode: V4Node) {
    && !jNode.origin.Missing? && jNode.functionName.Given? && jNode.hasBody.Given?
    && !jNode.meta.Missing?
  }

  ghost predicate Readable(j: V4Graph) {
    && (forall k :: k in j ==> WellFormed(j[k]))
    && (forall k, c :: k in j && c in j[k].callees ==> c in j)
  }

  function OriginOf(jNode: V4Node): Option<string> {
    if jNode.origin.Given? then Some(jNode.origin.value) else None
  }

  function NodeOf(jNode: V4Node, id: NodeId): CgNode
    requires WellFormed(jNode)
  {
    CgNode(id, jNode.functionName.value, OriginOf(jNode), jNode.hasBody.value)
  }

  /** The order lists every key once. */
  ghost predicate Enumerates(order: seq<string>, j: V4Graph) {
    Distinct(order) && forall k :: k in order <==> k in j
  }

  /** The nodes are those of the keys, in the order of the keys. */
  ghost predicate NodesRead(j: V4Graph, order: seq<string>, nodes: Nodes) {
    && |nodes| == |order|
    && forall i :: 0 <= i < |order| ==>
         order[i] in j && WellFormed(j[order[i]]) && nodes[i] == Some(NodeOf(j[order[i]], i))
  }

  /** The edges are those of the callees' strings. */
  ghost predicate EdgesRead(j: V4Graph, order: seq<string>, edges: Edges) {
    forall u: NodeId, v: NodeId ::
      (u, v) in edges <==> u < |order| && v < |order| && order[u] in j && order[v] in j[order[u]].callees
  }

  ghost predicate EdgesReadBefore(j: V4Graph, order: seq<string>, edges: Edges, first: nat) {
    forall u: NodeId, v: NodeId ::
      (u, v) in edges
      <==> u < first && u < |order| && v < |order| && order[u] in j && order[v] in j[order[u]].callees
  }

  /** The table holds the position of every key read so far. */
  ghost predicate Registered(strToNode: map<string, NodeId>, order: seq<string>) {
    && (forall k :: k in strToNode <==> k in order)
    && (forall i :: 0 <= i < |order| ==> order[i] in strToNode && strToNode[order[i]] == i)
  }

  /** What is read by the file's own fields: one node for each entry, and an edge for each callee. */
  lemma ReadMeans(j: V4Graph, order: seq<string>, nodes: Nodes, edges: Edges)
    requires Enumerates(order, j) && NodesRead(j, order, nodes) && EdgesRead(j, order, edges)
    ensures |nodes| == |order| && (forall k :: k in order <==> k in j)
    ensures forall i, k: NodeId | 0 <= i < k < |order| :: order[i] != order[k]
    ensures forall i: NodeId | i < |order| ::
              var entry := j[order[i]];
              && nodes[i].Some? && nodes[i].value.id == i && entry.functionName == Given(nodes[i].value.functionName)
              && entry.hasBody == Given(nodes[i].value.hasBody)
              && nodes[i].value.origin == match entry.origin case Given(o) => Some(o) case _ => None
    ensures forall u: NodeId, v: NodeId ::
              (u, v) in edges <==> u < |order| && v < |order| && order[v] in j[order[u]].callees
  {
  }

  lemma RegisteredNext(strToNode: map<string, NodeId>, order: seq<string>, k: string)
    requires Registered(strToNode, order) && k !in order
    ensures Registered(strToNode[k := |order|], order + [k])
  {
  }

  /** Creates the nodes.  Nothing is created behind the first entry that is not well-formed. */
  method ReadNodes(cg: Callgraph, j: V4Graph) returns (ok: bool, strToNode: map<string, NodeId>, order: seq<string>)
    requires cg.Valid() && cg.nodes == [] && cg.edges == {}
    requires forall k :: k in j ==> j[k].functionName != Given("")
    modifies cg
    ensures cg.Valid() && cg.edges == {}
    ensures ok <==> forall k :: k in j ==> WellFormed(j[k])
    ensures ok ==> Enumerates(order, j) && NodesRead(j, order, cg.nodes) && Registered(strToNode, order)
  {
    hide Callgraph.Valid, IdsOf;
    strToNode, order := map[], [];
    var todo := j.Keys;
    while todo != {}
      invariant cg.Valid() && cg.edges == {} && todo <= j.Keys
      invariant Distinct(order) && forall k :: k in order <==> k in j.Keys - todo
      invariant forall k :: k in j.Keys - todo ==> WellFormed(j[k])
      invariant NodesRead(j, order, cg.nodes) && Registered(strToNode, order)
    {
      var strId :| strId in todo;
      var jNode := j[strId];
      assert strId !in order;
      if !WellFormed(jNode) || strId in strToNode {
        ok := false;
        return;
      }
      var cgNode := cg.Insert(jNode.functionName.value, OriginOf(jNode), jNode.hasBody.value);
      RegisteredNext(strToNode, order, strId);
      strToNode := strToNode[strId := cgNode];
      order := order + [strId];
      todo := todo - {strId};
    }
    ok := true;
    assert forall i :: 0 <= i < |order| ==> order[i] in order;
  }

  /** Adds the edges of one node; fails at a callee that has no node. */
  method ReadEdgesOf(cg: Callgraph, j: V4Graph, strToNode: map<string, NodeId>, order: seq<string>, id: nat)
    returns (ok: bool)
    requires cg.Valid() && Enumerates(order, j) && NodesRead(j, order, cg.nodes) && Registered(strToNode, order)
    requires id < |order| && EdgesReadBefore(j, order, cg.edges, id)
    modifies cg`edges, cg`calleeList, cg`callerList
    ensures cg.Valid()
    ensures ok <==> forall c :: c in j[order[id]].callees ==> c in j
    ensures ok ==> EdgesReadBefore(j, order, cg.edges, id + 1)
  {
    hide Callgraph.Valid;
    var callees := j[order[id]].callees;
    var todo := callees;
    while todo != {}
      invariant cg.Valid() && todo <= callees
      invariant forall c :: c in callees - todo ==> c in j
      invariant forall u: NodeId, v: NodeId ::
                  (u, v) in cg.edges
                  <==> u <= id && v < |order| && order[v] in j[order[u]].callees && (u < id || order[v] !in todo)
    {
      var calleeStr :| calleeStr in todo;
      if calleeStr !in strToNode {
        ok := false;
        return;
      }
      var calleeNode := strToNode[calleeStr];
      PositionOf(strToNode, order, calleeStr);
      var _ := cg.AddEdge(id, calleeNode);
      todo := todo - {calleeStr};
    }
    ok := true;
  }

  lemma PositionOf(strToNode: map<string, NodeId>, order: seq<string>, k: string)
    requires Registered(strToNode, order) && Distinct(order) && k in strToNode
    ensures strToNode[k] < |order| && order[strToNode[k]] == k
    ensures forall i :: 0 <= i < |order| && order[i] == k ==> i == strToNode[k]
  {
  }

  method Read(j: V4Graph) returns (cg: Callgraph?, ghost order: seq<string>)
    requires forall k :: k in j ==> j[k].functionName != Given("")
    ensures cg != null <==> Readable(j)
    ensures cg != null
            <==> (forall k | k in j :: j[k].functionName.Given? && j[k].hasBody.Given? && !j[k].origin.Missing?
                                       && !j[k].meta.Missing?)
                 && forall k, c | k in j && c in j[k].callees :: c in j
    ensures cg != null ==> fresh(cg) && cg.Valid() && Enumerates(order, j)
    ensures cg != null ==> NodesRead(j, order, cg.nodes) && EdgesRead(j, order, cg.edges)
  {
    hide Callgraph.Valid, EdgesReadBefore, NodesRead, Registered;
    var graph := new Callgraph();
    var ok, strToNode, keys := ReadNodes(graph, j);
    order := keys;
    if !ok {
      return null, order;
    }
    NoEdgesRead(j, order);
    assert forall k :: k in order <==> k in j;
    for i := 0 to |keys|
      invariant graph.Valid() && fresh(graph) && NodesRead(j, order, graph.nodes)
      invariant EdgesReadBefore(j, order, graph.edges, i)
      invariant forall k, c :: k in order[..i] && c in j[k].callees ==> c in j
    {
      assert order[i] in order;
      ok := ReadEdgesOf(graph, j, strToNode, keys, i);
      if !ok {
        return null, order;
      }
      assert order[..i + 1] == order[..i] + [order[i]];
    }
    assert order[..|order|] == order;
    AllEdgesRead(j, order, graph.edges);
    cg := graph;
  }

  lemma NoEdgesRead(j: V4Graph, order: seq<string>)
    ensures EdgesReadBefore(j, order, {}, 0)
  {
  }

  lemma AllEdgesRead(j: V4Graph, order: seq<string>, edges: Edges)
    requires EdgesReadBefore(j, order, edges, |order|)
    ensures EdgesRead(j, order, edges)
  {
  }
}
