/**
 What is left of a call graph after it was written and read again.
 */
module RoundTrip {
  import opened CallgraphModel
  import opened Lists
  import opened NodeIds
  import opened Optional
  import opened V4Format
  import opened V4Reader

  /** A renaming of ids under which two graphs are the same. */
  ghost predicate Renames(f: map<NodeId, NodeId>, nodes: Nodes, edges: Edges, nodes': Nodes, edges': Edges) {
    && (forall u: NodeId :: u in f <==> Live(nodes, u))
    && (forall u: NodeId :: u in f ==> Live(nodes', f[u]) && nodes'[f[u]].value == nodes[u].value.(id := f[u]))
    && (forall u: NodeId, v: NodeId :: u in f && v in f && f[u] == f[v] ==> u == v)
    && (forall w: NodeId :: Live(nodes', w) ==> exists u: NodeId :: u in f && f[u] == w)
    && (forall u: NodeId, v: NodeId :: u in f && v in f ==> ((u, v) in edges <==> (f[u], f[v]) in edges'))
  }

  ghost predicate Isomorphic(nodes: Nodes, edges: Edges, nodes': Nodes, edges': Edges) {
    exists f: map<NodeId, NodeId> :: Renames(f, nodes, edges, nodes', edges')
  }

  ghost function LiveIds(nodes: Nodes): set<NodeId> {
    set u: NodeId | u < |nodes| && nodes[u].Some?
  }

  // ---------------------------------------------------------------- counting

  lemma {:induction false} InjectiveKeepsSize(f: map<NodeId, NodeId>, s: set<NodeId>, t: set<NodeId>)
    requires forall u :: u in s ==> u in f && f[u] in t
    requires forall u, v :: u in s && v in s && f[u] == f[v] ==> u == v
    ensures |s| <= |t|
    decreases |s|
  {
    if s != {} {
      var u :| u in s;
      InjectiveKeepsSize(f, s - {u}, t - {f[u]});
    }
  }

  /** Distinct strings that choose different ids are no more than the ids. */
  lemma {:induction false} DistinctSize(order: seq<string>, pick: map<string, NodeId>, s: set<NodeId>)
    requires Distinct(order)
    requires forall k :: k in order ==> k in pick && pick[k] in s
    requires forall k, m :: k in order && m in order && pick[k] == pick[m] ==> k == m
    ensures |order| <= |s|
  {
    if order != [] {
      var k, init := order[|order| - 1], order[..|order| - 1];
      assert order == init + [k];
      assert k !in init;
      DistinctSize(init, pick, s - {pick[k]});
    }
  }

  ghost function Below(n: nat): (s: set<NodeId>)
    ensures |s| == n && forall i: NodeId :: i in s <==> i < n
  {
    if n == 0 then {} else Below(n - 1) + {n - 1}
  }

  // ---------------------------------------------------------------- version 4

  /** Where a node is read again. */
  ghost function Position(order: seq<string>, k: string): nat
    requires k in order
    ensures Position(order, k) < |order| && order[Position(order, k)] == k
  {
    var i :| 0 <= i < |order| && order[i] == k;
    i
  }

  lemma EntryOf(nodes: Nodes, useNames: bool, metaOf: NodeId -> Meta, j: V4Graph, u: NodeId)
    requires NodesWritten(nodes, useNames, metaOf, j, |nodes|) && Live(nodes, u) && DifferentIds(nodes, useNames)
    ensures var k := IdString(nodes, useNames, u);
            k in j && j[k] == NodeField(nodes[u].value, metaOf(u), j[k].callees)
  {
    hide IdString;
    var k := IdString(nodes, useNames, u);
    assert StandsFor(nodes, useNames, k, u);
    var w: NodeId :| LastFor(nodes, useNames, k, w, |nodes|)
                     && j[k] == NodeField(nodes[w].value, metaOf(w), j[k].callees);
    assert w == u;
  }

  /** Each node is read again where its string is. */
  ghost predicate FoundAt(f: map<NodeId, NodeId>, nodes: Nodes, useNames: bool, order: seq<string>) {
    && (forall u: NodeId :: u in f <==> Live(nodes, u))
    && (forall u: NodeId :: u in f ==> f[u] < |order| && order[f[u]] == IdString(nodes, useNames, u))
  }

  lemma NodesComeBack(f: map<NodeId, NodeId>, nodes: Nodes, useNames: bool, metaOf: NodeId -> Meta, j: V4Graph,
                      order: seq<string>, nodes': Nodes)
    requires NodesWritten(nodes, useNames, metaOf, j, |nodes|) && DifferentIds(nodes, useNames)
    requires Distinct(order) && NodesRead(j, order, nodes') && FoundAt(f, nodes, useNames, order)
    ensures forall u: NodeId :: u in f ==> Live(nodes', f[u]) && nodes'[f[u]].value == nodes[u].value.(id := f[u])
    ensures forall u: NodeId, v: NodeId :: u in f && v in f && f[u] == f[v] ==> u == v
    ensures forall w: NodeId :: Live(nodes', w) ==> exists u: NodeId :: u in f && f[u] == w
  {
    hide IdString, WrittenAs;
    forall u: NodeId | u in f
      ensures Live(nodes', f[u]) && nodes'[f[u]].value == nodes[u].value.(id := f[u])
    {
      EntryOf(nodes, useNames, metaOf, j, u);
    }
    forall w: NodeId | Live(nodes', w)
      ensures exists u: NodeId :: u in f && f[u] == w
    {
      assert order[w] in j;
      var u: NodeId :| u < |nodes| && StandsFor(nodes, useNames, order[w], u);
      assert u in f && f[u] == w;
    }
  }

  lemma EdgesComeBack(f: map<NodeId, NodeId>, nodes: Nodes, edges: Edges, useNames: bool, j: V4Graph,
                      order: seq<string>, edges': Edges)
    requires EdgesWritten(nodes, edges, useNames, j) && DifferentIds(nodes, useNames)
    requires Enumerates(order, j) && EdgesRead(j, order, edges') && FoundAt(f, nodes, useNames, order)
    ensures forall u: NodeId, v: NodeId :: u in f && v in f ==> ((u, v) in edges <==> (f[u], f[v]) in edges')
  {
  }

  lemma StringInOrder(nodes: Nodes, useNames: bool, metaOf: NodeId -> Meta, j: V4Graph, order: seq<string>, u: NodeId)
    requires NodesWritten(nodes, useNames, metaOf, j, |nodes|) && Enumerates(order, j) && Live(nodes, u)
    ensures IdString(nodes, useNames, u) in order
  {
    hide IdString, WrittenAs;
    assert StandsFor(nodes, useNames, IdString(nodes, useNames, u), u);
  }

  /** With different strings for different nodes, the graph comes back under new ids. */
  lemma WrittenGraphComesBack(nodes: Nodes, edges: Edges, useNames: bool, metaOf: NodeId -> Meta, j: V4Graph,
                              order: seq<string>, nodes': Nodes, edges': Edges)
    requires Describes(nodes, edges, useNames, metaOf, j) && DifferentIds(nodes, useNames)
    requires Enumerates(order, j) && NodesRead(j, order, nodes') && EdgesRead(j, order, edges')
    ensures Isomorphic(nodes, edges, nodes', edges')
  {
    hide IdString, NodesWritten, EdgesWritten, EdgesRead, NodesRead, WrittenAs, Distinct, DifferentIds;
    forall u: NodeId | Live(nodes, u)
      ensures IdString(nodes, useNames, u) in order
    {
      StringInOrder(nodes, useNames, metaOf, j, order, u);
    }
    var f: map<NodeId, NodeId> := map u: NodeId | u in LiveIds(nodes) :: Position(order, IdString(nodes, useNames, u));
    assert FoundAt(f, nodes, useNames, order);
    NodesComeBack(f, nodes, useNames, metaOf, j, order, nodes');
    EdgesComeBack(f, nodes, edges, useNames, j, order, edges');
    assert Renames(f, nodes, edges, nodes', edges');
  }

  /** Some other node than the given one that a string stands for. */
  lemma OtherNodeFor(nodes: Nodes, useNames: bool, metaOf: NodeId -> Meta, j: V4Graph, k: string, u: NodeId, v: NodeId)
    requires NodesWritten(nodes, useNames, metaOf, j, |nodes|) && k in j
    requires Live(nodes, u) && Live(nodes, v) && u != v && IdString(nodes, useNames, u) == IdString(nodes, useNames, v)
    ensures exists id: NodeId :: id in LiveIds(nodes) - {u} && StandsFor(nodes, useNames, k, id)
  {
    hide IdString, WrittenAs;
    var id: NodeId :| id < |nodes| && StandsFor(nodes, useNames, k, id);
    if id == u {
      assert v in LiveIds(nodes) - {u} && StandsFor(nodes, useNames, k, v);
    } else {
      assert id in LiveIds(nodes) - {u};
    }
  }

  lemma RenamedSize(f: map<NodeId, NodeId>, nodes: Nodes, edges: Edges, nodes': Nodes, edges': Edges)
    requires Renames(f, nodes, edges, nodes', edges')
    ensures |LiveIds(nodes)| <= |nodes'|
  {
    InjectiveKeepsSize(f, LiveIds(nodes), Below(|nodes'|));
  }

  /** Two nodes with one string become one: too few nodes come back. */
  lemma ClashLosesNodes(nodes: Nodes, edges: Edges, useNames: bool, metaOf: NodeId -> Meta, j: V4Graph,
                        order: seq<string>, nodes': Nodes, edges': Edges)
    requires NodesWritten(nodes, useNames, metaOf, j, |nodes|) && !DifferentIds(nodes, useNames)
    requires Enumerates(order, j) && |nodes'| == |order|
    ensures !Isomorphic(nodes, edges, nodes', edges')
  {
    hide IdString, NodesWritten, Renames, LiveIds;
    var u: NodeId, v: NodeId :| Live(nodes, u) && Live(nodes, v) && u != v
      && IdString(nodes, useNames, u) == IdString(nodes, useNames, v);
    var others := LiveIds(nodes) - {u};
    forall k | k in j
      ensures exists id: NodeId :: id in others && StandsFor(nodes, useNames, k, id)
    {
      OtherNodeFor(nodes, useNames, metaOf, j, k, u, v);
    }
    var pick: map<string, NodeId> :=
      map k | k in j :: var id: NodeId :| id in others && StandsFor(nodes, useNames, k, id); id;
    assert forall k :: k in pick ==> StandsFor(nodes, useNames, k, pick[k]);
    DistinctSize(order, pick, others);
    LiveIsCounted(nodes, u);
    if Isomorphic(nodes, edges, nodes', edges') {
      var f :| Renames(f, nodes, edges, nodes', edges');
      RenamedSize(f, nodes, edges, nodes', edges');
      assert false;
    }
  }

  lemma LiveIsCounted(nodes: Nodes, u: NodeId)
    requires Live(nodes, u)
    ensures |LiveIds(nodes) - {u}| < |LiveIds(nodes)|
  {
  }

  /** Version 4 keeps the graph if and only if different nodes have different strings. */
  lemma V4RoundTrip(nodes: Nodes, edges: Edges, useNames: bool, metaOf: NodeId -> Meta, j: V4Graph,
                    order: seq<string>, nodes': Nodes, edges': Edges)
    requires Describes(nodes, edges, useNames, metaOf, j)
    requires Enumerates(order, j) && NodesRead(j, order, nodes') && EdgesRead(j, order, edges')
    ensures Isomorphic(nodes, edges, nodes', edges') <==> !useNames || !SuffixClash(nodes)
  {
    hide Describes, Isomorphic, EdgesRead, NodesRead, SuffixClash, DifferentIds;
    DecimalIdsDiffer(nodes);
    NameIdsDiffer(nodes);
    if DifferentIds(nodes, useNames) {
      WrittenGraphComesBack(nodes, edges, useNames, metaOf, j, order, nodes', edges');
    } else {
      NodesDescribed(nodes, edges, useNames, metaOf, j);
      AsManyNodes(j, order, nodes');
      ClashLosesNodes(nodes, edges, useNames, metaOf, j, order, nodes', edges');
    }
  }

  lemma NodesDescribed(nodes: Nodes, edges: Edges, useNames: bool, metaOf: NodeId -> Meta, j: V4Graph)
    requires Describes(nodes, edges, useNames, metaOf, j)
    ensures NodesWritten(nodes, useNames, metaOf, j, |nodes|)
  {
  }

  lemma AsManyNodes(j: V4Graph, order: seq<string>, nodes: Nodes)
    requires NodesRead(j, order, nodes)
    ensures |nodes| == |order|
  {
  }

  /** Nothing that was written fails to be read. */
  lemma WrittenIsReadable(nodes: Nodes, edges: Edges, useNames: bool, metaOf: NodeId -> Meta, j: V4Graph)
    requires Describes(nodes, edges, useNames, metaOf, j)
    ensures Readable(j)
  {
    hide IdString;
    forall k, c | k in j && c in j[k].callees
      ensures c in j
    {
      var e :| e in edges && StandsFor(nodes, useNames, k, e.0) && StandsFor(nodes, useNames, c, e.1);
      assert e.1 < |nodes|;
    }
  }

  ghost predicate AllNamed(nodes: Nodes) {
    forall u: NodeId :: Live(nodes, u) ==> nodes[u].value.functionName != ""
  }

  lemma WrittenNames(nodes: Nodes, useNames: bool, metaOf: NodeId -> Meta, j: V4Graph)
    requires NodesWritten(nodes, useNames, metaOf, j, |nodes|) && AllNamed(nodes)
    ensures forall k :: k in j ==> j[k].functionName != Given("")
  {
    hide IdString;
    forall k | k in j
      ensures j[k].functionName != Given("")
    {
      assert WrittenAs(nodes, useNames, metaOf, k, j[k], |nodes|);
      var u: NodeId :| LastFor(nodes, useNames, k, u, |nodes|)
                       && j[k] == NodeField(nodes[u].value, metaOf(u), j[k].callees);
    }
  }

  /** Writing a graph and reading the file never fails, and keeps the graph if and only if
      different nodes have different strings. */
  method WriteAndRead(cg: Callgraph, useNames: bool, metaOf: NodeId -> Meta) returns (copy: Callgraph)
    requires cg.Valid()
    ensures fresh(copy) && copy.Valid()
    ensures Isomorphic(cg.nodes, cg.edges, copy.nodes, copy.edges) <==> !useNames || !SuffixClash(cg.nodes)
  {
    assert AllNamed(cg.nodes);
    hide Callgraph.Valid, Describes, Readable, NodesRead, EdgesRead, Isomorphic, SuffixClash, AllNamed;
    var j := Write(cg, useNames, metaOf);
    WrittenIsReadable(cg.nodes, cg.edges, useNames, metaOf, j);
    NodesDescribed(cg.nodes, cg.edges, useNames, metaOf, j);
    WrittenNames(cg.nodes, useNames, metaOf, j);
    var read;
    ghost var order;
    read, order := Read(j);
    copy := read;
    V4RoundTrip(cg.nodes, cg.edges, useNames, metaOf, j, order, copy.nodes, copy.edges);
  }

  const PLAIN := Meta(None, None, map[])

  /** Two functions `f`, and one that is itself named like the first of them. */
  method NamesThatClash() returns (cg: Callgraph, copy: Callgraph)
    ensures cg.Valid() && copy.Valid() && SuffixClash(cg.nodes)
    ensures !Isomorphic(cg.nodes, cg.edges, copy.nodes, copy.edges)
  {
    cg := new Callgraph();
    var _ := cg.Insert("f", None, true);
    var _ := cg.Insert("f", None, false);
    var _ := cg.Insert("f#0", None, true);
    assert cg.nodes == Clashing();
    ClashingNames();
    hide Callgraph.Valid, SuffixClash, Isomorphic;
    copy := WriteAndRead(cg, true, _ => PLAIN);
  }

  function Clashing(): Nodes {
    [Some(CgNode(0, "f", None, true)), Some(CgNode(1, "f", None, false)), Some(CgNode(2, "f#0", None, true))]
  }

  lemma ClashingNames()
    ensures SuffixClash(Clashing())
  {
    var nodes := Clashing();
    assert nodes[..2][..1][..0] == [] && nodes[..2] == [nodes[0], nodes[1]] && nodes[..2][..1] == [nodes[0]];
    assert IdsOf(nodes[..2][..1], "f") == [0];
    assert IdsOf(nodes[..2], "f") == [0, 1];
    assert IdsOf(nodes, "f") == [0, 1];
    assert "f" != "f#0" by {
      assert |"f"| != |"f#0"|;
    }
    assert IdsOf(nodes[..2][..1], "f#0") == [];
    assert IdsOf(nodes[..2], "f#0") == [];
    assert IdsOf(nodes, "f#0") == [2];
    assert Decimal(0) == "0" && Numbered("f", 0) == "f#0";
    assert IdString(nodes, true, 0) == "f#0";
  }
}
