/**
 The strings that stand for nodes in a file (V4WriterMapping in
 graph/src/io/VersionFourMCGWriter.cpp): the id in decimal digits, or the function name, with a
 number behind it if several nodes have that name.
 */
module NodeIds {
  import opened CallgraphModel
  import opened Lists

  function Decimal(n: nat): (s: string)
    ensures s != []
  {
    var digit := ['0' + (n % 10) as char];
    if n < 10 then digit else Decimal(n / 10) + digit
  }

  /** The number that a string of digits denotes. */
  function Parse(s: string): int {
    if s == [] then 0 else 10 * Parse(s[..|s| - 1]) + (s[|s| - 1] as int - '0' as int)
  }

  lemma {:induction false} DecimalRoundTrip(n: nat)
    ensures Parse(Decimal(n)) == n && '#' !in Decimal(n)
  {
    var digit := '0' + (n % 10) as char;
    if n < 10 {
      assert Decimal(n)[..0] == [];
    } else {
      DecimalRoundTrip(n / 10);
      assert Decimal(n) == Decimal(n / 10) + [digit];
      assert Decimal(n)[..|Decimal(n)| - 1] == Decimal(n / 10);
    }
  }

  lemma LastHash(a: string, s: string)
    requires '#' !in s
    ensures (a + "#" + s)[|a|] == '#' && forall i :: |a| < i < |a + "#" + s| ==> (a + "#" + s)[i] != '#'
  {
  }

  /** The last hash mark splits a string in one way only. */
  lemma HashSplits(a: string, s: string, b: string, t: string)
    requires a + "#" + s == b + "#" + t && '#' !in s && '#' !in t
    ensures a == b && s == t
  {
    LastHash(a, s);
    LastHash(b, t);
    var left, right := a + "#" + s, b + "#" + t;
    assert |a| == |b|;
    assert a == left[..|a|] && b == right[..|b|];
    assert s == left[|a| + 1..] && t == right[|b| + 1..];
  }

  /** A name for one of several nodes. */
  function Numbered(name: string, index: nat): string {
    name + "#" + Decimal(index)
  }

  function IdString(nodes: Nodes, useNameAsId: bool, id: NodeId): string
    requires Live(nodes, id)
  {
    if useNameAsId then
      var name := nodes[id].value.functionName;
      var allNodesWithName := IdsOf(nodes, name);
      if |allNodesWithName| > 1 then Numbered(name, IndexOf(allNodesWithName, id)) else name
    else Decimal(id)
  }

  /** Digit by digit, without leading zeros. */
  lemma DecimalDigits(n: nat, d: nat)
    requires d < 10
    ensures Decimal(d) == ["0123456789"[d]]
    ensures n > 0 ==> Decimal(10 * n + d) == Decimal(n) + ["0123456789"[d]]
  {
    assert (10 * n + d) / 10 == n && (10 * n + d) % 10 == d;
  }

  /** The string of a node: its id, or its name, with the number of older nodes of the same name
      behind a hash mark if it is not the only one. */
  lemma IdStringMeans(nodes: Nodes, id: NodeId)
    requires Live(nodes, id)
    ensures IdString(nodes, false, id) == Decimal(id)
    ensures IdString(nodes, true, id)
            == if exists n: NodeId | n != id && Live(nodes, n) ::
                    nodes[n].value.functionName == nodes[id].value.functionName then
                 nodes[id].value.functionName + "#"
                 + Decimal(|set n: NodeId | n < id && Live(nodes, n)
                                            && nodes[n].value.functionName == nodes[id].value.functionName|)
               else
                 nodes[id].value.functionName
  {
    var name := nodes[id].value.functionName;
    var ids := IdsOf(nodes, name);
    IdsOfContents(nodes, name);
    hide IdsOf;
    assert id in ids;
    var k := IndexOf(ids, id);
    OlderAreBefore(ids, k);
    assert (set n: NodeId | n < id && Live(nodes, n) && nodes[n].value.functionName == name)
        == set n | n in ids && n < ids[k];
    if n: NodeId :| n != id && Live(nodes, n) && nodes[n].value.functionName == name {
      assert n in ids;
    }
    if |ids| > 1 {
      assert ids[0] in ids && ids[1] in ids && ids[0] != ids[1];
    }
  }

  lemma {:induction false} OlderAreBefore(ids: seq<NodeId>, k: nat)
    requires k < |ids| && forall i, j :: 0 <= i < j < |ids| ==> ids[i] < ids[j]
    ensures |set n | n in ids && n < ids[k]| == k
  {
    var older := set n | n in ids && n < ids[k];
    if k == 0 {
      assert older == {};
    } else {
      OlderAreBefore(ids, k - 1);
      var fewer := set n | n in ids && n < ids[k - 1];
      assert older == fewer + {ids[k - 1]};
    }
  }

  ghost predicate DifferentIds(nodes: Nodes, useNameAsId: bool) {
    forall u: NodeId, v: NodeId | Live(nodes, u) && Live(nodes, v) && u != v ::
      IdString(nodes, useNameAsId, u) != IdString(nodes, useNameAsId, v)
  }

  /** Some node is named like one of several nodes of another name. */
  ghost predicate SuffixClash(nodes: Nodes) {
    exists u: NodeId, v: NodeId ::
      Live(nodes, u) && Live(nodes, v) && |IdsOf(nodes, nodes[v].value.functionName)| > 1
      && |IdsOf(nodes, nodes[u].value.functionName)| == 1
      && nodes[u].value.functionName == IdString(nodes, true, v)
  }

  /** Decimal ids never clash. */
  lemma DecimalIdsDiffer(nodes: Nodes)
    ensures DifferentIds(nodes, false)
  {
    forall u: NodeId, v: NodeId | Live(nodes, u) && Live(nodes, v) && u != v
      ensures IdString(nodes, false, u) != IdString(nodes, false, v)
    {
      DecimalRoundTrip(u);
      DecimalRoundTrip(v);
    }
  }

  lemma NumberedDiffer(nodes: Nodes, u: NodeId, v: NodeId)
    requires Live(nodes, u) && Live(nodes, v) && u != v
    requires |IdsOf(nodes, nodes[u].value.functionName)| > 1 && |IdsOf(nodes, nodes[v].value.functionName)| > 1
    ensures IdString(nodes, true, u) != IdString(nodes, true, v)
  {
    var a, b := nodes[u].value.functionName, nodes[v].value.functionName;
    IdListed(nodes, a, u);
    IdListed(nodes, b, v);
    var i, j := IndexOf(IdsOf(nodes, a), u), IndexOf(IdsOf(nodes, b), v);
    if Numbered(a, i) == Numbered(b, j) {
      DecimalRoundTrip(i);
      DecimalRoundTrip(j);
      HashSplits(a, Decimal(i), b, Decimal(j));
      assert false;
    }
  }

  /** Names as ids: they are different exactly if no name looks like a numbered one. */
  lemma NameIdsDiffer(nodes: Nodes)
    ensures DifferentIds(nodes, true) <==> !SuffixClash(nodes)
  {
    forall u: NodeId, v: NodeId | Live(nodes, u) && Live(nodes, v) && u != v && !SuffixClash(nodes)
      ensures IdString(nodes, true, u) != IdString(nodes, true, v)
    {
      var a, b := nodes[u].value.functionName, nodes[v].value.functionName;
      IdListed(nodes, a, u);
      IdListed(nodes, b, v);
      if |IdsOf(nodes, a)| > 1 && |IdsOf(nodes, b)| > 1 {
        NumberedDiffer(nodes, u, v);
      } else if |IdsOf(nodes, a)| > 1 || |IdsOf(nodes, b)| > 1 {
        assert IdString(nodes, true, u) != IdString(nodes, true, v);
      } else {
        OnlyOne(IdsOf(nodes, a), u, v);
      }
    }
    if SuffixClash(nodes) {
      var u: NodeId, v: NodeId :| Live(nodes, u) && Live(nodes, v) && |IdsOf(nodes, nodes[v].value.functionName)| > 1
        && |IdsOf(nodes, nodes[u].value.functionName)| == 1
        && nodes[u].value.functionName == IdString(nodes, true, v);
      assert IdString(nodes, true, u) == IdString(nodes, true, v) && u != v;
    }
  }

  lemma OnlyOne(s: seq<NodeId>, u: NodeId, v: NodeId)
    requires |s| <= 1 && u in s && u != v
    ensures v !in s
  {
  }

  /** Without hash marks in names there is no clash. */
  lemma HashFreeNames(nodes: Nodes)
    requires forall u: NodeId :: Live(nodes, u) ==> '#' !in nodes[u].value.functionName
    ensures DifferentIds(nodes, true)
  {
    forall v: NodeId | Live(nodes, v) && |IdsOf(nodes, nodes[v].value.functionName)| > 1
      ensures '#' in IdString(nodes, true, v)
    {
      assert IdString(nodes, true, v)[|nodes[v].value.functionName|] == '#';
    }
    NameIdsDiffer(nodes);
  }

  /** The writer's table: an id is turned into a string once. */
  class V4WriterMapping {
    const cg: Callgraph
    const useNameAsId: bool
    var idToStr: map<NodeId, string>

    ghost predicate Valid()
      reads this, cg
    {
      && cg.Valid()
      && forall id :: id in idToStr ==>
           Live(cg.nodes, id) && idToStr[id] == IdString(cg.nodes, useNameAsId, id)
    }

    constructor (cg: Callgraph, useNameAsId: bool)
      requires cg.Valid()
      ensures Valid() && this.cg == cg && this.useNameAsId == useNameAsId
    {
      this.cg, this.useNameAsId, idToStr := cg, useNameAsId, map[];
    }

    method GetStrFromNode(id: NodeId) returns (s: string)
      requires Valid() && Live(cg.nodes, id)
      modifies this
      ensures Valid() && s == IdString(cg.nodes, useNameAsId, id)
    {
      hide IdsOf, Indexed, DuplicatesNoted, Erased;
      if id !in idToStr {
        var str := ConvertToStr(id);
        idToStr := idToStr[id := str];
      }
      s := idToStr[id];
    }

    method ConvertToStr(id: NodeId) returns (idStr: string)
      requires Valid() && Live(cg.nodes, id)
      ensures idStr == IdString(cg.nodes, useNameAsId, id)
    {
      if useNameAsId {
        var allNodesWithName := NameList(cg.nameIdMap, cg.nodes[id].value.functionName);
        idStr := cg.nodes[id].value.functionName;
        if |allNodesWithName| > 1 {
          var idx := IndexOf(allNodesWithName, id);
          idStr := idStr + "#" + Decimal(idx);
        }
      } else {
        idStr := Decimal(id);
      }
    }
  }
}
