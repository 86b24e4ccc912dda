/**
 Exploring new nodes within a budget of calls (RuntimeEstimatorPhase::modifyGraphOverhead and
 getNodesToInstrumentGreedyKnapsackOverhead in pgis/lib/src/IPCGEstimatorPhase.cpp).
 Costs are real numbers here.
 */
module ExplorationBudget {
  import opened CallgraphModel
  import opened Instrumentation
  import opened Lists
  import opened Optional

  type Costs = NodeId -> real

  function Total(cost: Costs, s: seq<NodeId>): real {
    if s == [] then 0.0 else Total(cost, s[..|s| - 1]) + cost(s[|s| - 1])
  }

  lemma {:induction false} TotalOfBoth(cost: Costs, s: seq<NodeId>, t: seq<NodeId>)
    ensures Total(cost, s + t) == Total(cost, s) + Total(cost, t)
  {
    if t == [] {
      assert s + t == s;
    } else {
      assert (s + t)[..|s + t| - 1] == s + t[..|t| - 1];
      TotalOfBoth(cost, s, t[..|t| - 1]);
    }
  }

  /** Taking the nodes in their order, each that is affordable by itself and still fits. */
  function Greedy(cost: Costs, nodes: seq<NodeId>, limit: real): seq<NodeId> {
    if nodes == [] then []
    else
      var taken, last := Greedy(cost, nodes[..|nodes| - 1], limit), nodes[|nodes| - 1];
      if cost(last) < limit && Total(cost, taken) + cost(last) <= limit then taken + [last] else taken
  }

  /** The choice fits, and no affordable node left out would have fitted as well. */
  lemma {:induction false} GreedyIsMaximal(cost: Costs, nodes: seq<NodeId>, limit: real)
    requires forall n :: n in nodes ==> 0.0 <= cost(n)
    requires 0.0 <= limit && Distinct(nodes)
    ensures var taken := Greedy(cost, nodes, limit);
            && Distinct(taken) && (forall n :: n in taken ==> n in nodes && cost(n) < limit)
            && 0.0 <= Total(cost, taken) <= limit
            && (forall n :: n in nodes && n !in taken && cost(n) < limit ==> Total(cost, taken) + cost(n) > limit)
  {
    if nodes != [] {
      var init, last := nodes[..|nodes| - 1], nodes[|nodes| - 1];
      assert nodes == init + [last];
      assert last !in init;
      GreedyIsMaximal(cost, init, limit);
      var taken := Greedy(cost, init, limit);
      assert (taken + [last])[..|taken|] == taken;
    }
  }

  /** Nodes that stand as they do in the order. */
  ghost predicate Sorted(order: seq<NodeId>, s: seq<NodeId>) {
    forall i, j | 0 <= i < j < |s| :: IndexOf(order, s[i]) < IndexOf(order, s[j])
  }

  lemma SortedAppended(order: seq<NodeId>, s: seq<NodeId>, x: NodeId)
    requires Sorted(order, s) && forall y :: y in s ==> IndexOf(order, y) < IndexOf(order, x)
    ensures Sorted(order, s + [x])
  {
    hide IndexOf;
    forall i, j | 0 <= i < j < |s + [x]|
      ensures IndexOf(order, (s + [x])[i]) < IndexOf(order, (s + [x])[j])
    {
      if j == |s| {
        assert s[i] in s;
      } else {
        assert IndexOf(order, s[i]) < IndexOf(order, s[j]);
      }
    }
  }

  lemma SortedInit(order: seq<NodeId>, s: seq<NodeId>, x: NodeId)
    requires Sorted(order, s + [x])
    ensures Sorted(order, s) && forall y :: y in s ==> IndexOf(order, y) < IndexOf(order, x)
  {
    hide IndexOf;
    var more := s + [x];
    forall i, j | 0 <= i < j < |s|
      ensures IndexOf(order, s[i]) < IndexOf(order, s[j])
    {
      assert IndexOf(order, more[i]) < IndexOf(order, more[j]);
    }
    forall y | y in s
      ensures IndexOf(order, y) < IndexOf(order, x)
    {
      var i :| 0 <= i < |s| && s[i] == y;
      assert IndexOf(order, more[i]) < IndexOf(order, more[|s|]);
    }
  }

  /** The taken nodes stand in the order of the candidates. */
  lemma {:induction false} GreedyKeepsOrder(cost: Costs, order: seq<NodeId>, nodes: seq<NodeId>, limit: real)
    requires Sorted(order, nodes)
    ensures Sorted(order, Greedy(cost, nodes, limit))
    ensures forall n :: n in Greedy(cost, nodes, limit) ==> n in nodes && cost(n) < limit
  {
    hide Sorted, Total;
    if nodes == [] {
      NothingSorted(order);
    } else {
      var init, last := nodes[..|nodes| - 1], nodes[|nodes| - 1];
      assert nodes == init + [last];
      SortedInit(order, init, last);
      GreedyKeepsOrder(cost, order, init, limit);
      if Greedy(cost, nodes, limit) != Greedy(cost, init, limit) {
        SortedAppended(order, Greedy(cost, init, limit), last);
      }
    }
  }

  lemma NothingSorted(order: seq<NodeId>)
    ensures Sorted(order, [])
  {
  }

  /** What the order is for: an affordable node is left out only if it does not fit with those taken
      that stand before it. */
  lemma {:induction false} GreedyFavoursFirst(cost: Costs, order: seq<NodeId>, nodes: seq<NodeId>, limit: real,
                                              n: NodeId) returns (k: nat)
    requires Sorted(order, nodes) && n in nodes && n !in Greedy(cost, nodes, limit) && cost(n) < limit
    ensures var taken := Greedy(cost, nodes, limit);
            && k <= |taken| && Total(cost, taken[..k]) + cost(n) > limit
            && forall m :: m in taken[..k] ==> IndexOf(order, m) < IndexOf(order, n)
  {
    hide IndexOf, Total, Sorted;
    var init, last := nodes[..|nodes| - 1], nodes[|nodes| - 1];
    assert nodes == init + [last];
    SortedInit(order, init, last);
    var before, taken := Greedy(cost, init, limit), Greedy(cost, nodes, limit);
    assert taken == before || taken == before + [last];
    if n in init {
      k := GreedyFavoursFirst(cost, order, init, limit, n);
      assert taken[..k] == before[..k];
    } else {
      assert taken == before && taken[..|taken|] == taken;
      k := |taken|;
      GreedyKeepsOrder(cost, order, init, limit);
    }
  }

  /** The affordable node of the highest value; the first one in the order counts among equals. */
  function MostValuable(cost: Costs, value: NodeId -> int, nodes: seq<NodeId>, limit: real): (r: Option<NodeId>)
    ensures r.None? <==> forall n :: n in nodes ==> cost(n) >= limit
    ensures r.Some? ==> r.value in nodes && cost(r.value) < limit
                        && forall n :: n in nodes && cost(n) < limit ==> value(n) <= value(r.value)
  {
    if nodes == [] then None
    else
      var init, last := nodes[..|nodes| - 1], nodes[|nodes| - 1];
      var best := MostValuable(cost, value, init, limit);
      assert nodes == init + [last];
      if cost(last) < limit && (best.None? || value(last) > value(best.value)) then Some(last) else best
  }

  /** The greedy choice, unless the most valuable node is not in it: then that node alone. */
  function Selection(cost: Costs, value: NodeId -> int, nodes: seq<NodeId>, limit: real): seq<NodeId> {
    var taken, best := Greedy(cost, nodes, limit), MostValuable(cost, value, nodes, limit);
    if best.Some? && best.value !in taken then [best.value] else taken
  }

  lemma HasMember<T>(s: seq<T>)
    ensures s != [] ==> exists x :: x in s
  {
    if s != [] {
      assert s[0] in s;
    }
  }

  /** What a selection is good for: it is affordable, it holds the most valuable of all affordable
      nodes, and it is empty only if there are none. */
  lemma SelectionIsGood(cost: Costs, value: NodeId -> int, nodes: seq<NodeId>, limit: real)
    requires forall n :: n in nodes ==> 0.0 <= cost(n)
    requires 0.0 <= limit && Distinct(nodes)
    ensures var chosen := Selection(cost, value, nodes, limit);
            && Distinct(chosen) && (forall n :: n in chosen ==> n in nodes && cost(n) < limit)
            && 0.0 <= Total(cost, chosen) <= limit
            && (chosen == [] <==> forall n :: n in nodes ==> cost(n) >= limit)
            && (chosen != [] ==>
                  exists m :: m in chosen && forall n :: n in nodes && cost(n) < limit ==> value(n) <= value(m))
  {
    GreedyIsMaximal(cost, nodes, limit);
    var taken, best := Greedy(cost, nodes, limit), MostValuable(cost, value, nodes, limit);
    if best.Some? {
      assert Total(cost, [best.value]) == Total(cost, []) + cost(best.value) by {
        assert [best.value][..0] == [];
      }
      var chosen := Selection(cost, value, nodes, limit);
      assert best.value in chosen;
    } else {
      HasMember(taken);
    }
  }

  /** The most valuable node is the first in the order among equals. */
  lemma {:induction false} MostValuableIsFirst(cost: Costs, value: NodeId -> int, order: seq<NodeId>,
                                               nodes: seq<NodeId>, limit: real, n: NodeId)
    requires Sorted(order, nodes) && n in nodes && cost(n) < limit
    ensures var m := MostValuable(cost, value, nodes, limit).value;
            value(n) < value(m) || (value(n) == value(m) && IndexOf(order, m) <= IndexOf(order, n))
  {
    hide IndexOf, Sorted;
    var init, last := nodes[..|nodes| - 1], nodes[|nodes| - 1];
    assert nodes == init + [last];
    SortedInit(order, init, last);
    if n in init {
      MostValuableIsFirst(cost, value, order, init, limit, n);
    }
  }

  /** What a round chooses.  Candidates are taken in their order, and one is left out only if it did
      not fit with those before it; unless the most valuable candidate, the first in the order
      among equals, was left out: then it is chosen alone. */
  ghost predicate InProfitOrder(cost: Costs, value: NodeId -> int, order: seq<NodeId>, nodes: set<NodeId>,
                                limit: real, taken: seq<NodeId>, chosen: seq<NodeId>)
  {
    && (forall n :: n in taken ==> n in nodes && cost(n) < limit) && Total(cost, taken) <= limit
    && (forall i, j | 0 <= i < j < |taken| :: IndexOf(order, taken[i]) < IndexOf(order, taken[j]))
    && (forall n | n in nodes && n !in taken && cost(n) < limit ::
          exists k :: 0 <= k <= |taken| && Total(cost, taken[..k]) + cost(n) > limit
                      && forall m :: m in taken[..k] ==> IndexOf(order, m) < IndexOf(order, n))
    && (chosen == [] <==> forall n :: n in nodes ==> cost(n) >= limit)
    && (chosen != [] ==>
          exists m :: m in nodes && cost(m) < limit
                      && (forall n | n in nodes && cost(n) < limit ::
                            value(n) < value(m)
                            || (value(n) == value(m) && IndexOf(order, m) <= IndexOf(order, n)))
                      && chosen == if m in taken then taken else [m])
  }

  lemma ProfitOrderMeans(cost: Costs, value: NodeId -> int, order: seq<NodeId>, nodes: set<NodeId>, limit: real,
                         taken: seq<NodeId>, chosen: seq<NodeId>)
    requires InProfitOrder(cost, value, order, nodes, limit, taken, chosen)
    ensures (forall n :: n in taken ==> n in nodes && cost(n) < limit) && Total(cost, taken) <= limit
    ensures forall i, j | 0 <= i < j < |taken| :: IndexOf(order, taken[i]) < IndexOf(order, taken[j])
    ensures forall n | n in nodes && n !in taken && cost(n) < limit ::
              exists k :: 0 <= k <= |taken| && Total(cost, taken[..k]) + cost(n) > limit
                          && forall m :: m in taken[..k] ==> IndexOf(order, m) < IndexOf(order, n)
    ensures chosen == [] <==> forall n :: n in nodes ==> cost(n) >= limit
    ensures chosen != [] ==>
              exists m :: m in nodes && cost(m) < limit
                          && (forall n | n in nodes && cost(n) < limit ::
                                value(n) < value(m)
                                || (value(n) == value(m) && IndexOf(order, m) <= IndexOf(order, n)))
                          && chosen == if m in taken then taken else [m]
  {
  }

  lemma ChoiceFollowsOrder(cost: Costs, value: NodeId -> int, order: seq<NodeId>, candidates: set<NodeId>,
                           nodes: seq<NodeId>, limit: real)
    requires forall n :: n in candidates <==> n in nodes
    requires forall n :: n in nodes ==> 0.0 <= cost(n)
    requires 0.0 <= limit && Distinct(nodes) && Sorted(order, nodes)
    ensures InProfitOrder(cost, value, order, candidates, limit, Greedy(cost, nodes, limit),
                          Selection(cost, value, nodes, limit))
  {
    hide IndexOf, Greedy, MostValuable, Total;
    var taken, chosen := Greedy(cost, nodes, limit), Selection(cost, value, nodes, limit);
    GreedyIsMaximal(cost, nodes, limit);
    GreedyKeepsOrder(cost, order, nodes, limit);
    SelectionIsGood(cost, value, nodes, limit);
    forall n | n in nodes && n !in taken && cost(n) < limit
      ensures exists k :: 0 <= k <= |taken| && Total(cost, taken[..k]) + cost(n) > limit
                          && forall m :: m in taken[..k] ==> IndexOf(order, m) < IndexOf(order, n)
    {
      var k := GreedyFavoursFirst(cost, order, nodes, limit, n);
    }
    if chosen != [] {
      var m := MostValuable(cost, value, nodes, limit).value;
      forall n | n in nodes && cost(n) < limit
        ensures value(n) < value(m) || (value(n) == value(m) && IndexOf(order, m) <= IndexOf(order, n))
      {
        MostValuableIsFirst(cost, value, order, nodes, limit, n);
      }
      assert chosen == if m in taken then taken else [m];
    }
  }

  lemma GreedyNext(cost: Costs, nodes: seq<NodeId>, i: nat, limit: real)
    requires i < |nodes|
    ensures var taken := Greedy(cost, nodes[..i], limit);
            Greedy(cost, nodes[..i + 1], limit)
            == if cost(nodes[i]) < limit && Total(cost, taken) + cost(nodes[i]) <= limit then taken + [nodes[i]]
               else taken
  {
    assert nodes[..i + 1][..i] == nodes[..i];
  }

  lemma MostValuableNext(cost: Costs, value: NodeId -> int, nodes: seq<NodeId>, i: nat, limit: real)
    requires i < |nodes|
    ensures var best := MostValuable(cost, value, nodes[..i], limit);
            MostValuable(cost, value, nodes[..i + 1], limit)
            == if cost(nodes[i]) < limit && (best.None? || value(nodes[i]) > value(best.value)) then Some(nodes[i])
               else best
  {
    assert nodes[..i + 1][..i] == nodes[..i];
  }

  lemma TotalOfOneMore(cost: Costs, s: seq<NodeId>, n: NodeId)
    ensures Total(cost, s + [n]) == Total(cost, s) + cost(n) && Total(cost, [n]) == cost(n) && Total(cost, []) == 0.0
  {
    assert (s + [n])[..|s|] == s && [n][..0] == [];
  }

  lemma NothingSelected(cost: Costs, value: NodeId -> int, nodes: seq<NodeId>, limit: real)
    ensures Greedy(cost, nodes[..0], limit) == [] && MostValuable(cost, value, nodes[..0], limit) == None
    ensures Total(cost, []) == 0.0
  {
  }

  /** One pass over the candidates, the most profitable first. */
  method GetNodesToInstrumentGreedyKnapsackOverhead(cost: Costs, value: NodeId -> int, nodes: seq<NodeId>,
                                                    costLimit: real)
    returns (ret: seq<NodeId>, total: real)
    ensures ret == Selection(cost, value, nodes, costLimit) && total == Total(cost, ret)
  {
    hide Greedy, MostValuable, Total;
    ret := [];
    var curCost, maxCost := 0.0, 0.0;
    var maxProfitNode: Option<NodeId> := None;
    NothingSelected(cost, value, nodes, costLimit);
    for i := 0 to |nodes|
      invariant ret == Greedy(cost, nodes[..i], costLimit) && curCost == Total(cost, ret)
      invariant maxProfitNode == MostValuable(cost, value, nodes[..i], costLimit)
      invariant maxProfitNode.Some? ==> maxCost == cost(maxProfitNode.value)
    {
      var n := nodes[i];
      GreedyNext(cost, nodes, i, costLimit);
      MostValuableNext(cost, value, nodes, i, costLimit);
      TotalOfOneMore(cost, ret, n);
      var c := cost(n);
      if c < costLimit {
        if curCost + c <= costLimit {
          curCost := curCost + c;
          ret := ret + [n];
        }
        if maxProfitNode.None? || value(n) > value(maxProfitNode.value) {
          maxProfitNode := Some(n);
          maxCost := c;
        }
      }
    }
    assert nodes[..|nodes|] == nodes;
    total := curCost;
    if maxProfitNode.Some? && maxProfitNode.value !in ret {
      TotalOfOneMore(cost, [], maxProfitNode.value);
      ret, total := [maxProfitNode.value], maxCost;
    }
  }

  /** The candidates in the order of the set they are kept in. */
  function InOrder(order: seq<NodeId>, nodes: set<NodeId>): seq<NodeId> {
    if order == [] then []
    else
      var rest := InOrder(order[..|order| - 1], nodes);
      if order[|order| - 1] in nodes then rest + [order[|order| - 1]] else rest
  }

  lemma {:induction false} InOrderContents(order: seq<NodeId>, nodes: set<NodeId>)
    requires Distinct(order)
    ensures Distinct(InOrder(order, nodes))
    ensures forall n :: n in InOrder(order, nodes) <==> n in order && n in nodes
  {
    if order != [] {
      assert order == order[..|order| - 1] + [order[|order| - 1]];
      InOrderContents(order[..|order| - 1], nodes);
    }
  }

  /** The listed nodes stand as they do in the order. */
  lemma {:induction false} InOrderKeepsOrder(order: seq<NodeId>, nodes: set<NodeId>)
    requires Distinct(order)
    ensures Sorted(order, InOrder(order, nodes))
  {
    hide IndexOf, Sorted;
    if order == [] {
      NothingSorted(order);
    } else {
      var last := |order| - 1;
      var init := order[..last];
      assert order == init + [order[last]];
      InOrderKeepsOrder(init, nodes);
      InOrderContents(init, nodes);
      IndexIsUnique(order, last);
      var rest := InOrder(init, nodes);
      forall n | n in rest
        ensures IndexOf(order, n) == IndexOf(init, n) < last
      {
        assert order[IndexOf(init, n)] == n;
        IndexIsUnique(order, IndexOf(init, n));
      }
      SameIndexes(init, order, rest);
      if InOrder(order, nodes) != rest {
        SortedAppended(order, rest, order[last]);
      }
    }
  }

  lemma SameIndexes(order: seq<NodeId>, order': seq<NodeId>, s: seq<NodeId>)
    requires Sorted(order, s) && forall n :: n in s ==> IndexOf(order', n) == IndexOf(order, n)
    ensures Sorted(order', s)
  {
    hide IndexOf;
    forall i, j | 0 <= i < j < |s|
      ensures IndexOf(order', s[i]) < IndexOf(order', s[j])
    {
      assert s[i] in s && s[j] in s && IndexOf(order, s[i]) < IndexOf(order, s[j]);
    }
  }

  // ---------------------------------------------------------------- callees of new nodes

  type Parents = map<NodeId, seq<NodeId>>

  /** A node has been noted as a parent of its callees that are not instrumented, but for some. */
  ghost predicate ParentNoted(edges: Edges, marked: set<NodeId>, n: NodeId, todo: set<NodeId>, before: Parents,
                              after: Parents)
  {
    && (forall c :: c in after <==> c in before || ((n, c) in edges && c !in marked && c !in todo))
    && (forall c | c in after ::
          after[c] == (if c in before then before[c] else [])
                      + if (n, c) in edges && c !in marked && c !in todo then [n] else [])
  }

  lemma NothingNoted(edges: Edges, marked: set<NodeId>, n: NodeId, todo: set<NodeId>, before: Parents)
    requires forall c :: (n, c) in edges ==> c in todo
    ensures ParentNoted(edges, marked, n, todo, before, before)
  {
  }

  lemma NotedOneMore(edges: Edges, marked: set<NodeId>, n: NodeId, todo: set<NodeId>, c: NodeId, before: Parents,
                     after: Parents)
    requires ParentNoted(edges, marked, n, todo, before, after) && c in todo && (n, c) in edges
    ensures ParentNoted(edges, marked, n, todo - {c}, before,
                        if c in marked then after else after[c := ListOf(after, c) + [n]])
  {
  }

  /** A callee of a chosen node that was not instrumented before, nor up to that node's turn. */
  ghost predicate NewCallee(edges: Edges, marked: set<NodeId>, chosen: seq<NodeId>, i: int, c: NodeId) {
    0 <= i < |chosen| && (chosen[i], c) in edges && c !in marked && c !in chosen[..i + 1]
  }

  /** All new callees of the first nodes are noted, with all these callers and no others. */
  ghost predicate CallersNoted(edges: Edges, marked: set<NodeId>, chosen: seq<NodeId>, first: nat, noted: Parents) {
    && (forall c :: c in noted <==> exists i :: i < first && NewCallee(edges, marked, chosen, i, c))
    && (forall c, p | c in noted ::
          p in noted[c] <==> exists i :: i < first && NewCallee(edges, marked, chosen, i, c) && chosen[i] == p)
  }

  lemma NoCallersNoted(edges: Edges, marked: set<NodeId>, chosen: seq<NodeId>)
    ensures CallersNoted(edges, marked, chosen, 0, map[])
  {
  }

  lemma NextCallerNoted(edges: Edges, marked: set<NodeId>, marked': set<NodeId>, chosen: seq<NodeId>, i: nat,
                        before: Parents, after: Parents)
    requires i < |chosen| && CallersNoted(edges, marked, chosen, i, before)
    requires forall n :: n in marked' <==> n in marked || n in chosen[..i + 1]
    requires ParentNoted(edges, marked', chosen[i], {}, before, after)
    ensures CallersNoted(edges, marked, chosen, i + 1, after)
  {
    hide NewCallee;
    forall c
      ensures NewCallee(edges, marked, chosen, i, c) <==> (chosen[i], c) in edges && c !in marked'
    {
      CalleeOfNext(edges, marked, marked', chosen, i, c);
    }
    forall c, p | c in after
      ensures p in after[c]
              <==> (c in before && p in before[c]) || (NewCallee(edges, marked, chosen, i, c) && p == chosen[i])
    {
    }
  }

  lemma CalleeOfNext(edges: Edges, marked: set<NodeId>, marked': set<NodeId>, chosen: seq<NodeId>, i: nat, c: NodeId)
    requires i < |chosen| && forall n :: n in marked' <==> n in marked || n in chosen[..i + 1]
    ensures NewCallee(edges, marked, chosen, i, c) <==> (chosen[i], c) in edges && c !in marked'
  {
  }

  /** What the collection is used for: it lists no instrumented node, and misses no callee. */
  lemma NotedCallees(edges: Edges, marked: set<NodeId>, marked': set<NodeId>, chosen: seq<NodeId>, noted: Parents)
    requires CallersNoted(edges, marked, chosen, |chosen|, noted)
    requires forall n :: n in marked' <==> n in marked || n in chosen
    ensures forall c :: c in noted ==> c !in marked && exists n :: n in chosen && (n, c) in edges
    ensures forall n, c :: n in chosen && (n, c) in edges ==> c in noted || c in marked'
    ensures chosen == [] ==> noted == map[]
    ensures forall c, p | c in noted ::
              p in noted[c] <==> exists i :: 0 <= i < |chosen| && chosen[i] == p && (p, c) in edges && c !in marked
                                             && c !in chosen[..i + 1]
  {
    forall n, c | n in chosen && (n, c) in edges && c !in marked'
      ensures c in noted
    {
      var i :| 0 <= i < |chosen| && chosen[i] == n;
      assert NewCallee(edges, marked, chosen, i, c);
    }
    forall c | c in noted
      ensures c !in marked && exists n :: n in chosen && (n, c) in edges
    {
      var i :| i < |chosen| && NewCallee(edges, marked, chosen, i, c);
      assert chosen[i] in chosen;
    }
  }

  class RuntimeEstimatorPhase {
    const graph: Callgraph
    const marks: Marks
    const facts: NodeId -> NodeFacts
    const options: Options
    const eligibleForPath: (NodeId, seq<NodeId>) -> bool
    /** All nodes, the most profitable first. */
    const order: seq<NodeId>
    const value: NodeId -> int
    var childsToPotentialInstrument: set<NodeId>
    var childsToPotentialInstrumentCollection: map<NodeId, seq<NodeId>>

    constructor (graph: Callgraph, marks: Marks, facts: NodeId -> NodeFacts, options: Options,
                 eligibleForPath: (NodeId, seq<NodeId>) -> bool, order: seq<NodeId>, value: NodeId -> int)
      ensures this.graph == graph && this.marks == marks && this.facts == facts && this.options == options
      ensures this.eligibleForPath == eligibleForPath && this.order == order && this.value == value
      ensures childsToPotentialInstrument == {} && childsToPotentialInstrumentCollection == map[]
    {
      this.graph, this.marks, this.facts, this.options := graph, marks, facts, options;
      this.eligibleForPath, this.order, this.value := eligibleForPath, order, value;
      childsToPotentialInstrument, childsToPotentialInstrumentCollection := {}, map[];
    }

    function Cost(n: NodeId): (r: real)
      ensures r == match facts(n).measured case Some(m) => m.callCount case None => facts(n).callsFromParents
    {
      facts(n).Calls()
    }

    /** Calls are not negative, and every node has its place in the order. */
    ghost predicate Valid()
      reads graph
    {
      && graph.Valid() && Distinct(order)
      && (forall n :: 0.0 <= Cost(n))
      && (forall n: NodeId :: Live(graph.nodes, n) ==> n in order)
    }

    /** May be called, is called, and can be instrumented. */
    predicate Potential(c: NodeId, parents: seq<NodeId>) {
      && !facts(c).NeverCalled() && facts(c).callsFromParents != 0.0
      && (options.AsFunction(facts(c))
          || (options.useCSInstrumentation && (!options.onlyEligibleNodes || eligibleForPath(c, parents))))
    }

    method FilterEligible()
      modifies this`childsToPotentialInstrument, this`childsToPotentialInstrumentCollection
      ensures childsToPotentialInstrumentCollection == map[]
      ensures forall c ::
                c in childsToPotentialInstrument
                <==> c in old(childsToPotentialInstrument)
                     || (c in old(childsToPotentialInstrumentCollection)
                         && Potential(c, old(childsToPotentialInstrumentCollection)[c]))
      ensures forall c ::
                c in childsToPotentialInstrument
                <==> c in old(childsToPotentialInstrument)
                     || (c in old(childsToPotentialInstrumentCollection)
                         && !(facts(c).measured.Some? && facts(c).measured.value.callCount == 0.0
                              && facts(c).measured.value.isExclusiveRuntime)
                         && facts(c).callsFromParents != 0.0
                         && (facts(c).hasBody || facts(c).isMPIFunction
                             || (!options.onlyEligibleNodes && !options.useCSInstrumentation)
                             || (options.useCSInstrumentation
                                 && (!options.onlyEligibleNodes
                                     || eligibleForPath(c, old(childsToPotentialInstrumentCollection)[c])))))
    {
      var collection := childsToPotentialInstrumentCollection;
      var todo := collection.Keys;
      while todo != {}
        invariant todo <= collection.Keys
        invariant forall c ::
                    c in childsToPotentialInstrument
                    <==> c in old(childsToPotentialInstrument)
                         || (c in collection.Keys - todo && Potential(c, collection[c]))
      {
        var c :| c in todo;
        if !facts(c).NeverCalled() && facts(c).callsFromParents != 0.0 {
          if options.AsFunction(facts(c)) {
            childsToPotentialInstrument := childsToPotentialInstrument + {c};
          } else if options.useCSInstrumentation {
            if options.onlyEligibleNodes {
              if eligibleForPath(c, collection[c]) {
                childsToPotentialInstrument := childsToPotentialInstrument + {c};
              }
            } else {
              childsToPotentialInstrument := childsToPotentialInstrument + {c};
            }
          }
        }
        todo := todo - {c};
      }
      childsToPotentialInstrumentCollection := map[];
    }

    /** Notes a newly instrumented node's callees that are not instrumented yet. */
    method CollectChildren(nti: NodeId)
      requires graph.Valid()
      modifies this`childsToPotentialInstrumentCollection
      ensures ParentNoted(graph.edges, marks.All(), nti, {}, old(childsToPotentialInstrumentCollection),
                          childsToPotentialInstrumentCollection)
    {
      hide Callgraph.Valid, ParentNoted;
      var todo := graph.GetCallees(nti);
      ghost var marked := marks.All();
      NothingNoted(graph.edges, marked, nti, todo, childsToPotentialInstrumentCollection);
      while todo != {}
        invariant forall c :: c in todo ==> (nti, c) in graph.edges
        invariant ParentNoted(graph.edges, marked, nti, todo, old(childsToPotentialInstrumentCollection),
                              childsToPotentialInstrumentCollection)
      {
        var c :| c in todo;
        NotedOneMore(graph.edges, marked, nti, todo, c, old(childsToPotentialInstrumentCollection),
                     childsToPotentialInstrumentCollection);
        if !marks.IsAnyInstrumented(c) {
          var parents := ListOf(childsToPotentialInstrumentCollection, c) + [nti];
          childsToPotentialInstrumentCollection := childsToPotentialInstrumentCollection[c := parents];
        }
        todo := todo - {c};
      }
    }

    method InstrumentSelection(childsToInstrument: seq<NodeId>)
      requires graph.Valid() && childsToPotentialInstrumentCollection == map[]
      modifies marks, this`childsToPotentialInstrumentCollection
      ensures forall n :: n in marks.All() <==> n in old(marks.All()) || n in childsToInstrument
      ensures forall n | n in childsToInstrument ::
                n in marks.state
                && marks.state[n] == if facts(n).hasBody || facts(n).isMPIFunction
                                        || (!options.onlyEligibleNodes && !options.useCSInstrumentation)
                                     then Instrumented else InstrumentedPath
      ensures forall n | n !in childsToInstrument ::
                (n in marks.state <==> n in old(marks.state))
                && (n in marks.state ==> marks.state[n] == old(marks.state)[n])
      ensures CallersNoted(graph.edges, old(marks.All()), childsToInstrument, |childsToInstrument|,
                           childsToPotentialInstrumentCollection)
    {
      hide Callgraph.Valid, CallersNoted, ParentNoted;
      ghost var marked := marks.All();
      NoCallersNoted(graph.edges, marked, childsToInstrument);
      for i := 0 to |childsToInstrument|
        invariant forall n :: n in marks.All() <==> n in marked || n in childsToInstrument[..i]
        invariant forall n | n in childsToInstrument[..i] ::
                    n in marks.state && marks.state[n] == if options.AsFunction(facts(n)) then Instrumented
                                                          else InstrumentedPath
        invariant forall n | n !in childsToInstrument[..i] ::
                    (n in marks.state <==> n in old(marks.state))
                    && (n in marks.state ==> marks.state[n] == old(marks.state)[n])
        invariant CallersNoted(graph.edges, marked, childsToInstrument, i, childsToPotentialInstrumentCollection)
      {
        var nti := childsToInstrument[i];
        assert childsToInstrument[..i + 1] == childsToInstrument[..i] + [nti];
        if options.AsFunction(facts(nti)) {
          marks.InstrumentNode(nti);
        } else {
          marks.InstrumentPathNode(nti);
        }
        ghost var before := childsToPotentialInstrumentCollection;
        CollectChildren(nti);
        NextCallerNoted(graph.edges, marked, marks.All(), childsToInstrument, i, before,
                        childsToPotentialInstrumentCollection);
      }
      assert childsToInstrument[..|childsToInstrument|] == childsToInstrument;
    }

    lemma EdgesAreLive()
      requires graph.Valid()
      ensures forall e :: e in graph.edges ==> Live(graph.nodes, e.0) && Live(graph.nodes, e.1)
    {
    }
 
    /** What holds between rounds: the selected nodes are new and paid for, the candidates are live
        and not instrumented, and no candidate gets lost. */
    ghost predicate Explored(nodes: Nodes, edges: Edges, before: set<NodeId>, selected: seq<NodeId>, start: set<NodeId>,
                             used: real, candidates: set<NodeId>, marked: set<NodeId>)
    {
      && Distinct(selected) && (forall n :: n in selected ==> n !in before)
      && (forall n :: n in marked <==> n in before || n in selected)
      && used == Total(Cost, selected)
      && (forall c :: c in candidates ==> Live(nodes, c) && c !in marked)
      && (forall c :: c in start ==> c in candidates || c in marked)
      && (forall n, c :: n in selected && (n, c) in edges && AlwaysPotential(c) ==> c in candidates || c in marked)
    }

    ghost predicate Exploring(before: set<NodeId>, selected: seq<NodeId>, start: set<NodeId>, used: real)
      reads this, graph, marks
    {
      && Valid() && childsToPotentialInstrumentCollection == map[]
      && Explored(graph.nodes, graph.edges, before, selected, start, used, childsToPotentialInstrument, marks.All())
    }

    lemma CandidatesWait(nodes: Nodes, edges: Edges, before: set<NodeId>, selected: seq<NodeId>, start: set<NodeId>,
                         used: real, candidates: set<NodeId>, marked: set<NodeId>)
      requires Explored(nodes, edges, before, selected, start, used, candidates, marked)
      ensures forall c: NodeId :: c in candidates ==> Live(nodes, c) && c !in marked
    {
    }

    lemma RoundKeeps(nodes: Nodes, edges: Edges, before: set<NodeId>, selected: seq<NodeId>, start: set<NodeId>,
                     used: real, candidates: set<NodeId>, marked: set<NodeId>, chosen: seq<NodeId>,
                     collected: map<NodeId, seq<NodeId>>, candidates': set<NodeId>, marked': set<NodeId>)
      requires Explored(nodes, edges, before, selected, start, used, candidates, marked)
      requires Distinct(chosen) && forall n :: n in chosen ==> n in candidates
      requires forall n :: n in marked' <==> n in marked || n in chosen
      requires forall c :: c in collected ==> c !in marked && Live(nodes, c)
      requires forall n, c :: n in chosen && (n, c) in edges ==> c in collected || c in marked'
      requires forall c :: c in candidates' <==>
                 c !in chosen && (c in candidates || (c in collected && Potential(c, collected[c])))
      ensures Explored(nodes, edges, before, selected + chosen, start, used + Total(Cost, chosen), candidates', marked')
    {
      hide Potential, Live, Total, Distinct;
      TotalOfBoth(Cost, selected, chosen);
      DistinctBoth(selected, chosen);
      assert forall n: NodeId :: n in selected + chosen <==> n in selected || n in chosen;
      forall c: NodeId | c in collected && AlwaysPotential(c)
        ensures Potential(c, collected[c])
      {
      }
      hide AlwaysPotential;
    }

    lemma DistinctBoth(s: seq<NodeId>, t: seq<NodeId>)
      requires Distinct(s) && Distinct(t) && forall n :: n in s ==> n !in t
      ensures Distinct(s + t)
    {
      forall i, j | 0 <= i < j < |s + t|
        ensures (s + t)[i] != (s + t)[j]
      {
        if i < |s| && j >= |s| {
          assert s[i] in s && t[j - |s|] in t;
        }
      }
    }

    /** Whoever the parents are. */
    ghost predicate AlwaysPotential(c: NodeId) {
      forall parents :: Potential(c, parents)
    }

    /** Instruments new nodes until no candidate is affordable any more. */
    method Explore(initialAvailableBudget: real) returns (usedBudget: real, ghost selected: seq<NodeId>)
      requires Valid() && childsToPotentialInstrumentCollection == map[]
      requires forall c :: c in childsToPotentialInstrument ==> Live(graph.nodes, c) && c !in marks.All()
      modifies marks, this`childsToPotentialInstrument, this`childsToPotentialInstrumentCollection
      ensures Exploring(old(marks.All()), selected, old(childsToPotentialInstrument), usedBudget)
      ensures usedBudget <= initialAvailableBudget || selected == []
      ensures usedBudget == Total(Cost, selected) && Distinct(selected)
      ensures forall n :: n in marks.All() <==> n in old(marks.All()) || n in selected
      ensures forall n :: n in selected ==> n !in old(marks.All())
      ensures forall c :: c in old(childsToPotentialInstrument) ==> c in childsToPotentialInstrument || c in marks.All()
      ensures 0.0 <= initialAvailableBudget ==>
                forall c :: c in childsToPotentialInstrument ==> Cost(c) >= initialAvailableBudget - usedBudget
    {
      usedBudget, selected := 0.0, [];
      var addedNewNodeToInstrumentation := true;
      ghost var before, candidates := marks.All(), childsToPotentialInstrument;
      while usedBudget <= initialAvailableBudget && addedNewNodeToInstrumentation
        invariant Exploring(before, selected, candidates, usedBudget)
        invariant usedBudget <= initialAvailableBudget || selected == []
        invariant !addedNewNodeToInstrumentation ==>
                    forall c :: c in childsToPotentialInstrument ==> Cost(c) >= initialAvailableBudget - usedBudget
        decreases (set n | n in order) - marks.All(), addedNewNodeToInstrumentation
      {
        ghost var chosen, taken;
        usedBudget, addedNewNodeToInstrumentation, selected, chosen, taken :=
          Round(initialAvailableBudget, usedBudget, before, selected, candidates);
      }
    }

    /** One round: selects, instruments, looks for new candidates, and drops the selected ones,
        among them those that came up as callees of others. */
    method Round(initialAvailableBudget: real, usedBudget: real, ghost before: set<NodeId>, ghost selected: seq<NodeId>,
                 ghost candidates: set<NodeId>)
      returns (usedBudget': real, added: bool, ghost selected': seq<NodeId>, ghost chosen: seq<NodeId>,
               ghost taken: seq<NodeId>)
      requires Exploring(before, selected, candidates, usedBudget) && usedBudget <= initialAvailableBudget
      modifies marks, this`childsToPotentialInstrument, this`childsToPotentialInstrumentCollection
      ensures Exploring(before, selected', candidates, usedBudget') && usedBudget' <= initialAvailableBudget
      ensures old(marks.All()) <= marks.All()
      ensures added ==> exists n :: n in order && n !in old(marks.All()) && n in marks.All()
      ensures !added ==>
                forall c :: c in childsToPotentialInstrument ==> Cost(c) >= initialAvailableBudget - usedBudget'
      ensures selected' == selected + chosen && usedBudget' == usedBudget + Total(Cost, chosen)
      ensures InProfitOrder(Cost, value, order, old(childsToPotentialInstrument), initialAvailableBudget - usedBudget,
                            taken, chosen)
    {
      hide Callgraph.Valid, Selection, Explored, Potential, Total, Greedy, Sorted, InProfitOrder,
        CallersNoted;
      var nodes := InOrder(order, childsToPotentialInstrument);
      InOrderContents(order, childsToPotentialInstrument);
      InOrderKeepsOrder(order, childsToPotentialInstrument);
      CandidatesWait(graph.nodes, graph.edges, before, selected, candidates, usedBudget, childsToPotentialInstrument,
                     marks.All());
      var limit := initialAvailableBudget - usedBudget;
      var childsToInstrument, cost := GetNodesToInstrumentGreedyKnapsackOverhead(Cost, value, nodes, limit);
      SelectionIsGood(Cost, value, nodes, limit);
      ChoiceFollowsOrder(Cost, value, order, childsToPotentialInstrument, nodes, limit);
      chosen, taken := childsToInstrument, Greedy(Cost, nodes, limit);
      HasMember(childsToInstrument);
      added := childsToInstrument != [];
      usedBudget' := usedBudget + cost;
      selected' := selected + childsToInstrument;
      InstrumentSelection(childsToInstrument);
      ghost var collected := childsToPotentialInstrumentCollection;
      NotedCallees(graph.edges, old(marks.All()), marks.All(), childsToInstrument, collected);
      EdgesAreLive();
      FilterEligible();
      childsToPotentialInstrument := childsToPotentialInstrument - set n | n in childsToInstrument;
      RoundKeeps(graph.nodes, graph.edges, before, selected, candidates, usedBudget, old(childsToPotentialInstrument),
                 old(marks.All()), childsToInstrument, collected, childsToPotentialInstrument, marks.All());
    }
  }
}
