/**
 Dominators when the start node is called again (graph/include/DominatorAnalysis.h).

 The loop folds the predecessors of the start node into its set like those of any other node.
 When a reachable node calls the start node, the result may be wrong, and the loop may never
 end.
 */
module RecursiveEntry {
  import opened Dominators
  import opened Optional
  import opened SharedCallers

  // ---------------------------------------------------------------- a loop that never ends

  /** 0 calls 1 and 2, 1 calls 0, and 2 calls 3, which calls 0. */
  const TWO_CYCLES := Graph(map[0 := [1, 2], 1 := [0], 2 := [3], 3 := [0]],
                            map[0 := [1, 3], 1 := [0], 2 := [0], 3 := [2]])

  /** The same graph, with the callees of 0 enumerated the other way round. */
  const OTHER_ORDER := Graph(map[0 := [2, 1], 1 := [0], 2 := [3], 3 := [0]],
                             map[0 := [1, 3], 1 := [0], 2 := [0], 3 := [2]])

  ghost predicate EitherOrder(g: Graph) {
    g == TWO_CYCLES || g == OTHER_ORDER
  }

  lemma TwoCyclesValid(g: Graph)
    requires EitherOrder(g)
    ensures g.Valid()
  {
    forall u, v | u in g.callees && v in g.callees[u]
      ensures v in g.callers && u in g.callers[v]
    {
      CallEdge(g, u, v);
    }
    forall u, v | v in g.callers && u in g.callers[v]
      ensures u in g.callees && v in g.callees[u]
    {
      CallEdge(g, u, v);
    }
  }

  lemma CallEdge(g: Graph, u: Node, v: Node)
    requires EitherOrder(g)
    ensures u in g.callees && v in g.callees[u] <==> (u, v) in [(0, 1), (0, 2), (1, 0), (2, 3), (3, 0)]
    ensures v in g.callers && u in g.callers[v]
            <==> (u, v) in [(0, 1), (0, 2), (1, 0), (2, 3), (3, 0)]
  {
  }

  ghost function Run(k: nat): State {
    RunOf(TWO_CYCLES, Forward, 0, k)
  }

  function Entries(a0: DomData, a1: DomData, a2: DomData, a3: DomData): DomMap {
    map[0 := a0, 1 := a1, 2 := a2, 3 := a3]
  }

  function Queued(a: DomData, n: Node): DomData {
    if a.node.None? then a.(node := Some(n)) else a
  }

  function Add(queue: seq<Node>, n: Node): seq<Node> {
    if n in queue then queue else queue + [n]
  }

  function Doms1(a: DomData): set<Node> {
    if a.initialized then a.doms else {}
  }

  function Doms2(a: DomData, b: DomData): set<Node> {
    if a.initialized && b.initialized then a.doms * b.doms else Doms1(a) + Doms1(b)
  }

  lemma OnePredecessor(m: DomMap, n: Node)
    requires n in m
    ensures Meet(Initialized(m, [n]), m) == Doms1(m[n])
  {
  }

  lemma TwoPredecessors(m: DomMap, n: Node, k: Node)
    requires n in m && k in m
    ensures Meet(Initialized(m, [n, k]), m) == Doms2(m[n], m[k])
  {
    assert [n, k][..1] == [n] && [n][..0] == [];
    assert Initialized(m, []) == [];
    if Init(m, n) && Init(m, k) {
      assert Initialized(m, [n, k]) == [n, k];
    }
  }

  lemma QueueOne(m: DomMap, queue: seq<Node>, n: Node)
    requires n in m
    ensures AddToQueue(State(m, queue), [n]) == State(m[n := Queued(m[n], n)], Add(queue, n))
  {
  }

  lemma QueueTwo(m: DomMap, queue: seq<Node>, n: Node, k: Node)
    requires n in m && k in m && n != k
    ensures AddToQueue(State(m, queue), [n, k])
         == State(m[n := Queued(m[n], n)][k := Queued(m[k], k)], Add(Add(queue, n), k))
  {
    assert [n, k][1..] == [k];
    QueueOne(m[n := Queued(m[n], n)], Add(queue, n), k);
  }

  lemma TouchKnown(m: DomMap, nodes: seq<Node>)
    requires forall n :: n in nodes ==> n in m
    ensures Touch(m, nodes) == m
  {
  }

  lemma UpdatedEntries(a0: DomData, a1: DomData, a2: DomData, a3: DomData, b: DomData)
    ensures var m := Entries(a0, a1, a2, a3);
            && m.Keys == {0, 1, 2, 3} && m[0] == a0 && m[1] == a1 && m[2] == a2 && m[3] == a3
            && m[0 := b] == Entries(b, a1, a2, a3) && m[1 := b] == Entries(a0, b, a2, a3)
            && m[2 := b] == Entries(a0, a1, b, a3) && m[3 := b] == Entries(a0, a1, a2, b)
  {
  }

  /** One iteration on a map with an entry for every node. */
  lemma StepKnown(g: Graph, m: DomMap, n: Node, rest: seq<Node>)
    requires EitherOrder(g) && m.Keys == {0, 1, 2, 3} && n in m
    ensures var doms := NewDoms(g, Forward, m, n);
            Step(g, Forward, State(m, [n] + rest))
            == if !m[n].initialized || m[n].doms != doms then
                 AddToQueue(State(m[n := m[n].(doms := doms, initialized := true)], rest), g.callees[n])
               else
                 State(m, rest)
  {
    hide NewDoms, AddToQueue, Touch;
    TouchKnown(m, g.callers[n]);
    assert ([n] + rest)[1..] == rest;
  }

  /** One iteration at each of the four nodes. */
  lemma At0(g: Graph, a0: DomData, a1: DomData, a2: DomData, a3: DomData, rest: seq<Node>)
    requires EitherOrder(g)
    ensures var doms := Doms2(a1, a3) + {0};
            Step(g, Forward, State(Entries(a0, a1, a2, a3), [0] + rest))
            == if !a0.initialized || a0.doms != doms then
                 State(Entries(a0.(doms := doms, initialized := true), Queued(a1, 1), Queued(a2, 2), a3),
                       if g == TWO_CYCLES then Add(Add(rest, 1), 2) else Add(Add(rest, 2), 1))
               else
                 State(Entries(a0, a1, a2, a3), rest)
  {
    hide Entries, Step, AddToQueue, Touch, Meet, Initialized, Queued, Add, Doms1, Doms2;
    var m, doms := Entries(a0, a1, a2, a3), Doms2(a1, a3) + {0};
    var b := a0.(doms := doms, initialized := true);
    UpdatedEntries(a0, a1, a2, a3, b);
    StepKnown(g, m, 0, rest);
    TwoPredecessors(m, 1, 3);
    QueueTwo(m[0 := b], rest, 1, 2);
    QueueTwo(m[0 := b], rest, 2, 1);
    UpdatedEntries(b, a1, a2, a3, Queued(a1, 1));
    UpdatedEntries(b, Queued(a1, 1), a2, a3, Queued(a2, 2));
    UpdatedEntries(b, a1, a2, a3, Queued(a2, 2));
    UpdatedEntries(b, a1, Queued(a2, 2), a3, Queued(a1, 1));
  }

  lemma At1(g: Graph, a0: DomData, a1: DomData, a2: DomData, a3: DomData, rest: seq<Node>)
    requires EitherOrder(g)
    ensures var doms := Doms1(a0) + {1};
            Step(g, Forward, State(Entries(a0, a1, a2, a3), [1] + rest))
            == if !a1.initialized || a1.doms != doms then
                 State(Entries(Queued(a0, 0), a1.(doms := doms, initialized := true), a2, a3), Add(rest, 0))
               else
                 State(Entries(a0, a1, a2, a3), rest)
  {
    hide Entries, Step, AddToQueue, Touch, Meet, Initialized, Queued, Add, Doms1, Doms2;
    var m, doms := Entries(a0, a1, a2, a3), Doms1(a0) + {1};
    var b := a1.(doms := doms, initialized := true);
    UpdatedEntries(a0, a1, a2, a3, b);
    StepKnown(g, m, 1, rest);
    OnePredecessor(m, 0);
    QueueOne(m[1 := b], rest, 0);
    UpdatedEntries(a0, b, a2, a3, Queued(a0, 0));
  }

  lemma At2(g: Graph, a0: DomData, a1: DomData, a2: DomData, a3: DomData, rest: seq<Node>)
    requires EitherOrder(g)
    ensures var doms := Doms1(a0) + {2};
            Step(g, Forward, State(Entries(a0, a1, a2, a3), [2] + rest))
            == if !a2.initialized || a2.doms != doms then
                 State(Entries(a0, a1, a2.(doms := doms, initialized := true), Queued(a3, 3)), Add(rest, 3))
               else
                 State(Entries(a0, a1, a2, a3), rest)
  {
    hide Entries, Step, AddToQueue, Touch, Meet, Initialized, Queued, Add, Doms1, Doms2;
    var m, doms := Entries(a0, a1, a2, a3), Doms1(a0) + {2};
    var b := a2.(doms := doms, initialized := true);
    UpdatedEntries(a0, a1, a2, a3, b);
    StepKnown(g, m, 2, rest);
    OnePredecessor(m, 0);
    QueueOne(m[2 := b], rest, 3);
    UpdatedEntries(a0, a1, b, a3, Queued(a3, 3));
  }

  lemma At3(g: Graph, a0: DomData, a1: DomData, a2: DomData, a3: DomData, rest: seq<Node>)
    requires EitherOrder(g)
    ensures var doms := Doms1(a2) + {3};
            Step(g, Forward, State(Entries(a0, a1, a2, a3), [3] + rest))
            == if !a3.initialized || a3.doms != doms then
                 State(Entries(Queued(a0, 0), a1, a2, a3.(doms := doms, initialized := true)), Add(rest, 0))
               else
                 State(Entries(a0, a1, a2, a3), rest)
  {
    hide Entries, Step, AddToQueue, Touch, Meet, Initialized, Queued, Add, Doms1, Doms2;
    var m, doms := Entries(a0, a1, a2, a3), Doms1(a2) + {3};
    var b := a3.(doms := doms, initialized := true);
    UpdatedEntries(a0, a1, a2, a3, b);
    StepKnown(g, m, 3, rest);
    OnePredecessor(m, 2);
    QueueOne(m[3 := b], rest, 0);
    UpdatedEntries(a0, a1, a2, b, Queued(a0, 0));
  }

  function Done(n: Node, doms: set<Node>): DomData {
    DomData(Some(n), doms, true)
  }

  /** All nodes initialised; only these sets ever change. */
  function Full(d0: set<Node>, d2: set<Node>, d3: set<Node>, queue: seq<Node>): State {
    State(Entries(Done(0, d0), Done(1, {0, 1}), Done(2, d2), Done(3, d3)), queue)
  }

  lemma Full0(d0: set<Node>, d2: set<Node>, d3: set<Node>, rest: seq<Node>)
    requires d0 != {0, 1} * d3 + {0}
    ensures Step(TWO_CYCLES, Forward, Full(d0, d2, d3, [0] + rest))
         == Full({0, 1} * d3 + {0}, d2, d3, Add(Add(rest, 1), 2))
  {
    At0(TWO_CYCLES, Done(0, d0), Done(1, {0, 1}), Done(2, d2), Done(3, d3), rest);
  }

  lemma Full1(d0: set<Node>, d2: set<Node>, d3: set<Node>, rest: seq<Node>)
    requires d0 + {1} == {0, 1}
    ensures Step(TWO_CYCLES, Forward, Full(d0, d2, d3, [1] + rest)) == Full(d0, d2, d3, rest)
  {
    At1(TWO_CYCLES, Done(0, d0), Done(1, {0, 1}), Done(2, d2), Done(3, d3), rest);
  }

  lemma Full2(d0: set<Node>, d2: set<Node>, d3: set<Node>, rest: seq<Node>)
    requires d2 != d0 + {2}
    ensures Step(TWO_CYCLES, Forward, Full(d0, d2, d3, [2] + rest)) == Full(d0, d0 + {2}, d3, Add(rest, 3))
  {
    At2(TWO_CYCLES, Done(0, d0), Done(1, {0, 1}), Done(2, d2), Done(3, d3), rest);
  }

  lemma Full3(d0: set<Node>, d2: set<Node>, d3: set<Node>, rest: seq<Node>)
    requires d3 != d2 + {3}
    ensures Step(TWO_CYCLES, Forward, Full(d0, d2, d3, [3] + rest)) == Full(d0, d2, d2 + {3}, Add(rest, 0))
  {
    At3(TWO_CYCLES, Done(0, d0), Done(1, {0, 1}), Done(2, d2), Done(3, d3), rest);
  }

  // The sets of nodes 0, 2 and 3, which alternate.
  function D0(even: bool): set<Node> { if even then {0, 1} else {0} }

  function D2(even: bool): set<Node> { if even then {0, 2} else {0, 1, 2} }

  function D3(even: bool): set<Node> { if even then {0, 2, 3} else {0, 1, 2, 3} }

  lemma Alternating(even: bool)
    ensures D0(even) + {1} == {0, 1} && D0(even) + {2} == D2(!even)
    ensures {0, 1} * D3(even) + {0} == D0(!even) && D2(!even) + {3} == D3(!even)
    ensures D0(even) != D0(!even) && D2(even) != D2(!even) && D3(even) != D3(!even)
  {
  }

  lemma Queues()
    ensures [1, 2, 0] == [1] + [2, 0] && [2, 0] == [2] + [0] && [0, 3] == [0] + [3] && [3, 1, 2] == [3] + [1, 2]
    ensures Add([0], 3) == [0, 3] && Add(Add([3], 1), 2) == [3, 1, 2] && Add([1, 2], 0) == [1, 2, 0]
    ensures Add([2], 0) == [2, 0]
  {
  }

  /** The state at the beginning of a round of four iterations. */
  function Turn(even: bool): State {
    Full(D0(even), D2(even), D3(even), [1, 2, 0])
  }

  lemma RunStep(k: nat, s: State, t: State)
    requires Run(k) == s && Continues(TWO_CYCLES, s) && Step(TWO_CYCLES, Forward, s) == t
    ensures Run(k + 1) == t && Continues(TWO_CYCLES, Run(k))
  {
  }

  lemma FullContinues(d0: set<Node>, d2: set<Node>, d3: set<Node>, queue: seq<Node>)
    requires queue != [] && queue[0] < 4
    ensures Continues(TWO_CYCLES, Full(d0, d2, d3, queue))
  {
  }

  /** In one round the start node gains node 1 or loses it, and the news travels round the
      longer cycle. */
  lemma Round(k: nat, even: bool)
    requires Run(k) == Turn(even)
    ensures Run(k + 4) == Turn(!even)
    ensures forall i :: k <= i < k + 4 ==> Continues(TWO_CYCLES, Run(i))
  {
    Alternating(even);
    Queues();
    hide Step, Full, D0, D2, D3, Run, Add, Continues;
    FullContinues(D0(even), D2(even), D3(even), [1, 2, 0]);
    Full1(D0(even), D2(even), D3(even), [2, 0]);
    RunStep(k, Turn(even), Full(D0(even), D2(even), D3(even), [2, 0]));
    FullContinues(D0(even), D2(even), D3(even), [2, 0]);
    Full2(D0(even), D2(even), D3(even), [0]);
    RunStep(k + 1, Full(D0(even), D2(even), D3(even), [2, 0]), Full(D0(even), D2(!even), D3(even), [0, 3]));
    FullContinues(D0(even), D2(!even), D3(even), [0, 3]);
    Full0(D0(even), D2(!even), D3(even), [3]);
    RunStep(k + 2, Full(D0(even), D2(!even), D3(even), [0, 3]), Full(D0(!even), D2(!even), D3(even), [3, 1, 2]));
    FullContinues(D0(!even), D2(!even), D3(even), [3, 1, 2]);
    Full3(D0(!even), D2(!even), D3(even), [1, 2]);
    RunStep(k + 3, Full(D0(!even), D2(!even), D3(even), [3, 1, 2]), Turn(!even));
  }

  /** At first only node 0 has an entry; looking up its callers adds two more. */
  lemma FirstLookup()
    ensures Touch(Start(0).domMap, [1, 3]) == map[0 := DomData(Some(0), {}, false), 1 := DEFAULT, 3 := DEFAULT]
    ensures NewDoms(TWO_CYCLES, Forward, Start(0).domMap, 0) == {0}
  {
  }

  lemma FirstQueue(m: DomMap)
    requires m == map[0 := Done(0, {0}), 1 := DEFAULT, 3 := DEFAULT]
    ensures AddToQueue(State(m, []), [1, 2]) == State(Entries(Done(0, {0}), Fresh(1), Fresh(2), DEFAULT), [1, 2])
  {
  }

  function Fresh(n: Node): DomData {
    DomData(Some(n), {}, false)
  }

  lemma FirstIteration()
    ensures Continues(TWO_CYCLES, Start(0))
    ensures Step(TWO_CYCLES, Forward, Start(0))
         == State(Entries(Done(0, {0}), Fresh(1), Fresh(2), DEFAULT), [1, 2])
  {
    FirstLookup();
    var touched: DomMap := map[0 := DomData(Some(0), {}, false), 1 := DEFAULT, 3 := DEFAULT];
    var m: DomMap := map[0 := Done(0, {0}), 1 := DEFAULT, 3 := DEFAULT];
    FirstQueue(m);
    hide AddToQueue, NewDoms, Touch, Entries;
    assert touched[0 := touched[0].(doms := {0}, initialized := true)] == m;
    assert [0][1..] == [];
  }

  // The four iterations after the first: nodes 1, 2, 0 and 3.
  lemma SecondIteration()
    ensures Continues(TWO_CYCLES, State(Entries(Done(0, {0}), Fresh(1), Fresh(2), DEFAULT), [1, 2]))
    ensures Step(TWO_CYCLES, Forward, State(Entries(Done(0, {0}), Fresh(1), Fresh(2), DEFAULT), [1, 2]))
         == State(Entries(Done(0, {0}), Done(1, {0, 1}), Fresh(2), DEFAULT), [2, 0])
  {
    assert [1] + [2] == [1, 2] && Add([2], 0) == [2, 0];
    hide Step;
    At1(TWO_CYCLES, Done(0, {0}), Fresh(1), Fresh(2), DEFAULT, [2]);
    assert {0} + {1} == {0, 1};
  }

  lemma ThirdIteration()
    ensures Continues(TWO_CYCLES, State(Entries(Done(0, {0}), Done(1, {0, 1}), Fresh(2), DEFAULT), [2, 0]))
    ensures Step(TWO_CYCLES, Forward, State(Entries(Done(0, {0}), Done(1, {0, 1}), Fresh(2), DEFAULT), [2, 0]))
         == State(Entries(Done(0, {0}), Done(1, {0, 1}), Done(2, {0, 2}), Fresh(3)), [0, 3])
  {
    assert [2] + [0] == [2, 0] && Add([0], 3) == [0, 3];
    hide Step;
    At2(TWO_CYCLES, Done(0, {0}), Done(1, {0, 1}), Fresh(2), DEFAULT, [0]);
    assert {0} + {2} == {0, 2};
  }

  lemma FourthIteration()
    ensures Continues(TWO_CYCLES, State(Entries(Done(0, {0}), Done(1, {0, 1}), Done(2, {0, 2}), Fresh(3)), [0, 3]))
    ensures Step(TWO_CYCLES, Forward, State(Entries(Done(0, {0}), Done(1, {0, 1}), Done(2, {0, 2}), Fresh(3)), [0, 3]))
         == State(Entries(Done(0, {0, 1}), Done(1, {0, 1}), Done(2, {0, 2}), Fresh(3)), [3, 1, 2])
  {
    assert [0] + [3] == [0, 3] && Add(Add([3], 1), 2) == [3, 1, 2];
    hide Step;
    At0(TWO_CYCLES, Done(0, {0}), Done(1, {0, 1}), Done(2, {0, 2}), Fresh(3), [3]);
    assert {0, 1} + {} + {0} == {0, 1};
    assert 1 in {0, 1} && 1 !in {0};
  }

  lemma FifthIteration()
    ensures var s := State(Entries(Done(0, {0, 1}), Done(1, {0, 1}), Done(2, {0, 2}), Fresh(3)), [3, 1, 2]);
            Continues(TWO_CYCLES, s) && Step(TWO_CYCLES, Forward, s) == Turn(true)
  {
    assert [3] + [1, 2] == [3, 1, 2] && Add([1, 2], 0) == [1, 2, 0];
    hide Step;
    At3(TWO_CYCLES, Done(0, {0, 1}), Done(1, {0, 1}), Done(2, {0, 2}), Fresh(3), [1, 2]);
    assert {0, 2} + {3} == {0, 2, 3};
  }

  lemma RunStarts()
    ensures Run(0) == Start(0)
  {
  }

  /** The first five iterations initialise all nodes. */
  lemma FirstIterations()
    ensures Run(5) == Turn(true) && forall k :: 0 <= k < 5 ==> Continues(TWO_CYCLES, Run(k))
  {
    hide Step, Add, Entries, Done, Fresh, Run, Turn;
    RunStarts();
    FirstIteration();
    RunStep(0, Run(0), Step(TWO_CYCLES, Forward, Run(0)));
    SecondIteration();
    RunStep(1, Run(1), Step(TWO_CYCLES, Forward, Run(1)));
    ThirdIteration();
    RunStep(2, Run(2), Step(TWO_CYCLES, Forward, Run(2)));
    FourthIteration();
    RunStep(3, Run(3), Step(TWO_CYCLES, Forward, Run(3)));
    FifthIteration();
    RunStep(4, Run(4), Step(TWO_CYCLES, Forward, Run(4)));
  }

  /** The run never ends: every eight iterations it is back where it was. */
  lemma {:induction false} NeverEnds(k: nat)
    ensures TWO_CYCLES.Valid() && Continues(TWO_CYCLES, RunOf(TWO_CYCLES, Forward, 0, k))
  {
    TwoCyclesValid(TWO_CYCLES);
    assert Run(k) == RunOf(TWO_CYCLES, Forward, 0, k);
    hide Run, RunOf, Continues, Turn, Graph.Valid;
    if k < 5 {
      FirstIterations();
    } else {
      var rounds := (k - 5) / 4;
      Rounds(rounds);
      Round(5 + 4 * rounds, rounds % 2 == 0);
    }
  }

  lemma {:induction false} Rounds(n: nat)
    ensures Run(5 + 4 * n) == Turn(n % 2 == 0)
  {
    hide Run, Continues, Turn;
    if n == 0 {
      FirstIterations();
    } else {
      Rounds(n - 1);
      Round(5 + 4 * (n - 1), (n - 1) % 2 == 0);
    }
  }

  // ---------------------------------------------------------------- the other order

  lemma OtherRunStarts()
    ensures RunOf(OTHER_ORDER, Forward, 0, 0) == Start(0)
  {
  }

  lemma OtherStep(k: nat, s: State, t: State)
    requires RunOf(OTHER_ORDER, Forward, 0, k) == s && Continues(OTHER_ORDER, s)
    requires Step(OTHER_ORDER, Forward, s) == t
    ensures RunOf(OTHER_ORDER, Forward, 0, k + 1) == t
  {
  }

  lemma OtherFirstQueue(m: DomMap)
    requires m == map[0 := Done(0, {0}), 1 := DEFAULT, 3 := DEFAULT]
    ensures AddToQueue(State(m, []), [2, 1]) == State(Entries(Done(0, {0}), Fresh(1), Fresh(2), DEFAULT), [2, 1])
  {
  }

  lemma OtherFirstIteration()
    ensures Continues(OTHER_ORDER, Start(0))
    ensures Step(OTHER_ORDER, Forward, Start(0))
         == State(Entries(Done(0, {0}), Fresh(1), Fresh(2), DEFAULT), [2, 1])
  {
    var touched: DomMap := map[0 := DomData(Some(0), {}, false), 1 := DEFAULT, 3 := DEFAULT];
    var m: DomMap := map[0 := Done(0, {0}), 1 := DEFAULT, 3 := DEFAULT];
    OtherFirstTouched();
    assert NewDoms(OTHER_ORDER, Forward, Start(0).domMap, 0) == {0};
    OtherFirstQueue(m);
    hide AddToQueue, NewDoms, Touch, Entries;
    assert touched[0 := touched[0].(doms := {0}, initialized := true)] == m;
    assert [0][1..] == [];
  }

  lemma OtherFirstTouched()
    ensures Touch(Start(0).domMap, [1, 3]) == map[0 := DomData(Some(0), {}, false), 1 := DEFAULT, 3 := DEFAULT]
  {
  }

  /** The five iterations are at nodes 0, 2, 1, 3 and 0. */
  lemma OtherIterations()
    ensures RunOf(OTHER_ORDER, Forward, 0, 5)
         == State(Entries(Done(0, {0}), Done(1, {0, 1}), Done(2, {0, 2}), Done(3, {0, 2, 3})), [])
  {
    hide Step, RunOf, Graph.Valid;
    var z, one, two, three := Done(0, {0}), Done(1, {0, 1}), Done(2, {0, 2}), Done(3, {0, 2, 3});
    var s1 := State(Entries(z, Fresh(1), Fresh(2), DEFAULT), [2, 1]);
    var s2 := State(Entries(z, Fresh(1), two, Fresh(3)), [1, 3]);
    var s3 := State(Entries(z, one, two, Fresh(3)), [3, 0]);
    var s4 := State(Entries(z, one, two, three), [0]);
    OtherRunStarts();
    OtherFirstIteration();
    OtherStep(0, Start(0), s1);
    assert [2, 1] == [2] + [1] && Add([1], 3) == [1, 3] && {0} + {2} == {0, 2};
    At2(OTHER_ORDER, z, Fresh(1), Fresh(2), DEFAULT, [1]);
    OtherStep(1, s1, s2);
    assert [1, 3] == [1] + [3] && Add([3], 0) == [3, 0] && {0} + {1} == {0, 1};
    At1(OTHER_ORDER, z, Fresh(1), two, Fresh(3), [3]);
    OtherStep(2, s2, s3);
    assert [3, 0] == [3] + [0] && Add([0], 0) == [0] && {0, 2} + {3} == {0, 2, 3};
    At3(OTHER_ORDER, z, one, two, Fresh(3), [0]);
    OtherStep(3, s3, s4);
    assert [0] == [0] + [] && {0, 1} * {0, 2, 3} + {0} == {0};
    At0(OTHER_ORDER, z, one, two, three, []);
    OtherStep(4, s4, State(s4.domMap, []));
  }

  /** The same calls, enumerated differently: the loop ends after five iterations, with exactly
      the dominators. */
  lemma EndsInOtherOrder()
    ensures OTHER_ORDER.Valid()
    ensures RunOf(OTHER_ORDER, Forward, 0, 5).queue == []
    ensures Exact(OTHER_ORDER, Forward, 0, RunOf(OTHER_ORDER, Forward, 0, 5).domMap)
  {
    TwoCyclesValid(OTHER_ORDER);
    OtherIterations();
    hide Inv, Exact, RunOf, Continues, Graph.Valid;
    RunKeepsInv(OTHER_ORDER, Forward, 0, 5);
    EndIsExact(OTHER_ORDER, Forward, 0, RunOf(OTHER_ORDER, Forward, 0, 5));
  }

  // ---------------------------------------------------------------- a loop that ends wrongly

  /** 0 and 1 call each other. */
  const ONE_CYCLE := Graph(map[0 := [1], 1 := [0]], map[0 := [1], 1 := [0]])

  function Both(a0: DomData, a1: DomData, queue: seq<Node>): State {
    State(map[0 := a0, 1 := a1], queue)
  }

  lemma UpdatedBoth(a0: DomData, a1: DomData, b: DomData, queue: seq<Node>)
    ensures var m := Both(a0, a1, queue).domMap;
            && m.Keys == {0, 1} && m[0] == a0 && m[1] == a1 && Both(a0, a1, queue) == State(m, queue)
            && State(m[0 := b], queue) == Both(b, a1, queue) && State(m[1 := b], queue) == Both(a0, b, queue)
  {
  }

  /** One iteration on a map with an entry for both nodes. */
  lemma StepOnCycle(m: DomMap, n: Node)
    requires m.Keys == {0, 1} && n in m
    ensures Continues(ONE_CYCLE, State(m, [n]))
    ensures var doms := Doms1(m[1 - n]) + {n};
            Step(ONE_CYCLE, Forward, State(m, [n]))
            == if !m[n].initialized || m[n].doms != doms then
                 AddToQueue(State(m[n := m[n].(doms := doms, initialized := true)], []), [1 - n])
               else
                 State(m, [])
  {
    hide AddToQueue, Touch, Meet, Initialized, Doms1;
    assert n == 0 || n == 1;
    TouchKnown(m, [1 - n]);
    OnePredecessor(m, 1 - n);
    assert [n][1..] == [];
  }

  lemma CycleAt0(a0: DomData, a1: DomData)
    ensures Continues(ONE_CYCLE, Both(a0, a1, [0]))
    ensures var doms := Doms1(a1) + {0};
            Step(ONE_CYCLE, Forward, Both(a0, a1, [0]))
            == if !a0.initialized || a0.doms != doms then
                 Both(a0.(doms := doms, initialized := true), Queued(a1, 1), [1])
               else
                 Both(a0, a1, [])
  {
    hide Both, Step, Continues, AddToQueue, Queued, Doms1;
    var m, b := Both(a0, a1, [0]).domMap, a0.(doms := Doms1(a1) + {0}, initialized := true);
    UpdatedBoth(a0, a1, b, [0]);
    UpdatedBoth(a0, a1, b, []);
    UpdatedBoth(b, a1, Queued(a1, 1), [1]);
    StepOnCycle(m, 0);
    QueueOne(m[0 := b], [], 1);
    assert Add([], 1) == [1];
    SameMaps(a0, a1, b);
  }

  lemma CycleAt1(a0: DomData, a1: DomData)
    ensures Continues(ONE_CYCLE, Both(a0, a1, [1]))
    ensures var doms := Doms1(a0) + {1};
            Step(ONE_CYCLE, Forward, Both(a0, a1, [1]))
            == if !a1.initialized || a1.doms != doms then
                 Both(Queued(a0, 0), a1.(doms := doms, initialized := true), [0])
               else
                 Both(a0, a1, [])
  {
    hide Both, Step, Continues, AddToQueue, Queued, Doms1;
    var m, b := Both(a0, a1, [1]).domMap, a1.(doms := Doms1(a0) + {1}, initialized := true);
    UpdatedBoth(a0, a1, b, [1]);
    UpdatedBoth(a0, a1, b, []);
    UpdatedBoth(a0, b, Queued(a0, 0), [0]);
    StepOnCycle(m, 1);
    QueueOne(m[1 := b], [], 0);
    assert Add([], 0) == [0];
    SameMaps(a0, a1, b);
  }

  /** The queue does not matter for the map. */
  lemma SameMaps(a0: DomData, a1: DomData, b: DomData)
    ensures forall q, r :: Both(a0, a1, q).domMap == Both(a0, a1, r).domMap
    ensures forall q, r :: Both(a0, a1, q).domMap[0 := b] == Both(b, a1, r).domMap
    ensures forall q, r :: Both(a0, a1, q).domMap[1 := b] == Both(a0, b, r).domMap
  {
  }

  lemma CycleQueue(m: DomMap)
    requires m == map[0 := Done(0, {0}), 1 := DEFAULT]
    ensures AddToQueue(State(m, []), [1]) == Both(Done(0, {0}), Fresh(1), [1])
  {
    QueueOne(m, [], 1);
    hide AddToQueue;
    assert Add([], 1) == [1] && Queued(DEFAULT, 1) == Fresh(1);
    assert m[1 := Fresh(1)] == map[0 := Done(0, {0}), 1 := Fresh(1)];
  }

  lemma CycleStart()
    ensures Continues(ONE_CYCLE, Start(0))
    ensures Step(ONE_CYCLE, Forward, Start(0)) == Both(Done(0, {0}), Fresh(1), [1])
  {
    var m: DomMap := map[0 := Done(0, {0}), 1 := DEFAULT];
    CycleLookup();
    CycleQueue(m);
    hide AddToQueue, NewDoms, Touch, Both, Fresh;
    CycleTouched();
    assert [0][1..] == [];
  }

  lemma CycleTouched()
    ensures var touched: DomMap := map[0 := DomData(Some(0), {}, false), 1 := DEFAULT];
            touched[0 := touched[0].(doms := {0}, initialized := true)] == map[0 := Done(0, {0}), 1 := DEFAULT]
  {
  }

  lemma CycleLookup()
    ensures Touch(Start(0).domMap, [1]) == map[0 := DomData(Some(0), {}, false), 1 := DEFAULT]
    ensures NewDoms(ONE_CYCLE, Forward, Start(0).domMap, 0) == {0}
  {
  }

  lemma CycleRun(k: nat, s: State, t: State)
    requires RunOf(ONE_CYCLE, Forward, 0, k) == s && Continues(ONE_CYCLE, s) && Step(ONE_CYCLE, Forward, s) == t
    ensures RunOf(ONE_CYCLE, Forward, 0, k + 1) == t
  {
  }

  lemma CycleRunStarts()
    ensures RunOf(ONE_CYCLE, Forward, 0, 0) == Start(0)
  {
  }

  lemma CycleIterations()
    ensures RunOf(ONE_CYCLE, Forward, 0, 4) == Both(Done(0, {0, 1}), Done(1, {0, 1}), [])
  {
    assert {0} + {1} == {0, 1} && {0, 1} + {0} == {0, 1} && {0, 1} + {1} == {0, 1};
    assert 1 in {0, 1} && 1 !in {0};
    hide Step, RunOf, Continues, Both;
    var zero, zeroOne, one := Done(0, {0}), Done(0, {0, 1}), Done(1, {0, 1});
    CycleRunStarts();
    CycleStart();
    CycleRun(0, Start(0), Both(zero, Fresh(1), [1]));
    CycleAt1(zero, Fresh(1));
    CycleRun(1, Both(zero, Fresh(1), [1]), Both(zero, one, [0]));
    CycleAt0(zero, one);
    CycleRun(2, Both(zero, one, [0]), Both(zeroOne, one, [1]));
    CycleAt1(zeroOne, one);
    CycleRun(3, Both(zeroOne, one, [1]), Both(zeroOne, one, []));
  }

  lemma CycleEdges()
    ensures ONE_CYCLE.Valid()
    ensures forall u, v :: ONE_CYCLE.Edge(Forward, u, v) <==> (u == 0 && v == 1) || (u == 1 && v == 0)
  {
  }

  lemma CycleIsShared()
    ensures SharedBy(ONE_CYCLE, Forward, 0, 1)
  {
    var g := ONE_CYCLE;
    CycleEdges();
    hide Graph.Edge, Graph.Edges, Graph.Valid, Reachable;
    StartPath(g, Forward, 0);
    ReachableStep(g, Forward, 0, 0, 1);
    forall p | IsPath(g, Forward, 0, p, 1)
      ensures 1 in p
    {
      assert p[|p| - 1] == 1;
    }
  }

  /** The loop ends after four iterations, and reports 1 as a dominator of the start node: 1 is
      its only caller. */
  lemma EndsWrongly()
    ensures ONE_CYCLE.Valid() && SharedBy(ONE_CYCLE, Forward, 0, 1)
    ensures RunOf(ONE_CYCLE, Forward, 0, 4).queue == []
    ensures DomsOf(RunOf(ONE_CYCLE, Forward, 0, 4).domMap, 0) == {0, 1}
    ensures !Exact(ONE_CYCLE, Forward, 0, RunOf(ONE_CYCLE, Forward, 0, 4).domMap)
  {
    CycleIterations();
    CycleEdges();
    CycleIsShared();
    hide RunOf, Graph.Edge, Graph.Valid, SharedBy, Exact;
    EveryRun(ONE_CYCLE, Forward, 0, 4);
  }
}
