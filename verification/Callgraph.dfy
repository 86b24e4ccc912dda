/**
 The call graph (graph/src/Callgraph.cpp, graph/include/metacg/Callgraph.h).

 The class keeps one graph five times over: a node list with erased slots, ids by name, the
 edge set, and a caller and a callee list per node.  Every operation has to update all of them.
 */
module CallgraphModel {
  import opened Lists
  import opened Optional

  type NodeId = nat

  type Edges = set<(NodeId, NodeId)>

  datatype CgNode = CgNode(id: NodeId, functionName: string, origin: Option<string>, hasBody: bool)

  type Nodes = seq<Option<CgNode>>

  /** Looking an id up: the position just behind the last one raises an exception. */
  datatype Lookup = Found(node: CgNode) | Null | OutOfRange

  datatype Added = Inserted | Rejected | Thrown

  // ---------------------------------------------------------------- what the fields stand for

  predicate Live(nodes: Nodes, id: NodeId) {
    id < |nodes| && nodes[id].Some?
  }

  function ListOf(m: map<NodeId, seq<NodeId>>, id: NodeId): seq<NodeId> {
    if id in m then m[id] else []
  }

  function NameList(m: map<string, seq<NodeId>>, name: string): seq<NodeId> {
    if name in m then m[name] else []
  }

  lemma ListOfUpdated(m: map<NodeId, seq<NodeId>>, k: NodeId, s: seq<NodeId>)
    ensures forall j: NodeId :: ListOf(m[k := s], j) == if j == k then s else ListOf(m, j)
  {
    var updated := m[k := s];
    forall j: NodeId
      ensures ListOf(updated, j) == if j == k then s else ListOf(m, j)
    {
      assert j in updated <==> j == k || j in m;
    }
  }

  lemma ListOfRemoved(m: map<NodeId, seq<NodeId>>, k: NodeId)
    ensures forall j: NodeId :: ListOf(m - {k}, j) == if j == k then [] else ListOf(m, j)
  {
  }

  /** The ids of the live nodes of a name, oldest first. */
  function IdsOf(nodes: Nodes, name: string): seq<NodeId> {
    if nodes == [] then []
    else
      var last := |nodes| - 1;
      var ids := IdsOf(nodes[..last], name);
      if nodes[last].Some? && nodes[last].value.functionName == name then ids + [last] else ids
  }

  /** The number of erased slots. */
  function Erased(nodes: Nodes): nat {
    if nodes == [] then 0
    else Erased(nodes[..|nodes| - 1]) + if nodes[|nodes| - 1].None? then 1 else 0
  }

  ghost predicate Increasing(s: seq<NodeId>) {
    forall i, j :: 0 <= i < j < |s| ==> s[i] < s[j]
  }

  lemma IncreasingAppended(s: seq<NodeId>, x: NodeId)
    requires Increasing(s) && forall y :: y in s ==> y < x
    ensures Increasing(s + [x])
  {
    forall i, j | 0 <= i < j < |s + [x]|
      ensures (s + [x])[i] < (s + [x])[j]
    {
      if j == |s| {
        assert s[i] in s;
      }
    }
  }

  lemma {:induction false} IdsOfMembers(nodes: Nodes, name: string, id: NodeId)
    ensures id in IdsOf(nodes, name) <==> Live(nodes, id) && nodes[id].value.functionName == name
  {
    if nodes != [] {
      IdsOfMembers(nodes[..|nodes| - 1], name, id);
    }
  }

  lemma {:induction false} IdsOfIncreasing(nodes: Nodes, name: string)
    ensures Increasing(IdsOf(nodes, name))
  {
    hide Increasing;
    if nodes != [] {
      var init := nodes[..|nodes| - 1];
      IdsOfIncreasing(init, name);
      forall id | id in IdsOf(init, name)
        ensures id < |init|
      {
        IdsOfMembers(init, name, id);
      }
      IncreasingAppended(IdsOf(init, name), |init|);
    } else {
      NothingIncreases();
    }
  }

  lemma NothingIncreases()
    ensures Increasing([])
  {
  }

  lemma IdsOfContents(nodes: Nodes, name: string)
    ensures Distinct(IdsOf(nodes, name))
    ensures forall id: NodeId :: id in IdsOf(nodes, name) <==> Live(nodes, id) && nodes[id].value.functionName == name
    ensures forall i, j :: 0 <= i < j < |IdsOf(nodes, name)| ==> IdsOf(nodes, name)[i] < IdsOf(nodes, name)[j]
  {
    hide IdsOf;
    IdsOfIncreasing(nodes, name);
    forall id: NodeId
      ensures id in IdsOf(nodes, name) <==> Live(nodes, id) && nodes[id].value.functionName == name
    {
      IdsOfMembers(nodes, name, id);
    }
  }

  /** What the last slot contributes. */
  lemma IdsOfLast(nodes: Nodes, name: string)
    requires nodes != []
    ensures var init, last := nodes[..|nodes| - 1], |nodes| - 1;
            IdsOf(nodes, name)
            == if nodes[last].Some? && nodes[last].value.functionName == name then IdsOf(init, name) + [last]
               else IdsOf(init, name)
  {
  }

  /** Erasing a slot erases its id from the list of its name, and from no other list. */
  lemma {:induction false} IdsOfErased(nodes: Nodes, id: NodeId, name: string)
    requires Live(nodes, id)
    ensures IdsOf(nodes[id := None], name)
         == if nodes[id].value.functionName == name then Erase(IdsOf(nodes, name), id) else IdsOf(nodes, name)
  {
    hide IdsOf, Erase;
    var last := |nodes| - 1;
    var init, less := nodes[..last], nodes[id := None];
    IdsOfLast(nodes, name);
    IdsOfLast(less, name);
    if id == last {
      assert less[..last] == init;
      IdBehind(init, name);
      EraseLast(IdsOf(init, name), id);
    } else {
      assert less[..last] == init[id := None];
      IdsOfErased(init, id, name);
      if nodes[last].Some? && nodes[last].value.functionName == name && init[id].value.functionName == name {
        IdListed(init, name, id);
        EraseFront(IdsOf(init, name), id, last);
      }
    }
  }

  lemma {:induction false} OneMoreErased(nodes: Nodes, id: NodeId)
    requires Live(nodes, id)
    ensures Erased(nodes[id := None]) == Erased(nodes) + 1
  {
    var last := |nodes| - 1;
    if id == last {
      assert nodes[id := None][..last] == nodes[..last];
    } else {
      assert nodes[id := None][..last] == nodes[..last][id := None];
      OneMoreErased(nodes[..last], id);
    }
  }

  lemma IdBehind(nodes: Nodes, name: string)
    ensures |nodes| !in IdsOf(nodes, name)
  {
    IdsOfContents(nodes, name);
  }

  lemma IdListed(nodes: Nodes, name: string, id: NodeId)
    requires Live(nodes, id) && nodes[id].value.functionName == name
    ensures id in IdsOf(nodes, name)
  {
  }

  lemma {:induction false} EraseLast(s: seq<NodeId>, x: NodeId)
    requires x !in s
    ensures Erase(s + [x], x) == s && Erase(s, x) == s
  {
    if s != [] {
      EraseLast(s[1..], x);
      assert (s + [x])[1..] == s[1..] + [x];
    }
  }

  lemma {:induction false} EraseFront(s: seq<NodeId>, x: NodeId, y: NodeId)
    requires x in s
    ensures Erase(s + [y], x) == Erase(s, x) + [y]
  {
    if s[0] != x {
      EraseFront(s[1..], x, y);
      assert (s + [y])[1..] == s[1..] + [y];
    } else {
      assert (s + [y])[1..] == s[1..] + [y];
    }
  }

  /** Changing a node but not its name changes no list of ids. */
  lemma {:induction false} IdsOfUpdated(nodes: Nodes, id: NodeId, node: CgNode, name: string)
    requires Live(nodes, id) && nodes[id].value.functionName == node.functionName
    ensures IdsOf(nodes[id := Some(node)], name) == IdsOf(nodes, name)
    ensures Erased(nodes[id := Some(node)]) == Erased(nodes)
  {
    var last := |nodes| - 1;
    var more := nodes[id := Some(node)];
    if id == last {
      assert more[..last] == nodes[..last];
    } else {
      assert more[..last] == nodes[..last][id := Some(node)];
      IdsOfUpdated(nodes[..last], id, node, name);
    }
  }

  ghost predicate DistinctLists(m: map<NodeId, seq<NodeId>>) {
    forall id: NodeId :: Distinct(ListOf(m, id))
  }

  lemma DistinctUpdated(m: map<NodeId, seq<NodeId>>, k: NodeId, s: seq<NodeId>)
    requires DistinctLists(m) && Distinct(s)
    ensures DistinctLists(m[k := s]) && DistinctLists(m - {k})
  {
    ListOfUpdated(m, k, s);
    ListOfRemoved(m, k);
    var updated, removed := m[k := s], m - {k};
    forall id: NodeId
      ensures Distinct(ListOf(updated, id))
    {
      assert Distinct(ListOf(m, id));
    }
    forall id: NodeId
      ensures Distinct(ListOf(removed, id))
    {
      assert Distinct(ListOf(m, id));
    }
  }

  /** A callee list lists exactly the edges, without duplicates. */
  ghost predicate CalleesIndexed(edges: Edges, callees: map<NodeId, seq<NodeId>>) {
    && (forall u: NodeId, v: NodeId :: v in ListOf(callees, u) <==> (u, v) in edges)
    && DistinctLists(callees)
  }

  ghost predicate CallersIndexed(edges: Edges, callers: map<NodeId, seq<NodeId>>) {
    && (forall u: NodeId, v: NodeId :: u in ListOf(callers, v) <==> (u, v) in edges)
    && DistinctLists(callers)
  }

  ghost predicate Indexed(edges: Edges, callees: map<NodeId, seq<NodeId>>, callers: map<NodeId, seq<NodeId>>) {
    CalleesIndexed(edges, callees) && CallersIndexed(edges, callers)
  }

  ghost predicate NamesIndexed(nodes: Nodes, nameIdMap: map<string, seq<NodeId>>) {
    forall name :: NameList(nameIdMap, name) == IdsOf(nodes, name)
  }

  ghost predicate NoneErased(nodes: Nodes) {
    forall i :: 0 <= i < |nodes| ==> nodes[i].Some?
  }

  ghost predicate NameUnique(nodes: Nodes) {
    forall name :: |IdsOf(nodes, name)| <= 1
  }

  ghost predicate BetweenLive(nodes: Nodes, edges: Edges) {
    forall e :: e in edges ==> Live(nodes, e.0) && Live(nodes, e.1)
  }

  function EdgesWithout(edges: Edges, id: NodeId): Edges {
    set e | e in edges && e.0 != id && e.1 != id
  }

  ghost predicate DuplicatesNoted(nodes: Nodes, hasDuplicates: bool) {
    forall name :: |IdsOf(nodes, name)| > 1 ==> hasDuplicates
  }

  class Callgraph {
    var nodes: Nodes
    var nameIdMap: map<string, seq<NodeId>>
    var edges: Edges
    var callerList: map<NodeId, seq<NodeId>>
    var calleeList: map<NodeId, seq<NodeId>>
    var mainNode: Option<NodeId>
    var hasDuplicates: bool
    var numErased: nat

    ghost predicate Valid()
      reads this
    {
      && (forall i :: 0 <= i < |nodes| && nodes[i].Some? ==>
            nodes[i].value.id == i && nodes[i].value.functionName != "")
      && (forall u, v :: (u, v) in edges ==> Live(nodes, u) && Live(nodes, v))
      && Indexed(edges, calleeList, callerList)
      && NamesIndexed(nodes, nameIdMap)
      && numErased == Erased(nodes)
      && (mainNode.Some? ==> Live(nodes, mainNode.value))
      && DuplicatesNoted(nodes, hasDuplicates)
    }

    constructor ()
      ensures Valid() && nodes == [] && edges == {}
    {
      nodes, nameIdMap, edges, callerList, calleeList := [], map[], {}, map[], map[];
      mainNode, hasDuplicates, numErased := None, false, 0;
    }

    // -------------------------------------------------------------- queries

    predicate HasNode(id: NodeId)
      reads this
      ensures HasNode(id) <==> Live(nodes, id)
    {
      id < |nodes| && nodes[id].Some?
    }

    function GetNode(id: NodeId): (r: Lookup)
      reads this
      ensures r.Found? <==> Live(nodes, id)
      ensures r.Found? ==> nodes[id] == Some(r.node)
      ensures r.OutOfRange? <==> id == |nodes|
    {
      if id > |nodes| then Null
      else if id == |nodes| then OutOfRange
      else if nodes[id].Some? then Found(nodes[id].value) else Null
    }

    function GetFirstNode(name: string): (r: Option<NodeId>)
      requires Valid()
      reads this
      ensures r == if IdsOf(nodes, name) == [] then None else Some(IdsOf(nodes, name)[0])
      ensures r.Some? ==> Live(nodes, r.value) && nodes[r.value].value.functionName == name
      ensures forall id: NodeId :: Live(nodes, id) && nodes[id].value.functionName == name ==> r.Some? && r.value <= id
    {
      IdsOfContents(nodes, name);
      if NameList(nameIdMap, name) == [] then None else Some(NameList(nameIdMap, name)[0])
    }

    /** The nodes not erased. */
    function GetNodeCount(): (n: nat)
      requires Valid()
      reads this
      ensures n == |set i | 0 <= i < |nodes| && nodes[i].Some?|
    {
      LiveCount(nodes);
      |nodes| - numErased
    }

    function GetCallees(id: NodeId): (r: set<NodeId>)
      requires Valid()
      reads this
      ensures forall v :: v in r <==> (id, v) in edges
    {
      set v | v in ListOf(calleeList, id)
    }

    function GetCallers(id: NodeId): (r: set<NodeId>)
      requires Valid()
      reads this
      ensures forall u :: u in r <==> (u, id) in edges
    {
      set u | u in ListOf(callerList, id)
    }

    predicate ExistsEdge(source: NodeId, target: NodeId)
      reads this
    {
      (source, target) in edges
    }

    /** What a search without recomputation answers. */
    function MainOrNone(): Option<NodeId>
      reads this
    {
      if mainNode.Some? then mainNode else FirstOf(nodes, ["main", "_Z4main", "_ZSt4mainiPPc", "_QQmain"])
    }

    /** The cached entry function, or the first node with one of the names it may have. */
    method GetMain(forceRecompute: bool) returns (r: Option<NodeId>)
      requires Valid()
      modifies this`mainNode
      ensures Valid() && r == mainNode
      ensures old(mainNode).Some? && !forceRecompute ==> r == old(mainNode)
      ensures forceRecompute || old(mainNode).None? ==>
                r == FirstOf(nodes, ["main", "_Z4main", "_ZSt4mainiPPc", "_QQmain"])
    {
      if forceRecompute {
        mainNode := None;
      } else if mainNode.Some? {
        return mainNode;
      }
      var names := ["main", "_Z4main", "_ZSt4mainiPPc", "_QQmain"];
      hide Indexed, Erased, IdsOf, NamesIndexed, DuplicatesNoted, NameList;
      for i := 0 to |names|
        invariant Valid() && mainNode == None
        invariant FirstOf(nodes, names[i..]) == FirstOf(nodes, names)
      {
        assert names[i..][1..] == names[i + 1..];
        mainNode := GetFirstNode(names[i]);
        if mainNode.Some? {
          return mainNode;
        }
      }
      r := mainNode;
    }

    // -------------------------------------------------------------- nodes

    method Insert(function_: string, origin: Option<string>, hasBody: bool) returns (id: NodeId)
      requires Valid() && function_ != ""
      modifies this`nodes, this`nameIdMap, this`hasDuplicates
      ensures Valid() && id == old(|nodes|)
      ensures nodes == old(nodes) + [Some(CgNode(id, function_, origin, hasBody))]
      ensures hasDuplicates == (old(hasDuplicates) || IdsOf(old(nodes), function_) != [])
    {
      hide Indexed, IdsOf, Erased;
      id := |nodes|;
      nodes := nodes + [Some(CgNode(id, function_, origin, hasBody))];
      var nodesWithName := NameList(nameIdMap, function_);
      if nodesWithName != [] {
        hasDuplicates := true;
      }
      nameIdMap := nameIdMap[function_ := nodesWithName + [id]];
      NodeAppended(old(nodes), nodes, old(nameIdMap), nameIdMap);
    }

    method GetOrInsertNode(function_: string, origin: Option<string>, hasBody: bool) returns (id: NodeId)
      requires Valid() && function_ != ""
      modifies this`nodes, this`nameIdMap, this`hasDuplicates
      ensures Valid() && IdsOf(nodes, function_) != [] && id == IdsOf(nodes, function_)[0]
      ensures IdsOf(old(nodes), function_) != [] ==> nodes == old(nodes)
      ensures IdsOf(old(nodes), function_) == [] ==>
                nodes == old(nodes) + [Some(CgNode(id, function_, origin, hasBody))]
    {
      var node := GetFirstNode(function_);
      if node.Some? {
        return node.value;
      }
      id := Insert(function_, origin, hasBody);
      assert nodes[..|nodes| - 1] == old(nodes);
    }

    // -------------------------------------------------------------- edges

    method AddEdgeInternal(caller: NodeId, callee: NodeId) returns (added: bool)
      requires Valid() && Live(nodes, caller) && Live(nodes, callee)
      modifies this`edges, this`calleeList, this`callerList
      ensures Valid() && added == ((caller, callee) !in old(edges))
      ensures edges == old(edges) + {(caller, callee)}
    {
      hide IdsOf, Erased, Indexed, ListOf, NamesIndexed;
      if (caller, callee) in edges {
        return false;
      }
      EdgeAppended(edges, calleeList, callerList, caller, callee);
      calleeList := calleeList[caller := ListOf(calleeList, caller) + [callee]];
      callerList := callerList[callee := ListOf(callerList, callee) + [caller]];
      edges := edges + {(caller, callee)};
      added := true;
    }

    method AddEdge(parentID: NodeId, childID: NodeId) returns (r: Added)
      requires Valid()
      modifies this`edges, this`calleeList, this`callerList
      ensures Valid()
      ensures r == Inserted <==> Live(nodes, parentID) && Live(nodes, childID) && (parentID, childID) !in old(edges)
      ensures r == Thrown <==> parentID == |nodes| || (Live(nodes, parentID) && childID == |nodes|)
      ensures edges == if r == Inserted then old(edges) + {(parentID, childID)} else old(edges)
    {
      match GetNode(parentID)
      case OutOfRange => r := Thrown;
      case Null => r := Rejected;
      case Found(_) =>
        match GetNode(childID)
        case OutOfRange => r := Thrown;
        case Null => r := Rejected;
        case Found(_) =>
          var added := AddEdgeInternal(parentID, childID);
          r := if added then Inserted else Rejected;
    }

    /** By name: only if each name has exactly one node. */
    method AddEdgeByName(callerName: string, calleeName: string) returns (r: Added)
      requires Valid()
      modifies this`edges, this`calleeList, this`callerList
      ensures Valid()
      ensures r == Inserted <==> |IdsOf(nodes, callerName)| == 1 && |IdsOf(nodes, calleeName)| == 1
                                 && (IdsOf(nodes, callerName)[0], IdsOf(nodes, calleeName)[0]) !in old(edges)
      ensures r == Inserted ==> edges == old(edges) + {(IdsOf(nodes, callerName)[0], IdsOf(nodes, calleeName)[0])}
      ensures r != Inserted ==> edges == old(edges)
    {
      IdsOfContents(nodes, callerName);
      IdsOfContents(nodes, calleeName);
      var callers, callees := NameList(nameIdMap, callerName), NameList(nameIdMap, calleeName);
      if |callers| != 1 || |callees| != 1 {
        return Rejected;
      }
      assert callers[0] in callers && callees[0] in callees;
      r := AddEdge(callers[0], callees[0]);
    }

    method RemoveEdge(parentID: NodeId, childID: NodeId) returns (existed: bool)
      requires Valid()
      modifies this`edges, this`calleeList, this`callerList
      ensures Valid() && existed == ((parentID, childID) in old(edges))
      ensures edges == old(edges) - {(parentID, childID)}
    {
      hide IdsOf, Erased, CalleesIndexed, CallersIndexed;
      existed := (parentID, childID) in edges;
      if existed {
        CalleeErased(edges, calleeList, parentID, childID);
        CallerErased(edges, callerList, parentID, childID);
        edges := edges - {(parentID, childID)};
        calleeList := calleeList[parentID := Erase(calleeList[parentID], childID)];
        callerList := callerList[childID := Erase(callerList[childID], parentID)];
      }
    }

    /** Erases a node with all its edges.  The callee list goes first and takes a self-loop with
        it, so that the caller list no longer names the node whose callee list is gone. */
    method EraseNode(id: NodeId) returns (erased: bool)
      requires Valid()
      modifies this
      ensures Valid() && erased == Live(old(nodes), id)
      ensures !erased ==> nodes == old(nodes) && edges == old(edges)
      ensures erased ==> nodes == old(nodes)[id := None]
                         && edges == EdgesWithout(old(edges), id)
      ensures erased ==> forall u, v :: (u, v) in edges <==> (u, v) in old(edges) && u != id && v != id
      ensures mainNode == if erased && old(mainNode) == Some(id) then None else old(mainNode)
      ensures hasDuplicates == old(hasDuplicates)
    {
      hide Indexed, ListOf, NameList, NamesIndexed, IdsOf, Erased, DuplicatesNoted;
      erased := HasNode(id);
      if erased {
        EraseEdges(id);
        if mainNode == Some(id) {
          mainNode := None;
        }
        EraseSlot(id);
      }
    }

    method EraseEdges(id: NodeId)
      requires Indexed(edges, calleeList, callerList)
      modifies this`edges, this`calleeList, this`callerList
      ensures Indexed(edges, calleeList, callerList)
      ensures edges == EdgesWithout(old(edges), id)
      ensures forall u, v :: (u, v) in edges <==> (u, v) in old(edges) && u != id && v != id
    {
      hide Indexed, ListOf;
      EraseOutgoing(id);
      EraseIncoming(id);
    }

    /** Destroys the node itself. */
    method EraseSlot(id: NodeId)
      requires Live(nodes, id) && NamesIndexed(nodes, nameIdMap) && numErased == Erased(nodes)
      requires DuplicatesNoted(nodes, hasDuplicates)
      modifies this`nodes, this`nameIdMap, this`numErased
      ensures nodes == old(nodes)[id := None]
      ensures NamesIndexed(nodes, nameIdMap) && numErased == Erased(nodes) && DuplicatesNoted(nodes, hasDuplicates)
    {
      hide NameList, NamesIndexed, IdsOf, Erased, DuplicatesNoted;
      var name := nodes[id].value.functionName;
      NodeErased(nodes, id, nameIdMap);
      ManyNames(nodes, id, hasDuplicates);
      nameIdMap := nameIdMap[name := Erase(NameList(nameIdMap, name), id)];
      nodes := nodes[id := None];
      numErased := numErased + 1;
    }

    /** Takes the node's callee list away, and the node out of the caller lists of its callees. */
    method EraseOutgoing(id: NodeId)
      requires Indexed(edges, calleeList, callerList)
      modifies this`edges, this`calleeList, this`callerList
      ensures Indexed(edges, calleeList, callerList) && id !in calleeList
      ensures edges == set e | e in old(edges) && e.0 != id
    {
      hide CallersIndexed, CalleesIndexed;
      var callees := ListOf(calleeList, id);
      CalleesListed(edges, calleeList, id);
      assert callees[..0] == [];
      for i := 0 to |callees|
        invariant calleeList == old(calleeList)
        invariant edges == set e | e in old(edges) && !(e.0 == id && e.1 in callees[..i])
        invariant CallersIndexed(edges, callerList)
      {
        var callee := callees[i];
        assert callees[..i + 1] == callees[..i] + [callee];
        CallerErased(edges, callerList, id, callee);
        edges := edges - {(id, callee)};
        callerList := callerList[callee := Erase(callerList[callee], id)];
      }
      assert callees[..|callees|] == callees;
      CalleesForgotten(old(edges), calleeList, id);
      calleeList := calleeList - {id};
      assert edges == set e | e in old(edges) && e.0 != id;
    }

    /** Takes the node's caller list away, and the node out of the callee lists of its callers. */
    method EraseIncoming(id: NodeId)
      requires Indexed(edges, calleeList, callerList)
      modifies this`edges, this`calleeList, this`callerList
      ensures Indexed(edges, calleeList, callerList)
      ensures edges == set e | e in old(edges) && e.1 != id
    {
      hide CallersIndexed, CalleesIndexed;
      var callers := ListOf(callerList, id);
      CallersListed(edges, callerList, id);
      assert callers[..0] == [];
      for i := 0 to |callers|
        invariant callerList == old(callerList)
        invariant edges == set e | e in old(edges) && !(e.1 == id && e.0 in callers[..i])
        invariant CalleesIndexed(edges, calleeList)
      {
        var caller := callers[i];
        assert callers[..i + 1] == callers[..i] + [caller];
        CalleeErased(edges, calleeList, caller, id);
        edges := edges - {(caller, id)};
        calleeList := calleeList[caller := Erase(calleeList[caller], id)];
      }
      assert callers[..|callers|] == callers;
      CallersForgotten(old(edges), callerList, id);
      callerList := callerList - {id};
      assert edges == set e | e in old(edges) && e.1 != id;
    }

    method Clear()
      modifies this
      ensures Valid() && nodes == [] && edges == {} && !hasDuplicates
    {
      nodes, nameIdMap, edges, callerList, calleeList := [], map[], {}, map[], map[];
      mainNode, numErased, hasDuplicates := None, 0, false;
    }
  }

  /** The first live node with one of the names, in the order of the names. */
  function FirstOf(nodes: Nodes, names: seq<string>): Option<NodeId> {
    if names == [] then None
    else if IdsOf(nodes, names[0]) != [] then Some(IdsOf(nodes, names[0])[0])
    else FirstOf(nodes, names[1..])
  }

  /** No node has any of the names, or the result is the oldest node of the first name that any
      node has. */
  lemma {:induction false} FirstOfMeans(nodes: Nodes, names: seq<string>)
    ensures var r := FirstOf(nodes, names);
            if r.None? then
              forall n: NodeId, k | Live(nodes, n) && 0 <= k < |names| :: nodes[n].value.functionName != names[k]
            else
              Live(nodes, r.value)
              && exists k :: 0 <= k < |names| && nodes[r.value].value.functionName == names[k]
                             && forall n: NodeId, j | Live(nodes, n) && 0 <= j <= k
                                                      && nodes[n].value.functionName == names[j] ::
                                  j == k && r.value <= n
  {
    hide IdsOf;
    if names != [] {
      var ids := IdsOf(nodes, names[0]);
      IdsOfContents(nodes, names[0]);
      if ids != [] {
        assert ids[0] in ids;
        forall n: NodeId | Live(nodes, n) && nodes[n].value.functionName == names[0]
          ensures ids[0] <= n
        {
          assert n in ids;
        }
        assert nodes[ids[0]].value.functionName == names[0];
      } else {
        FirstOfMeans(nodes, names[1..]);
        var r := FirstOf(nodes, names);
        if r.Some? {
          var k :| 0 <= k < |names[1..]| && nodes[r.value].value.functionName == names[1..][k]
                   && forall n: NodeId, j | Live(nodes, n) && 0 <= j <= k
                                            && nodes[n].value.functionName == names[1..][j] ::
                        j == k && r.value <= n;
          forall n: NodeId, j | Live(nodes, n) && 0 <= j <= k + 1 && nodes[n].value.functionName == names[j]
            ensures j == k + 1 && r.value <= n
          {
            assert j > 0 && names[j] == names[1..][j - 1];
          }
          assert nodes[r.value].value.functionName == names[k + 1];
        } else {
          forall n: NodeId, k | Live(nodes, n) && 0 <= k < |names|
            ensures nodes[n].value.functionName != names[k]
          {
            if k > 0 {
              assert names[k] == names[1..][k - 1];
            }
          }
        }
      }
    }
  }

  lemma {:induction false} LiveCount(nodes: Nodes)
    ensures |nodes| - Erased(nodes) == |set i | 0 <= i < |nodes| && nodes[i].Some?|
  {
    if nodes != [] {
      var last := |nodes| - 1;
      LiveCount(nodes[..last]);
      var live := set i | 0 <= i < last && nodes[..last][i].Some?;
      assert live == set i | 0 <= i < last && nodes[i].Some?;
      assert (set i | 0 <= i < |nodes| && nodes[i].Some?) == live + if nodes[last].Some? then {last} else {};
    }
  }

  lemma NodeAppended(nodes: Nodes, nodes': Nodes, nameIdMap: map<string, seq<NodeId>>,
                     nameIdMap': map<string, seq<NodeId>>)
    requires |nodes'| == |nodes| + 1 && nodes'[..|nodes|] == nodes && nodes'[|nodes|].Some?
    requires NamesIndexed(nodes, nameIdMap)
    requires var name := nodes'[|nodes|].value.functionName;
             nameIdMap' == nameIdMap[name := NameList(nameIdMap, name) + [|nodes|]]
    ensures NamesIndexed(nodes', nameIdMap') && Erased(nodes') == Erased(nodes)
    ensures forall name :: IdsOf(nodes', name)
              == IdsOf(nodes, name) + if name == nodes'[|nodes|].value.functionName then [|nodes|] else []
  {
  }

  lemma EdgeAppended(edges: Edges, callees: map<NodeId, seq<NodeId>>, callers: map<NodeId, seq<NodeId>>, u: NodeId,
                     v: NodeId)
    requires Indexed(edges, callees, callers) && (u, v) !in edges
    ensures Indexed(edges + {(u, v)}, callees[u := ListOf(callees, u) + [v]], callers[v := ListOf(callers, v) + [u]])
  {
    ListOfUpdated(callees, u, ListOf(callees, u) + [v]);
    ListOfUpdated(callers, v, ListOf(callers, v) + [u]);
    assert Distinct(ListOf(callees, u)) && Distinct(ListOf(callers, v));
    DistinctUpdated(callees, u, ListOf(callees, u) + [v]);
    DistinctUpdated(callers, v, ListOf(callers, v) + [u]);
  }

  lemma CalleesListed(edges: Edges, callees: map<NodeId, seq<NodeId>>, id: NodeId)
    requires CalleesIndexed(edges, callees)
    ensures Distinct(ListOf(callees, id))
    ensures forall i :: 0 <= i < |ListOf(callees, id)| ==> ListOf(callees, id)[i] !in ListOf(callees, id)[..i]
    ensures forall v: NodeId :: v in ListOf(callees, id) <==> (id, v) in edges
  {
  }

  lemma CallersListed(edges: Edges, callers: map<NodeId, seq<NodeId>>, id: NodeId)
    requires CallersIndexed(edges, callers)
    ensures Distinct(ListOf(callers, id))
    ensures forall i :: 0 <= i < |ListOf(callers, id)| ==> ListOf(callers, id)[i] !in ListOf(callers, id)[..i]
    ensures forall u: NodeId :: u in ListOf(callers, id) <==> (u, id) in edges
  {
  }

  lemma CalleeErased(edges: Edges, callees: map<NodeId, seq<NodeId>>, u: NodeId, v: NodeId)
    requires CalleesIndexed(edges, callees) && (u, v) in edges
    ensures u in callees && CalleesIndexed(edges - {(u, v)}, callees[u := Erase(callees[u], v)])
  {
    assert v in ListOf(callees, u);
    assert Distinct(ListOf(callees, u));
    EraseContents(callees[u], v);
    DistinctUpdated(callees, u, Erase(callees[u], v));
    ListOfUpdated(callees, u, Erase(callees[u], v));
  }

  lemma CallerErased(edges: Edges, callers: map<NodeId, seq<NodeId>>, u: NodeId, v: NodeId)
    requires CallersIndexed(edges, callers) && (u, v) in edges
    ensures v in callers && CallersIndexed(edges - {(u, v)}, callers[v := Erase(callers[v], u)])
  {
    assert u in ListOf(callers, v);
    assert Distinct(ListOf(callers, v));
    EraseContents(callers[v], u);
    DistinctUpdated(callers, v, Erase(callers[v], u));
    ListOfUpdated(callers, v, Erase(callers[v], u));
  }

  lemma CalleesForgotten(edges: Edges, callees: map<NodeId, seq<NodeId>>, id: NodeId)
    requires CalleesIndexed(edges, callees)
    ensures CalleesIndexed((set e | e in edges && e.0 != id), callees - {id})
  {
    assert Distinct<NodeId>([]);
    ListOfRemoved(callees, id);
    DistinctUpdated(callees, id, []);
  }

  lemma CallersForgotten(edges: Edges, callers: map<NodeId, seq<NodeId>>, id: NodeId)
    requires CallersIndexed(edges, callers)
    ensures CallersIndexed((set e | e in edges && e.1 != id), callers - {id})
  {
    assert Distinct<NodeId>([]);
    ListOfRemoved(callers, id);
    DistinctUpdated(callers, id, []);
  }

  lemma NodeErased(nodes: Nodes, id: NodeId, nameIdMap: map<string, seq<NodeId>>)
    requires Live(nodes, id) && NamesIndexed(nodes, nameIdMap)
    ensures var name := nodes[id].value.functionName;
            NamesIndexed(nodes[id := None], nameIdMap[name := Erase(NameList(nameIdMap, name), id)])
    ensures Erased(nodes[id := None]) == Erased(nodes) + 1
  {
    var it := nodes[id].value.functionName;
    OneMoreErased(nodes, id);
    forall name
      ensures IdsOf(nodes[id := None], name)
           == if nodes[id].value.functionName == name then Erase(IdsOf(nodes, name), id) else IdsOf(nodes, name)
    {
      IdsOfErased(nodes, id, name);
    }
    var nameIdMap', nodes' := nameIdMap[it := Erase(NameList(nameIdMap, it), id)], nodes[id := None];
    forall name
      ensures NameList(nameIdMap', name) == IdsOf(nodes', name)
    {
      assert NameList(nameIdMap, name) == IdsOf(nodes, name);
    }
  }

  /** Erasing a node gives no name a second node. */
  lemma ManyNames(nodes: Nodes, id: NodeId, hasDuplicates: bool)
    requires Live(nodes, id) && DuplicatesNoted(nodes, hasDuplicates)
    ensures DuplicatesNoted(nodes[id := None], hasDuplicates)
  {
    var nodes' := nodes[id := None];
    forall name | |IdsOf(nodes', name)| > 1
      ensures hasDuplicates
    {
      IdsOfErased(nodes, id, name);
      EraseShorter(IdsOf(nodes, name), id);
      assert |IdsOf(nodes, name)| > 1;
    }
  }

  lemma {:induction false} EraseShorter(s: seq<NodeId>, x: NodeId)
    ensures |Erase(s, x)| <= |s|
  {
    if s != [] {
      EraseShorter(s[1..], x);
    }
  }
}
