/**
 Writing and reading equivalence data (to_json and from_json of EquivClassContainer in
 cgcollector/lib/include/AliasAnalysis.h).

 Only the classes and the program information are written.  The index is rebuilt on reading,
 and the prefix edges of the reloaded container are those its stored prefixes stand for.
 */
module AliasFile {
  import opened Labellings
  import opened Lists
  import opened AliasAnalysis
  import opened Absorb

  /** What a file must satisfy for its classes to be a partition of known objects. */
  ghost predicate WellFormed(classes: seq<EquivClass>) {
    && (forall i :: 0 <= i < |classes| ==> classes[i].objects != [] && Functional(classes[i].prefixes))
    && (forall i, j, o :: 0 <= i < j < |classes| && o in classes[i].objects ==> o !in classes[j].objects)
    && (forall i, p :: 0 <= i < |classes| && p in classes[i].prefixes ==> InSome(classes, p.obj))
  }

  ghost predicate InSome(classes: seq<EquivClass>, o: Obj) {
    exists i :: 0 <= i < |classes| && o in classes[i].objects
  }

  ghost predicate Together(classes: seq<EquivClass>, a: Obj, b: Obj) {
    a == b || exists i :: 0 <= i < |classes| && a in classes[i].objects && b in classes[i].objects
  }

  function StoreOf(classes: seq<EquivClass>): Store {
    map i: ClassId | 0 <= i < |classes| :: classes[i]
  }

  function Ids(n: nat): (s: seq<ClassId>)
    ensures |s| == n && forall i :: 0 <= i < n ==> s[i] == i
  {
    seq(n, i => i)
  }

  lemma IdsDistinct(n: nat)
    ensures Distinct(Ids(n)) && forall c: ClassId :: c in Ids(n) <==> c < n
  {
    forall c: nat | c < n
      ensures c in Ids(n)
    {
      assert Ids(n)[c] == c;
    }
  }

  /** Rebuilds a container from the classes of a file. */
  method FromJson(classes: seq<EquivClass>, functionMap: map<Obj, FuncName>, infos: map<FuncName, FunctionInfo>,
                  calls: map<CallId, CallInfo>, parents: map<CallId, FuncName>)
    returns (data: EquivClassContainer)
    requires WellFormed(classes)
    ensures fresh(data) && data.Valid({})
    ensures forall a, b :: Same(data.findMap, a, b) <==> Together(classes, a, b)
    ensures forall o :: o in data.findMap <==> InSome(classes, o)
    ensures data.edges == ListEdges(StoreOf(classes), Ids(|classes|))
    ensures data.Prog() == Program(data.edges, functionMap, infos, calls) && data.callExprParentMap == parents
  {
    var findMap := IndexAll(classes);
    LoadedValid(classes, findMap);
    IdsDistinct(|classes|);
    hide WellFormed, Together, InSome, Partition, Sound, Complete, Known, Distinct, ListEdges, InformationKnown, Same;
    var list, store := Ids(|classes|), StoreOf(classes);
    data := new EquivClassContainer.FromParts(list, store, |classes|, findMap, functionMap, infos, calls, parents,
                                              ListEdges(store, list));
    data.InitReferencedInCalls();
  }

  method IndexAll(classes: seq<EquivClass>) returns (findMap: Labelling)
    requires WellFormed(classes)
    ensures forall o :: o in findMap ==> findMap[o] < |classes| && o in classes[findMap[o]].objects
    ensures forall k, o :: 0 <= k < |classes| && o in classes[k].objects ==> o in findMap && findMap[o] == k
  {
    findMap := map[];
    for i := 0 to |classes|
      invariant forall o :: o in findMap ==> findMap[o] < i && o in classes[findMap[o]].objects
      invariant forall k, o :: 0 <= k < i && o in classes[k].objects ==> o in findMap && findMap[o] == k
    {
      findMap := IndexClass(classes, i, findMap);
    }
  }

  method IndexClass(classes: seq<EquivClass>, i: nat, findMap: Labelling) returns (out: Labelling)
    requires WellFormed(classes) && i < |classes|
    requires forall o :: o in findMap ==> findMap[o] < i && o in classes[findMap[o]].objects
    requires forall k, o :: 0 <= k < i && o in classes[k].objects ==> o in findMap && findMap[o] == k
    ensures forall o :: o in out ==> out[o] < i + 1 && o in classes[out[o]].objects
    ensures forall k, o :: 0 <= k < i + 1 && o in classes[k].objects ==> o in out && out[o] == k
  {
    out := findMap;
    var objects := classes[i].objects;
    hide WellFormed;
    for j := 0 to |objects|
      invariant forall o :: o in out <==> o in findMap || o in objects[..j]
      invariant forall o :: o in out ==> out[o] == if o in findMap then findMap[o] else i
    {
      assert objects[..j + 1] == objects[..j] + [objects[j]];
      if objects[j] !in out {
        out := out[objects[j] := i];
      }
    }
    assert objects[..|objects|] == objects;
    IndexedAll(classes, i, findMap, out);
  }

  lemma IndexedAll(classes: seq<EquivClass>, i: nat, findMap: Labelling, out: Labelling)
    requires WellFormed(classes) && i < |classes|
    requires forall o :: o in findMap ==> findMap[o] < i && o in classes[findMap[o]].objects
    requires forall k, o :: 0 <= k < i && o in classes[k].objects ==> o in findMap && findMap[o] == k
    requires forall o :: o in out <==> o in findMap || o in classes[i].objects
    requires forall o :: o in out ==> out[o] == if o in findMap then findMap[o] else i
    ensures forall o :: o in out ==> out[o] < i + 1 && o in classes[out[o]].objects
    ensures forall k, o :: 0 <= k < i + 1 && o in classes[k].objects ==> o in out && out[o] == k
  {
  }

  lemma LoadedValid(classes: seq<EquivClass>, findMap: Labelling)
    requires WellFormed(classes)
    requires forall o :: o in findMap ==> findMap[o] < |classes| && o in classes[findMap[o]].objects
    requires forall k, o :: 0 <= k < |classes| && o in classes[k].objects ==> o in findMap && findMap[o] == k
    ensures var store, edges := StoreOf(classes), ListEdges(StoreOf(classes), Ids(|classes|));
            && Partition(store, findMap) && Sound(store, edges) && Known(store, findMap.Keys)
            && Complete(store, findMap, edges, {})
    ensures forall a, b :: Same(findMap, a, b) <==> Together(classes, a, b)
    ensures forall o :: o in findMap <==> InSome(classes, o)
  {
    var store, list := StoreOf(classes), Ids(|classes|);
    LoadedPartition(classes, findMap);
    forall c | c in store
      ensures c in list
    {
      assert list[c] == c;
    }
    AsStored(store, findMap, list);
  }

  lemma LoadedPartition(classes: seq<EquivClass>, findMap: Labelling)
    requires WellFormed(classes)
    requires forall o :: o in findMap ==> findMap[o] < |classes| && o in classes[findMap[o]].objects
    requires forall k, o :: 0 <= k < |classes| && o in classes[k].objects ==> o in findMap && findMap[o] == k
    ensures Partition(StoreOf(classes), findMap) && Known(StoreOf(classes), findMap.Keys)
    ensures forall a, b :: Same(findMap, a, b) <==> Together(classes, a, b)
    ensures forall o :: o in findMap <==> InSome(classes, o)
  {
    forall o | InSome(classes, o)
      ensures o in findMap
    {
      var k :| 0 <= k < |classes| && o in classes[k].objects;
    }
    forall a, b | Together(classes, a, b) && a != b
      ensures Same(findMap, a, b)
    {
      var k :| 0 <= k < |classes| && a in classes[k].objects && b in classes[k].objects;
    }
  }

  /** Every class represents its own stored edges. */
  lemma AsStored(store: Store, findMap: Labelling, list: seq<ClassId>)
    requires Partition(store, findMap) && forall c :: c in store ==> c in list
    ensures Sound(store, ListEdges(store, list)) && Complete(store, findMap, ListEdges(store, list), {})
  {
    var edges := ListEdges(store, list);
    forall c, p | c in store && p in store[c].prefixes
      ensures Traced(store[c].objects, p, edges)
    {
      var o := store[c].objects[0];
      assert o in store[c].objects && Edge(o, p.mem, p.obj) in ClassEdges(store[c]);
    }
    forall l, e | e in edges && Coarser(findMap, l)
      ensures HasPrefix(store[findMap[e.source]].prefixes, l, e)
    {
      StoredEdge(store, findMap, list, e);
      var p := Prefix(e.target, e.mem);
      assert p.mem == e.mem && Same(l, p.obj, e.target);
    }
    forall e | e in edges
      ensures e.source in findMap
    {
      StoredEdge(store, findMap, list, e);
    }
  }

  lemma StoredEdge(store: Store, findMap: Labelling, list: seq<ClassId>, e: Edge)
    requires Partition(store, findMap) && e in ListEdges(store, list)
    ensures e.source in findMap && Prefix(e.target, e.mem) in store[findMap[e.source]].prefixes
  {
  }

  /** The classes that are written, in list order. */
  function ToJson(store: Store, list: seq<ClassId>): seq<EquivClass>
    requires forall c :: c in list ==> c in store
  {
    seq(|list|, i requires 0 <= i < |list| => store[list[i]])
  }

  /** Writing and reading back loses nothing: the partition is the same, and above it the same
      equivalences are congruences, although dropped prefixes are not in the file. */
  lemma WriteReadBack(store: Store, list: seq<ClassId>, findMap: Labelling, edges: set<Edge>, r: Labelling)
    requires Distinct(list) && forall c :: c in list <==> c in store
    requires Partition(store, findMap) && Sound(store, edges) && Known(store, findMap.Keys)
    requires Complete(store, findMap, edges, {})
    ensures var classes := ToJson(store, list);
            && WellFormed(classes)
            && (forall a, b :: Together(classes, a, b) <==> Same(findMap, a, b))
            && (Coarser(findMap, r) ==>
                  (Congruent(edges, r) <==> Congruent(ListEdges(StoreOf(classes), Ids(|classes|)), r)))
  {
    var classes := ToJson(store, list);
    WrittenWellFormed(store, list, findMap);
    WrittenEdges(store, list);
    hide ToJson, WellFormed, Together, Congruent, Coarser;
    if Coarser(findMap, r) {
      StoredPrefixesSuffice(store, findMap, edges, list, {}, r);
      assert {} + edges == edges && {} + ListEdges(store, list) == ListEdges(store, list);
    }
  }

  lemma WrittenEdges(store: Store, list: seq<ClassId>)
    requires forall c :: c in list ==> c in store
    ensures var classes := ToJson(store, list);
            ListEdges(StoreOf(classes), Ids(|classes|)) == ListEdges(store, list)
  {
    hide ClassEdges;
    var classes := ToJson(store, list);
    forall e | e in ListEdges(store, list)
      ensures e in ListEdges(StoreOf(classes), Ids(|classes|))
    {
      var c :| c in list && c in store && e in ClassEdges(store[c]);
      var i :| 0 <= i < |list| && list[i] == c;
      assert Ids(|classes|)[i] == i && StoreOf(classes)[i] == store[c];
    }
  }

  lemma WrittenWellFormed(store: Store, list: seq<ClassId>, findMap: Labelling)
    requires Distinct(list) && forall c :: c in list <==> c in store
    requires Partition(store, findMap) && Known(store, findMap.Keys)
    ensures WellFormed(ToJson(store, list))
    ensures forall a, b :: Together(ToJson(store, list), a, b) <==> Same(findMap, a, b)
  {
    var classes := ToJson(store, list);
    forall o | o in findMap
      ensures InSome(classes, o)
    {
      var i :| 0 <= i < |list| && list[i] == findMap[o];
      assert o in classes[i].objects;
    }
    forall i, j, o | 0 <= i < j < |classes| && o in classes[i].objects
      ensures o !in classes[j].objects
    {
      assert findMap[o] == list[i] != list[j];
    }
    forall a, b
      ensures Together(classes, a, b) <==> Same(findMap, a, b)
    {
      if Same(findMap, a, b) && a != b {
        var i :| 0 <= i < |list| && list[i] == findMap[a];
        assert a in classes[i].objects && b in classes[i].objects;
      }
      if i :| 0 <= i < |classes| && a in classes[i].objects && b in classes[i].objects {
        assert findMap[a] == list[i] && findMap[b] == list[i];
      }
    }
  }
}
