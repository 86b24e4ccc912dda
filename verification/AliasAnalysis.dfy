/**
 The equivalence engine of the alias analysis (cgcollector/lib/src/AliasAnalysis.cpp).

 Objects are kept in equivalence classes.  A class also stores prefixes: what one gets by
 dereferencing its objects, or by selecting a member of them.  Merging two classes that have
 different targets for one member keeps one of the two prefixes and queues the two targets
 for merging, so that the stored prefixes alone no longer describe the program.  The ghost
 field `edges` keeps every prefix edge ever entered; the invariants below say how much of it
 the stored prefixes still represent while merges are pending.
 */
module AliasAnalysis {
  import opened Labellings
  import opened Lists

  type FuncName = string

  type CallId = Obj

  type Meetings = seq<(Obj, CallId)>

  /** `mem` is empty for a dereference. */
  datatype Prefix = Prefix(obj: Obj, mem: string)

  datatype EquivClass = EquivClass(objects: seq<Obj>, prefixes: seq<Prefix>)

  datatype FunctionInfo = FunctionInfo(mangledNames: seq<string>, parameters: seq<Obj>,
                                       returned: seq<Obj>, isVariadic: bool)

  datatype CallInfo = CallInfo(calledObjects: seq<Obj>, arguments: seq<seq<Obj>>)

  type Store = map<ClassId, EquivClass>

  // ---------------------------------------------------------------- classes and prefixes

  /** At most one target per member. */
  ghost predicate Functional(ps: seq<Prefix>) {
    forall p, q :: p in ps && q in ps && p.mem == q.mem ==> p.obj == q.obj
  }

  /** `findMap` and the classes describe one partition of the same objects. */
  ghost predicate Partition(store: Store, findMap: Labelling) {
    && (forall o :: o in findMap ==> findMap[o] in store && o in store[findMap[o]].objects)
    && (forall c, o :: c in store && o in store[c].objects ==> o in findMap && findMap[o] == c)
    && (forall c :: c in store ==> store[c].objects != [] && Functional(store[c].prefixes))
  }

  /** Every stored prefix is a prefix edge of one of the objects of its class. */
  ghost predicate Sound(store: Store, edges: set<Edge>) {
    forall c, p :: c in store && p in store[c].prefixes ==> Traced(store[c].objects, p, edges)
  }

  ghost predicate Traced(objects: seq<Obj>, p: Prefix, edges: set<Edge>) {
    exists o :: o in objects && Edge(o, p.mem, p.obj) in edges
  }

  ghost predicate HasPrefix(ps: seq<Prefix>, l: Labelling, e: Edge) {
    exists p :: p in ps && p.mem == e.mem && Same(l, p.obj, e.target)
  }

  /** Every prefix edge is stored at the class of its source, up to any equivalence that also
      joins the pending pairs. */
  ghost predicate Complete(store: Store, findMap: Labelling, edges: set<Edge>, pending: Pairs)
    requires Partition(store, findMap)
  {
    && (forall e :: e in edges ==> e.source in findMap)
    && forall l, e :: e in edges && Coarser(findMap, l) && Joins(l, pending)
                      ==> HasPrefix(store[findMap[e.source]].prefixes, l, e)
  }

  /** With nothing pending, the stored prefixes force the partition to be a congruence for all
      prefix edges, including those whose prefix was dropped. */
  lemma CompleteIsCongruent(store: Store, findMap: Labelling, edges: set<Edge>)
    requires Partition(store, findMap) && Complete(store, findMap, edges, {})
    ensures Congruent(edges, findMap)
  {
    assert Coarser(findMap, findMap) && Joins(findMap, {});
    forall e, f | e in edges && f in edges && e.mem == f.mem && Same(findMap, e.source, f.source)
      ensures Same(findMap, e.target, f.target)
    {
      var ps := store[findMap[e.source]].prefixes;
      assert HasPrefix(ps, findMap, e) && HasPrefix(ps, findMap, f);
      var p :| p in ps && p.mem == e.mem && Same(findMap, p.obj, e.target);
      var q :| q in ps && q.mem == f.mem && Same(findMap, q.obj, f.target);
      assert p.obj == q.obj;
    }
  }

  /** All prefix targets are among the given objects. */
  ghost predicate Known(store: Store, objects: set<Obj>) {
    forall c, p :: c in store && p in store[c].prefixes ==> p.obj in objects
  }

  function PairSet(pairs: seq<(Obj, Obj)>): Pairs {
    set p | p in pairs
  }

  /** What GetPrefixesToMerge promises: `added` enters `out` up to the queued pairs, and a pair
      is queued only for two targets of one member. */
  ghost predicate PrefixesMerged(into: seq<Prefix>, added: seq<Prefix>, out: seq<Prefix>,
                                 pairs: seq<(Obj, Obj)>)
  {
    && into <= out
    && (forall q :: q in out ==> q in into || q in added)
    && (Functional(into) ==> Functional(out))
    && (forall p :: p in added ==>
                      p in out || exists q :: q in out && q.mem == p.mem && (p.obj, q.obj) in pairs)
    && (forall a, b :: (a, b) in pairs ==>
                         exists mem :: Prefix(a, mem) in added && Prefix(b, mem) in out)
  }

  method GetPrefixesToMerge(into: seq<Prefix>, prefixToMerge: seq<Prefix>)
    returns (out: seq<Prefix>, objectsToMerge: seq<(Obj, Obj)>)
    ensures PrefixesMerged(into, prefixToMerge, out, objectsToMerge)
  {
    hide PrefixesMerged;
    out, objectsToMerge := into, [];
    NoPrefixMerged(into, prefixToMerge);
    for i := 0 to |prefixToMerge|
      invariant PrefixesMerged(into, prefixToMerge[..i], out, objectsToMerge)
    {
      var p := prefixToMerge[i];
      assert prefixToMerge[..i + 1] == prefixToMerge[..i] + [p];
      var j := FindConflict(p, out);
      if j < |out| {
        PrefixQueued(into, prefixToMerge[..i], out, objectsToMerge, p, out[j]);
        objectsToMerge := objectsToMerge + [(p.obj, out[j].obj)];
      } else {
        PrefixPushed(into, prefixToMerge[..i], out, objectsToMerge, p);
        out := out + [p];
      }
    }
    assert prefixToMerge[..|prefixToMerge|] == prefixToMerge;
  }

  /** The first stored prefix with the same member and another target, if there is one. */
  method FindConflict(p: Prefix, out: seq<Prefix>) returns (j: nat)
    ensures j <= |out| && (j < |out| ==> out[j].mem == p.mem && out[j].obj != p.obj)
    ensures forall q :: q in out[..j] ==> q.mem != p.mem || q.obj == p.obj
    ensures j == |out| ==> forall q :: q in out ==> q.mem != p.mem || q.obj == p.obj
  {
    j := 0;
    while j < |out| && !(p.obj != out[j].obj &&
                         ((p.mem == "" && out[j].mem == "") ||
                          (p.mem != "" && out[j].mem != "" && p.mem == out[j].mem)))
      invariant j <= |out|
      invariant forall k :: 0 <= k < j ==> out[k].mem != p.mem || out[k].obj == p.obj
    {
      j := j + 1;
    }
  }

  lemma NoPrefixMerged(into: seq<Prefix>, prefixToMerge: seq<Prefix>)
    ensures PrefixesMerged(into, prefixToMerge[..0], into, [])
  {
  }

  lemma PrefixQueued(into: seq<Prefix>, added: seq<Prefix>, out: seq<Prefix>,
                     pairs: seq<(Obj, Obj)>, p: Prefix, found: Prefix)
    requires PrefixesMerged(into, added, out, pairs)
    requires found in out && found.mem == p.mem
    ensures PrefixesMerged(into, added + [p], out, pairs + [(p.obj, found.obj)])
  {
  }

  lemma PrefixPushed(into: seq<Prefix>, added: seq<Prefix>, out: seq<Prefix>,
                     pairs: seq<(Obj, Obj)>, p: Prefix)
    requires PrefixesMerged(into, added, out, pairs)
    requires forall q :: q in out ==> q.mem != p.mem || q.obj == p.obj
    ensures PrefixesMerged(into, added + [p], out + [p], pairs)
  {
  }

  // ---------------------------------------------------------------- one merge step

  function MergedStore(store: Store, e1: ClassId, e2: ClassId, iter: ClassId, prefixes: seq<Prefix>): Store
    requires e1 in store && e2 in store
  {
    store[iter := EquivClass(store[e1].objects + store[e2].objects, prefixes)] - {e1, e2}
  }

  lemma MergeKeepsPartition(store: Store, findMap: Labelling, e1: ClassId, e2: ClassId, iter: ClassId,
                            out: seq<Prefix>)
    requires Partition(store, findMap)
    requires e1 in store && e2 in store && e1 != e2 && iter !in store && Functional(out)
    ensures Partition(MergedStore(store, e1, e2, iter, out), Relabel(findMap, e1, e2, iter))
  {
    var store' := MergedStore(store, e1, e2, iter, out);
    var findMap' := Relabel(findMap, e1, e2, iter);
    assert store'[iter].objects == store[e1].objects + store[e2].objects;
    assert forall c :: c in store' && c != iter ==> c in store && store'[c] == store[c];
    forall o | o in findMap'
      ensures findMap'[o] in store' && o in store'[findMap'[o]].objects
    {
      RelabelledIn(store, findMap, e1, e2, iter, out, o);
    }
  }

  lemma RelabelledIn(store: Store, findMap: Labelling, e1: ClassId, e2: ClassId, iter: ClassId, out: seq<Prefix>,
                     o: Obj)
    requires o in findMap && findMap[o] in store && o in store[findMap[o]].objects
    requires e1 in store && e2 in store && e1 != e2 && iter !in store
    ensures var store', findMap' := MergedStore(store, e1, e2, iter, out), Relabel(findMap, e1, e2, iter);
            o in findMap' && findMap'[o] in store' && o in store'[findMap'[o]].objects
  {
  }

  lemma MergeKeepsSound(store: Store, edges: set<Edge>, e1: ClassId, e2: ClassId, iter: ClassId,
                        out: seq<Prefix>, pairs: seq<(Obj, Obj)>)
    requires Sound(store, edges)
    requires e1 in store && e2 in store
    requires PrefixesMerged(store[e1].prefixes, store[e2].prefixes, out, pairs)
    ensures Sound(MergedStore(store, e1, e2, iter, out), edges)
  {
  }

  lemma MergeKeepsPrefix(store: Store, findMap: Labelling, e1: ClassId, e2: ClassId, out: seq<Prefix>,
                         pairs: seq<(Obj, Obj)>, l: Labelling, e: Edge)
    requires e1 in store && e2 in store && e.source in findMap && findMap[e.source] in {e1, e2}
    requires PrefixesMerged(store[e1].prefixes, store[e2].prefixes, out, pairs)
    requires Joins(l, PairSet(pairs))
    requires HasPrefix(store[findMap[e.source]].prefixes, l, e)
    ensures HasPrefix(out, l, e)
  {
  }

  lemma MergeKeepsComplete(store: Store, findMap: Labelling, edges: set<Edge>, pending: Pairs,
                           e1: ClassId, e2: ClassId, iter: ClassId, out: seq<Prefix>, pairs: seq<(Obj, Obj)>)
    requires Partition(store, findMap) && Complete(store, findMap, edges, pending)
    requires e1 in store && e2 in store && e1 != e2 && iter !in store
    requires PrefixesMerged(store[e1].prefixes, store[e2].prefixes, out, pairs)
    requires Partition(MergedStore(store, e1, e2, iter, out), Relabel(findMap, e1, e2, iter))
    requires Coarser(findMap, Relabel(findMap, e1, e2, iter))
    ensures Complete(MergedStore(store, e1, e2, iter, out), Relabel(findMap, e1, e2, iter), edges,
                     pending + PairSet(pairs))
  {
    var store' := MergedStore(store, e1, e2, iter, out);
    var findMap' := Relabel(findMap, e1, e2, iter);
    forall l, e | e in edges && Coarser(findMap', l) && Joins(l, pending + PairSet(pairs))
      ensures HasPrefix(store'[findMap'[e.source]].prefixes, l, e)
    {
      assert Joins(l, pending) && Joins(l, PairSet(pairs));
      assert HasPrefix(store[findMap[e.source]].prefixes, l, e);
      if findMap[e.source] in {e1, e2} {
        MergeKeepsPrefix(store, findMap, e1, e2, out, pairs, l, e);
      }
    }
  }

  lemma QueuedPairsForced(o1: seq<Obj>, ps1: seq<Prefix>, o2: seq<Obj>, ps2: seq<Prefix>, edges: set<Edge>,
                          out: seq<Prefix>, pairs: seq<(Obj, Obj)>, r: Labelling)
    requires PrefixesMerged(ps1, ps2, out, pairs)
    requires forall p :: p in ps1 ==> Traced(o1, p, edges)
    requires forall p :: p in ps2 ==> Traced(o2, p, edges)
    requires Congruent(edges, r)
    requires forall x, y :: x in o1 + o2 && y in o1 + o2 ==> Same(r, x, y)
    ensures Joins(r, PairSet(pairs))
  {
  }

  lemma TracedWider(objects: seq<Obj>, wider: seq<Obj>, p: Prefix, edges: set<Edge>)
    requires Traced(objects, p, edges)
    requires forall o :: o in objects ==> o in wider
    ensures Traced(wider, p, edges)
  {
  }

  /** One merge keeps every invariant, with the queued targets added to the pending pairs; the
      new partition and the queued pairs are forced by the two classes becoming one. */
  lemma MergeStep(store: Store, findMap: Labelling, edges: set<Edge>, pending: Pairs, e1: ClassId, e2: ClassId,
                  iter: ClassId, out: seq<Prefix>, pairs: seq<(Obj, Obj)>, a: Obj, b: Obj)
    requires Partition(store, findMap) && Sound(store, edges) && Complete(store, findMap, edges, pending)
    requires e1 in store && e2 in store && e1 != e2 && iter !in store
    requires a in store[e1].objects && b in store[e2].objects
    requires PrefixesMerged(store[e1].prefixes, store[e2].prefixes, out, pairs)
    ensures var store' := MergedStore(store, e1, e2, iter, out);
            var findMap' := Relabel(findMap, e1, e2, iter);
            && Partition(store', findMap')
            && Sound(store', edges)
            && Complete(store', findMap', edges, pending + PairSet(pairs))
            && findMap'.Keys == findMap.Keys
            && Same(findMap', store[e1].objects[0], a)
            && Coarser(findMap, findMap') && Same(findMap', a, b)
            && Forced(edges, findMap, {(a, b)}, findMap')
            && (forall x, y :: Same(findMap', x, y) ==> Same(findMap, x, y) || Same(findMap', x, a))
            && (forall r :: Congruent(edges, r) && Coarser(findMap', r) ==> Joins(r, PairSet(pairs)))
  {
    var findMap' := Relabel(findMap, e1, e2, iter);
    MergeLabels(store, findMap, edges, e1, e2, iter, a, b);
    MergeKeepsPartition(store, findMap, e1, e2, iter, out);
    MergeKeepsSound(store, edges, e1, e2, iter, out, pairs);
    MergeKeepsComplete(store, findMap, edges, pending, e1, e2, iter, out, pairs);
    forall r | Congruent(edges, r) && Coarser(findMap', r)
      ensures Joins(r, PairSet(pairs))
    {
      assert forall x, y :: x in store[e1].objects + store[e2].objects && y in store[e1].objects + store[e2].objects
                            ==> Same(findMap', x, y);
      QueuedPairsForced(store[e1].objects, store[e1].prefixes, store[e2].objects, store[e2].prefixes, edges,
                        out, pairs, r);
    }
  }

  lemma MergeLabels(store: Store, findMap: Labelling, edges: set<Edge>, e1: ClassId, e2: ClassId,
                    iter: ClassId, a: Obj, b: Obj)
    requires Partition(store, findMap)
    requires e1 in store && e2 in store && iter !in store
    requires a in store[e1].objects && b in store[e2].objects
    ensures var findMap' := Relabel(findMap, e1, e2, iter);
            && findMap'.Keys == findMap.Keys
            && Same(findMap', store[e1].objects[0], a)
            && Coarser(findMap, findMap') && Same(findMap', a, b)
            && Forced(edges, findMap, {(a, b)}, findMap')
            && (forall x, y :: Same(findMap', x, y) ==> Same(findMap, x, y) || Same(findMap', x, a))
            && (forall x, y :: x in store[e1].objects + store[e2].objects && y in store[e1].objects + store[e2].objects
                               ==> Same(findMap', x, y))
  {
    var findMap' := Relabel(findMap, e1, e2, iter);
    assert store[e1].objects[0] in store[e1].objects;
    RelabelIsLeast(findMap, e1, e2, iter, a, b);
    forall r | Coarser(findMap, r) && Joins(r, {(a, b)})
      ensures Coarser(findMap', r)
    {
      assert (a, b) in {(a, b)};
    }
  }

  /** Merging neither invents nor loses prefix targets of the partition. */
  lemma MergeKeepsKnown(store: Store, objects: set<Obj>, e1: ClassId, e2: ClassId, iter: ClassId,
                        out: seq<Prefix>, pairs: seq<(Obj, Obj)>)
    requires Known(store, objects) && e1 in store && e2 in store
    requires PrefixesMerged(store[e1].prefixes, store[e2].prefixes, out, pairs)
    ensures Known(MergedStore(store, e1, e2, iter, out), objects)
    ensures forall p :: p in pairs ==> p.0 in objects && p.1 in objects
  {
  }

  lemma ClassObjects(store: Store, findMap: Labelling, e1: ClassId, e2: ClassId, a: Obj, b: Obj)
    requires Partition(store, findMap) && e1 in store && e2 in store
    requires a in store[e1].objects && b in store[e2].objects
    ensures forall o :: o in store[e1].objects + store[e2].objects ==> o in findMap
    ensures store[e1].objects != [] && findMap[a] == e1 && findMap[b] == e2
    ensures findMap[store[e1].objects[0]] == e1
  {
  }

  function Reassigned(l: Labelling, objects: seq<Obj>, iter: ClassId): Labelling {
    map o | o in l :: if o in objects then iter else l[o]
  }

  lemma ReassignedIsRelabelled(store: Store, findMap: Labelling, e1: ClassId, e2: ClassId, iter: ClassId,
                               o1: seq<Obj>, o2: seq<Obj>)
    requires Partition(store, findMap) && e1 in store && e2 in store
    requires o1 == store[e1].objects && o2 == store[e2].objects
    ensures Reassigned(Reassigned(findMap, o1, iter), o2, iter) == Relabel(findMap, e1, e2, iter)
  {
  }

  /** The class list after appending `iter` and erasing the two merged classes. */
  function MergedList(s: seq<ClassId>, e1: ClassId, e2: ClassId, iter: ClassId): seq<ClassId> {
    Erase(Erase(s + [iter], e1), e2)
  }

  lemma MergedListContents(s: seq<ClassId>, store: Store, e1: ClassId, e2: ClassId, iter: ClassId,
                           prefixes: seq<Prefix>)
    requires Distinct(s) && e1 in store && e2 in store && e1 != e2
    requires forall c :: c in s <==> c in store
    requires forall c :: c in store ==> c < iter
    ensures Distinct(MergedList(s, e1, e2, iter))
    ensures forall c :: c in MergedList(s, e1, e2, iter) <==> c in MergedStore(store, e1, e2, iter, prefixes)
    ensures forall c :: c in MergedStore(store, e1, e2, iter, prefixes) ==> c < iter + 1
    ensures |MergedStore(store, e1, e2, iter, prefixes)| == |store| - 1
  {
    hide Distinct, Erase, MergedStore;
    assert iter !in s;
    DistinctAppended(s, iter);
    EraseContents(s + [iter], e1);
    EraseContents(Erase(s + [iter], e1), e2);
    MergedStoreKeys(store, e1, e2, iter, prefixes);
  }

  lemma DistinctAppended<T>(s: seq<T>, x: T)
    requires Distinct(s) && x !in s
    ensures Distinct(s + [x])
  {
  }

  lemma MergedStoreKeys(store: Store, e1: ClassId, e2: ClassId, iter: ClassId, prefixes: seq<Prefix>)
    requires e1 in store && e2 in store && e1 != e2 && iter !in store
    ensures var store' := MergedStore(store, e1, e2, iter, prefixes);
            && (forall c :: c in store' <==> c == iter || (c in store && c != e1 && c != e2))
            && |store'| == |store| - 1
  {
    var store' := MergedStore(store, e1, e2, iter, prefixes);
    assert store'.Keys == store.Keys - {e1, e2} + {iter};
    assert |store.Keys - {e1, e2}| == |store.Keys| - 2;
    assert |store'| == |store'.Keys|;
  }

  // ---------------------------------------------------------------- functions and calls

  predicate Calls(callInfo: map<CallId, CallInfo>, c: CallId, o: Obj) {
    c in callInfo && o in callInfo[c].calledObjects
  }

  /** A function and a call meet when the call's called object is equivalent to the function. */
  ghost predicate Meets(functions: map<Obj, FuncName>, callInfo: map<CallId, CallInfo>, l: Labelling,
                        f: Obj, c: CallId)
  {
    f in functions && exists o :: Calls(callInfo, c, o) && Same(l, f, o)
  }

  /** `found` lists only meetings. */
  ghost predicate OnlyMeetings(functions: map<Obj, FuncName>, callInfo: map<CallId, CallInfo>, l: Labelling,
                               found: Meetings)
  {
    forall f, c :: (f, c) in found ==> Meets(functions, callInfo, l, f, c)
  }

  /** `found` lists every meeting of `after` that is not one of `before`. */
  ghost predicate AllNewMeetings(functions: map<Obj, FuncName>, callInfo: map<CallId, CallInfo>,
                                 before: Labelling, after: Labelling, found: Meetings)
  {
    forall f, o, c :: f in functions && Calls(callInfo, c, o) && Same(after, f, o)
                      ==> Same(before, f, o) || (f, c) in found
  }

  /** The pairs that a call of a function makes equivalent: formals with the actuals at their
      position, and the call itself with everything the function may return. */
  function CallPairs(info: FunctionInfo, call: CallInfo, c: CallId): Pairs {
    ArgumentPairs(info.parameters, call.arguments) + PairsWith(c, info.returned)
  }

  function ArgumentPairs(parameters: seq<Obj>, arguments: seq<seq<Obj>>): Pairs {
    set i, a | 0 <= i < |parameters| && i < |arguments| && a in arguments[i] :: (parameters[i], a)
  }

  function PairsWith(a: Obj, objects: seq<Obj>): Pairs {
    set r | r in objects :: (a, r)
  }

  /** The actuals for the formal at position `i`: none when the call has too few arguments. */
  function Actuals(arguments: seq<seq<Obj>>, i: nat): seq<Obj> {
    if i < |arguments| then arguments[i] else []
  }

  /** What it means to join these pairs: the formal at each position is equivalent to all objects
      of the actual at that position, and the call to everything returned. */
  lemma CallPairsJoined(l: Labelling, info: FunctionInfo, call: CallInfo, c: CallId)
    ensures Joins(l, CallPairs(info, call, c))
            <==> (forall i, a | 0 <= i < |info.parameters| && i < |call.arguments| && a in call.arguments[i] ::
                    Same(l, info.parameters[i], a))
                 && forall r | r in info.returned :: Same(l, c, r)
  {
    hide Same;
    if Joins(l, CallPairs(info, call, c)) {
      forall i, a | 0 <= i < |info.parameters| && i < |call.arguments| && a in call.arguments[i]
        ensures Same(l, info.parameters[i], a)
      {
        assert (info.parameters[i], a) in ArgumentPairs(info.parameters, call.arguments);
      }
      forall r | r in info.returned
        ensures Same(l, c, r)
      {
        assert (c, r) in PairsWith(c, info.returned);
      }
    }
  }

  lemma NextArgument(parameters: seq<Obj>, arguments: seq<seq<Obj>>, i: nat)
    requires i < |parameters|
    ensures ArgumentPairs(parameters[..i + 1], arguments)
            == ArgumentPairs(parameters[..i], arguments) + PairsWith(parameters[i], Actuals(arguments, i))
    ensures PairsWith(parameters[i], Actuals(arguments, i)) <= ArgumentPairs(parameters, arguments)
  {
  }

  /** As AllNewMeetings, but the class of `front` has not been searched yet. */
  ghost predicate NewMeetingsBut(functions: map<Obj, FuncName>, callInfo: map<CallId, CallInfo>,
                                 before: Labelling, after: Labelling, found: Meetings, front: Obj)
  {
    forall f, o, c :: f in functions && Calls(callInfo, c, o) && Same(after, f, o)
                      ==> Same(before, f, o) || (f, c) in found || Same(after, f, front)
  }

  /** `found` lists every meeting within one class. */
  ghost predicate ClassSearched(objects: seq<Obj>, functions: map<Obj, FuncName>,
                                callInfo: map<CallId, CallInfo>, found: Meetings)
  {
    forall f, o, c :: f in functions && Calls(callInfo, c, o) && f in objects && o in objects ==> (f, c) in found
  }

  lemma NoMeetingsYet(functions: map<Obj, FuncName>, callInfo: map<CallId, CallInfo>,
                      before: Labelling, after: Labelling, a: Obj, front: Obj)
    requires forall x, y :: Same(after, x, y) ==> Same(before, x, y) || Same(after, x, a)
    requires Same(after, front, a)
    ensures OnlyMeetings(functions, callInfo, after, [])
    ensures NewMeetingsBut(functions, callInfo, before, after, [], front)
    ensures Coarser(after, after)
  {
  }

  lemma MeetingsChain(functions: map<Obj, FuncName>, callInfo: map<CallId, CallInfo>, l0: Labelling,
                      l1: Labelling, l2: Labelling, found: Meetings, more: Meetings, front: Obj)
    requires OnlyMeetings(functions, callInfo, l1, found) && OnlyMeetings(functions, callInfo, l2, more)
    requires NewMeetingsBut(functions, callInfo, l0, l1, found, front)
    requires AllNewMeetings(functions, callInfo, l1, l2, more)
    requires Coarser(l1, l2)
    ensures OnlyMeetings(functions, callInfo, l2, found + more)
    ensures NewMeetingsBut(functions, callInfo, l0, l2, found + more, front)
  {
  }

  lemma FrontDone(store: Store, findMap: Labelling, functions: map<Obj, FuncName>,
                  callInfo: map<CallId, CallInfo>, before: Labelling, found: Meetings, ret: Meetings, front: Obj)
    requires Partition(store, findMap) && front in findMap && findMap[front] in store
    requires NewMeetingsBut(functions, callInfo, before, findMap, found, front) && found <= ret
    requires ClassSearched(store[findMap[front]].objects, functions, callInfo, ret)
    ensures AllNewMeetings(functions, callInfo, before, findMap, ret)
  {
  }

  lemma ClassOf(store: Store, findMap: Labelling, o: Obj)
    requires Partition(store, findMap) && o in findMap
    ensures findMap[o] in store && o in store[findMap[o]].objects
  {
  }

  lemma JoinedStays(l: Labelling, l': Labelling, a: Obj, b: Obj)
    requires Coarser(l, l') && Same(l, a, b)
    ensures Same(l', a, b)
  {
  }

  lemma RecursionStep(edges: set<Edge>, l0: Labelling, l1: Labelling, l2: Labelling, l3: Labelling, a: Obj, b: Obj,
                      pairs: seq<(Obj, Obj)>, x: Obj, y: Obj)
    requires (x, y) in pairs
    requires Coarser(l0, l2) && Coarser(l1, l2) && Coarser(l2, l3)
    requires Forced(edges, l0, {(a, b)}, l2) && Forced(edges, l2, {(x, y)}, l3)
    requires forall r :: Congruent(edges, r) && Coarser(l1, r) ==> Joins(r, PairSet(pairs))
    ensures Coarser(l0, l3) && Coarser(l1, l3) && Forced(edges, l0, {(a, b)}, l3)
  {
  }

  /** A pending pair that the partition has joined is no longer pending. */
  lemma PairDone(store: Store, findMap: Labelling, edges: set<Edge>, pending: Pairs, pairs: seq<(Obj, Obj)>)
    requires Partition(store, findMap) && pairs != [] && Same(findMap, pairs[0].0, pairs[0].1)
    requires Complete(store, findMap, edges, pending + PairSet(pairs))
    ensures Complete(store, findMap, edges, pending + PairSet(pairs[1..]))
  {
  }

  lemma NoneLeft(pending: Pairs, pairs: seq<(Obj, Obj)>)
    requires pairs == []
    ensures pending + PairSet(pairs) == pending
  {
  }

  ghost predicate InfoKnown(info: FunctionInfo, objects: set<Obj>) {
    && (forall p :: p in info.parameters ==> p in objects)
    && (forall r :: r in info.returned ==> r in objects)
  }

  ghost predicate ArgumentsKnown(call: CallInfo, objects: set<Obj>) {
    forall i, a :: 0 <= i < |call.arguments| && a in call.arguments[i] ==> a in objects
  }

  /** Everything the program information refers to is known. */
  ghost predicate InformationKnown(functions: map<Obj, FuncName>, infos: map<FuncName, FunctionInfo>,
                                   calls: map<CallId, CallInfo>, parents: map<CallId, FuncName>, objects: set<Obj>)
  {
    && (forall f :: f in functions ==> f in objects && functions[f] in infos)
    && (forall n :: n in infos ==> InfoKnown(infos[n], objects))
    && (forall c :: c in calls ==> c in objects && c in parents && ArgumentsKnown(calls[c], objects))
  }

  /** Some of `pairs` have been merged since `before`, and `found` lists the meetings this caused. */
  ghost predicate Progress(functions: map<Obj, FuncName>, callInfo: map<CallId, CallInfo>, edges: set<Edge>,
                           before: Labelling, pairs: Pairs, after: Labelling, found: Meetings)
  {
    && Coarser(before, after)
    && Forced(edges, before, pairs, after)
    && OnlyMeetings(functions, callInfo, after, found)
    && AllNewMeetings(functions, callInfo, before, after, found)
  }

  lemma ProgressStep(functions: map<Obj, FuncName>, callInfo: map<CallId, CallInfo>, edges: set<Edge>,
                     l0: Labelling, pairs: Pairs, l1: Labelling, found: Meetings, more: Pairs, l2: Labelling,
                     foundMore: Meetings)
    requires Progress(functions, callInfo, edges, l0, pairs, l1, found)
    requires Progress(functions, callInfo, edges, l1, more, l2, foundMore)
    ensures Progress(functions, callInfo, edges, l0, pairs + more, l2, found + foundMore)
  {
  }

  lemma NoProgress(functions: map<Obj, FuncName>, callInfo: map<CallId, CallInfo>, edges: set<Edge>, l: Labelling)
    ensures Progress(functions, callInfo, edges, l, {}, l, []) && Joins(l, {})
  {
  }

  lemma ProgressJoins(functions: map<Obj, FuncName>, callInfo: map<CallId, CallInfo>, edges: set<Edge>,
                      l1: Labelling, l2: Labelling, found: Meetings, pairs: Pairs, more: Pairs)
    requires Progress(functions, callInfo, edges, l1, more, l2, found)
    requires Joins(l1, pairs) && Joins(l2, more)
    ensures Joins(l2, pairs + more)
  {
  }

  lemma NoArguments(arguments: seq<seq<Obj>>)
    ensures ArgumentPairs([], arguments) == {}
  {
  }

  lemma JoinMore(l1: Labelling, l2: Labelling, pairs: Pairs, more: Pairs)
    requires Coarser(l1, l2) && Joins(l1, pairs) && Joins(l2, more)
    ensures Joins(l2, pairs + more)
  {
  }

  // ---------------------------------------------------------------- resolving calls

  /** The program information that call resolution reads. */
  datatype Program = Program(edges: set<Edge>, functions: map<Obj, FuncName>, infos: map<FuncName, FunctionInfo>,
                             calls: map<CallId, CallInfo>)

  ghost predicate HasMeeting(prog: Program, l: Labelling, f: Obj, c: CallId) {
    Meets(prog.functions, prog.calls, l, f, c) && prog.functions[f] in prog.infos
  }

  ghost predicate Resolved(prog: Program, l: Labelling, f: Obj, c: CallId)
    requires f in prog.functions && prog.functions[f] in prog.infos && c in prog.calls
  {
    Joins(l, CallPairs(prog.infos[prog.functions[f]], prog.calls[c], c))
  }

  /** Closed under prefixes and under call resolution: whenever a call may reach a function, its
      actuals and its result are equivalent to the function's formals and returned objects. */
  ghost predicate Closed(prog: Program, l: Labelling) {
    && Congruent(prog.edges, l)
    && forall f, c :: HasMeeting(prog, l, f, c) ==> Resolved(prog, l, f, c)
  }

  /** Told by positions: equivalent objects have equivalent targets, and whenever a called object
      of a call is equivalent to a function, each formal is equivalent to the actuals at its
      position, and the call to what the function returns. */
  lemma ClosedMeans(prog: Program, l: Labelling)
    ensures Closed(prog, l)
            <==> (forall e, f | e in prog.edges && f in prog.edges && e.mem == f.mem && Same(l, e.source, f.source) ::
                    Same(l, e.target, f.target))
                 && forall f, c, o | f in prog.functions && prog.functions[f] in prog.infos && c in prog.calls
                                     && o in prog.calls[c].calledObjects && Same(l, f, o) ::
                      var info, call := prog.infos[prog.functions[f]], prog.calls[c];
                      (forall i, a | 0 <= i < |info.parameters| && i < |call.arguments| && a in call.arguments[i] ::
                         Same(l, info.parameters[i], a))
                      && forall r | r in info.returned :: Same(l, c, r)
  {
    hide Same, Joins, CallPairs;
    assert Congruent(prog.edges, l)
           <==> forall e, f | e in prog.edges && f in prog.edges && e.mem == f.mem && Same(l, e.source, f.source) ::
                  Same(l, e.target, f.target);
    hide Congruent;
    forall f, c | f in prog.functions && prog.functions[f] in prog.infos && c in prog.calls
      ensures var info, call := prog.infos[prog.functions[f]], prog.calls[c];
              Resolved(prog, l, f, c)
              <==> (forall i, a | 0 <= i < |info.parameters| && i < |call.arguments| && a in call.arguments[i] ::
                      Same(l, info.parameters[i], a))
                   && forall r | r in info.returned :: Same(l, c, r)
    {
      CallPairsJoined(l, prog.infos[prog.functions[f]], prog.calls[c], c);
    }
    hide Resolved;
    if Closed(prog, l) {
      forall f, c, o | f in prog.functions && prog.functions[f] in prog.infos && c in prog.calls
                       && o in prog.calls[c].calledObjects && Same(l, f, o)
        ensures Resolved(prog, l, f, c)
      {
        assert Calls(prog.calls, c, o);
        assert HasMeeting(prog, l, f, c);
      }
    }
  }

  /** Every closed equivalence above `before` is above `after`. */
  ghost predicate ForcedByCalls(prog: Program, before: Labelling, after: Labelling) {
    forall r :: Closed(prog, r) && Coarser(before, r) ==> Coarser(after, r)
  }

  /** `done` holds every meeting that arose since `before`, and all of `done` is resolved. */
  ghost predicate Drained(prog: Program, before: Labelling, after: Labelling, done: set<(Obj, CallId)>) {
    && (forall f, o, c :: f in prog.functions && Calls(prog.calls, c, o) && Same(after, f, o)
                          ==> Same(before, f, o) || (f, c) in done)
    && (forall f, c :: (f, c) in done ==> HasMeeting(prog, after, f, c) && Resolved(prog, after, f, c))
  }

  /** As Drained, with the meetings listed in `todo` still to be resolved. */
  ghost predicate Draining(prog: Program, before: Labelling, after: Labelling, done: set<(Obj, CallId)>,
                           todo: Meetings)
  {
    && (forall f, o, c :: f in prog.functions && Calls(prog.calls, c, o) && Same(after, f, o)
                          ==> Same(before, f, o) || (f, c) in done || (f, c) in todo)
    && (forall f, c :: (f, c) in done ==> HasMeeting(prog, after, f, c) && Resolved(prog, after, f, c))
    && (forall f, c :: (f, c) in todo ==> HasMeeting(prog, after, f, c))
  }

  /** As ForcedByCalls, for equivalences that also join the given pairs. */
  ghost predicate ForcedJoining(prog: Program, before: Labelling, pairs: Pairs, after: Labelling) {
    forall r :: Closed(prog, r) && Coarser(before, r) && Joins(r, pairs) ==> Coarser(after, r)
  }

  /** Every meeting is listed. */
  ghost predicate Saturated(prog: Program, l: Labelling, done: set<(Obj, CallId)>) {
    forall f, c :: HasMeeting(prog, l, f, c) ==> (f, c) in done
  }

  /** Once no meeting is missing, draining leaves none missing and the partition is closed. */
  lemma DrainedIsClosed(prog: Program, l0: Labelling, l1: Labelling, done0: set<(Obj, CallId)>,
                        done1: set<(Obj, CallId)>)
    requires Saturated(prog, l0, done0) && done0 <= done1
    requires Drained(prog, l0, l1, done1) && Congruent(prog.edges, l1)
    ensures Saturated(prog, l1, done1) && Closed(prog, l1)
  {
  }

  lemma MeetingStays(prog: Program, l: Labelling, l': Labelling, f: Obj, c: CallId)
    requires HasMeeting(prog, l, f, c) && Coarser(l, l')
    ensures HasMeeting(prog, l', f, c)
    ensures Resolved(prog, l, f, c) ==> Resolved(prog, l', f, c)
  {
  }

  /** The same by positions, with leastness. */
  lemma CallForced(functions: map<Obj, FuncName>, calls: map<CallId, CallInfo>, edges: set<Edge>, before: Labelling,
                   info: FunctionInfo, call: CallInfo, c: CallId, after: Labelling, found: Meetings)
    requires Progress(functions, calls, edges, before, CallPairs(info, call, c), after, found)
    requires Joins(after, CallPairs(info, call, c))
    ensures forall i, a | 0 <= i < |info.parameters| && i < |call.arguments| && a in call.arguments[i] ::
              Same(after, info.parameters[i], a)
    ensures forall r | r in info.returned :: Same(after, c, r)
    ensures forall l | Congruent(edges, l) && Coarser(before, l)
                       && (forall i, a | 0 <= i < |info.parameters| && i < |call.arguments| && a in call.arguments[i] ::
                             Same(l, info.parameters[i], a))
                       && (forall r | r in info.returned :: Same(l, c, r)) ::
              Coarser(after, l)
  {
    hide Joins, CallPairs, Congruent, Coarser, Same, OnlyMeetings, AllNewMeetings;
    CallPairsJoined(after, info, call, c);
    forall l | Congruent(edges, l) && Coarser(before, l)
               && (forall i, a | 0 <= i < |info.parameters| && i < |call.arguments| && a in call.arguments[i] ::
                     Same(l, info.parameters[i], a))
               && (forall r | r in info.returned :: Same(l, c, r))
      ensures Coarser(after, l)
    {
      CallPairsJoined(l, info, call, c);
    }
  }

  /** One call has been merged: it is resolved, and what it caused is the new work list. */
  lemma DrainStart(prog: Program, l0: Labelling, l1: Labelling, f: Obj, c: CallId, found: Meetings)
    requires HasMeeting(prog, l0, f, c)
    requires forall g :: g in prog.functions ==> prog.functions[g] in prog.infos
    requires Progress(prog.functions, prog.calls, prog.edges, l0,
                      CallPairs(prog.infos[prog.functions[f]], prog.calls[c], c), l1, found)
    requires Joins(l1, CallPairs(prog.infos[prog.functions[f]], prog.calls[c], c))
    ensures Draining(prog, l0, l1, {(f, c)}, found)
    ensures ForcedByCalls(prog, l0, l1) && Coarser(l0, l1)
  {
    MeetingStays(prog, l0, l1, f, c);
    forall g, d | (g, d) in found
      ensures HasMeeting(prog, l1, g, d)
    {
      assert Meets(prog.functions, prog.calls, l1, g, d);
    }
    forall r | Closed(prog, r) && Coarser(l0, r)
      ensures Coarser(l1, r)
    {
      MeetingStays(prog, l0, r, f, c);
    }
  }

  /** Draining the head of the work list, with everything that it causes in turn. */
  lemma DrainStep(prog: Program, l0: Labelling, l1: Labelling, done: set<(Obj, CallId)>, todo: Meetings,
                  l2: Labelling, more: set<(Obj, CallId)>)
    requires todo != [] && Draining(prog, l0, l1, done, todo)
    requires Drained(prog, l1, l2, more) && todo[0] in more
    requires Coarser(l0, l1) && Coarser(l1, l2)
    requires ForcedByCalls(prog, l0, l1) && ForcedByCalls(prog, l1, l2)
    ensures Draining(prog, l0, l2, done + more, todo[1..])
    ensures Coarser(l0, l2) && ForcedByCalls(prog, l0, l2)
  {
    forall f, c | (f, c) in done
      ensures HasMeeting(prog, l2, f, c) && Resolved(prog, l2, f, c)
    {
      MeetingStays(prog, l1, l2, f, c);
    }
    forall f, c | (f, c) in todo[1..]
      ensures HasMeeting(prog, l2, f, c)
    {
      assert (f, c) in todo;
      MeetingStays(prog, l1, l2, f, c);
    }
  }

  lemma DrainEnd(prog: Program, l0: Labelling, l1: Labelling, done: set<(Obj, CallId)>, todo: Meetings)
    requires Draining(prog, l0, l1, done, todo) && todo == []
    ensures Drained(prog, l0, l1, done)
  {
  }

  lemma HeadMeets(prog: Program, l0: Labelling, l1: Labelling, cache: set<(Obj, CallId)>, todo: Meetings)
    requires todo != [] && Draining(prog, l0, l1, cache, todo)
    ensures HasMeeting(prog, l1, todo[0].0, todo[0].1)
  {
  }

  lemma MeetingNames(prog: Program, l: Labelling, f: Obj, c: CallId)
    requires HasMeeting(prog, l, f, c)
    ensures f in prog.functions && c in prog.calls
  {
  }

  lemma ForcedMeans(edges: set<Edge>, before: Labelling, a: Obj, b: Obj, after: Labelling)
    requires Forced(edges, before, {(a, b)}, after)
    ensures forall l | Congruent(edges, l) && Coarser(before, l) && Same(l, a, b) :: Coarser(after, l)
  {
  }

  // ---------------------------------------------------------------- the container

  class EquivClassContainer {
    var equivClasses: seq<ClassId>
    var store: Store
    var nextId: ClassId
    var findMap: Labelling
    var functionMap: map<Obj, FuncName>
    var functionInfoMap: map<FuncName, FunctionInfo>
    var callInfoMap: map<CallId, CallInfo>
    var callExprParentMap: map<CallId, FuncName>
    var referencedInCalls: map<Obj, seq<CallId>>
    ghost var edges: set<Edge>

    /** The class list, the classes and the index agree, and the stored prefixes represent the
        prefix edges up to the pending pairs. */
    ghost predicate Core(pending: Pairs)
      reads this
    {
      && Distinct(equivClasses)
      && (forall c :: c in equivClasses <==> c in store)
      && (forall c :: c in store ==> c < nextId)
      && Partition(store, findMap)
      && Sound(store, edges)
      && Complete(store, findMap, edges, pending)
    }

    /** The empty container, which a whole-program merge starts from. */
    constructor ()
      ensures Valid({}) && ProgramKnown() && findMap == map[]
      ensures Prog() == Program({}, map[], map[], map[]) && callExprParentMap == map[]
    {
      equivClasses, store, nextId, findMap := [], map[], 0, map[];
      functionMap, functionInfoMap, callInfoMap, callExprParentMap := map[], map[], map[], map[];
      referencedInCalls, edges := map[], {};
    }

    constructor FromParts(equivClasses: seq<ClassId>, store: Store, nextId: ClassId, findMap: Labelling,
                          functionMap: map<Obj, FuncName>, infos: map<FuncName, FunctionInfo>,
                          calls: map<CallId, CallInfo>, parents: map<CallId, FuncName>, ghost edges: set<Edge>)
      ensures this.equivClasses == equivClasses && this.store == store && this.nextId == nextId
      ensures this.findMap == findMap && this.edges == edges && callExprParentMap == parents
      ensures functionMap == this.functionMap && functionInfoMap == infos && callInfoMap == calls
    {
      this.equivClasses, this.store, this.nextId, this.findMap := equivClasses, store, nextId, findMap;
      this.functionMap, functionInfoMap, callInfoMap, callExprParentMap := functionMap, infos, calls, parents;
      referencedInCalls := map[];
      this.edges := edges;
    }

    ghost predicate CallsIndexed()
      reads this
    {
      forall o, c :: o in referencedInCalls && c in referencedInCalls[o] <==> Calls(callInfoMap, c, o)
    }

    ghost predicate Valid(pending: Pairs)
      reads this
    {
      Core(pending) && Known(store, findMap.Keys) && CallsIndexed()
    }

    method InitReferencedInCalls()
      modifies this`referencedInCalls
      ensures CallsIndexed()
    {
      referencedInCalls := map[];
      var rest := callInfoMap.Keys;
      while rest != {}
        invariant rest <= callInfoMap.Keys
        invariant forall o, c :: o in referencedInCalls && c in referencedInCalls[o]
                                 <==> Calls(callInfoMap, c, o) && c !in rest
        decreases rest
      {
        var call :| call in rest;
        var refs := callInfoMap[call].calledObjects;
        for i := 0 to |refs|
          invariant forall o, c :: o in referencedInCalls && c in referencedInCalls[o]
                                   <==> (Calls(callInfoMap, c, o) && c !in rest) || (c == call && o in refs[..i])
        {
          var ref := refs[i];
          assert refs[..i + 1] == refs[..i] + [ref];
          referencedInCalls := referencedInCalls[ref :=
            (if ref in referencedInCalls then referencedInCalls[ref] else []) + [call]];
        }
        assert refs[..|refs|] == refs;
        rest := rest - {call};
      }
    }

    /** Joins the classes `e1` and `e2`; the pairs returned still have to be merged. */
    method Merge(e1: ClassId, e2: ClassId, ghost pending: Pairs, ghost a: Obj, ghost b: Obj,
                 ghost objects: set<Obj>)
      returns (front: Obj, objectsToMerge: seq<(Obj, Obj)>)
      requires Core(pending) && Known(store, objects) && e1 in store && e2 in store && e1 != e2
      requires a in store[e1].objects && b in store[e2].objects
      modifies this`equivClasses, this`store, this`nextId, this`findMap
      ensures Core(pending + PairSet(objectsToMerge))
      ensures findMap.Keys == old(findMap.Keys) && |store| == old(|store|) - 1
      ensures front in findMap && Same(findMap, front, a)
      ensures Coarser(old(findMap), findMap) && Same(findMap, a, b)
      ensures forall x, y :: Same(findMap, x, y) ==> Same(old(findMap), x, y) || Same(findMap, x, a)
      ensures Forced(edges, old(findMap), {(a, b)}, findMap)
      ensures forall r :: Congruent(edges, r) && Coarser(findMap, r) ==> Joins(r, PairSet(objectsToMerge))
      ensures Known(store, objects) && forall p :: p in objectsToMerge ==> p.0 in objects && p.1 in objects
    {
      hide Partition, Sound, Complete, Known, PrefixesMerged, Congruent, Coarser, Joins, Forced;
      hide Distinct, MergedStore, MergedList, Relabel;
      ghost var prefixes, iter;
      ghost var store0, findMap0, list0 := store, findMap, equivClasses;
      ClassObjects(store, findMap, e1, e2, a, b);
      front, objectsToMerge, prefixes, iter := Splice(e1, e2);
      MergedListContents(list0, store0, e1, e2, iter, prefixes);
      MergeStep(store0, findMap0, edges, pending, e1, e2, iter, prefixes, objectsToMerge, a, b);
      MergeKeepsKnown(store0, objects, e1, e2, iter, prefixes, objectsToMerge);
    }

    /** The update itself: what Merge does to the class list, the classes and the index. */
    method Splice(e1: ClassId, e2: ClassId)
      returns (front: Obj, objectsToMerge: seq<(Obj, Obj)>, ghost prefixes: seq<Prefix>, ghost iter: ClassId)
      requires Partition(store, findMap) && e1 in store && e2 in store && nextId !in store
      modifies this`equivClasses, this`store, this`nextId, this`findMap
      ensures iter == old(nextId) && nextId == iter + 1
      ensures PrefixesMerged(old(store)[e1].prefixes, old(store)[e2].prefixes, prefixes, objectsToMerge)
      ensures store == MergedStore(old(store), e1, e2, iter, prefixes)
      ensures findMap == Relabel(old(findMap), e1, e2, iter)
      ensures equivClasses == MergedList(old(equivClasses), e1, e2, iter)
      ensures front == old(store)[e1].objects[0]
    {
      var c1, c2 := store[e1], store[e2];
      ghost var store0, findMap0 := store, findMap;
      ClassObjects(store, findMap, e1, e2, c1.objects[0], c2.objects[0]);
      hide Partition, PrefixesMerged, Relabel, Erase;
      var merged;
      merged, objectsToMerge := GetPrefixesToMerge(c1.prefixes, c2.prefixes);
      prefixes, iter := merged, nextId;
      store := store[nextId := EquivClass(c1.objects + c2.objects, merged)];
      equivClasses := equivClasses + [nextId];
      Reassign(c1.objects, nextId);
      Reassign(c2.objects, nextId);
      ReassignedIsRelabelled(store0, findMap0, e1, e2, nextId, c1.objects, c2.objects);
      equivClasses := Erase(Erase(equivClasses, e1), e2);
      store := store - {e1, e2};
      // The class went in before its prefixes are sorted and made unique: duplicates stay in it.
      front := (c1.objects + c2.objects)[0];
      nextId := nextId + 1;
    }

    method Reassign(objects: seq<Obj>, iter: ClassId)
      requires forall o :: o in objects ==> o in findMap
      modifies this`findMap
      ensures findMap == Reassigned(old(findMap), objects, iter)
    {
      for i := 0 to |objects|
        invariant findMap == Reassigned(old(findMap), objects[..i], iter)
      {
        assert objects[..i + 1] == objects[..i] + [objects[i]];
        findMap := findMap[objects[i] := iter];
      }
      assert objects[..|objects|] == objects;
    }

    /** Adds every pair of a function and a call whose called object lie in one class. */
    method GetFunctionsToMerge(found: Meetings, e: ClassId) returns (ret: Meetings)
      requires Partition(store, findMap) && CallsIndexed() && e in store
      ensures found <= ret
      ensures OnlyMeetings(functionMap, callInfoMap, findMap, found) ==>
                OnlyMeetings(functionMap, callInfoMap, findMap, ret)
      ensures ClassSearched(store[e].objects, functionMap, callInfoMap, ret)
    {
      var objects := store[e].objects;
      var functionDecls: seq<Obj>, usedInCall: seq<CallId> := [], [];
      for i := 0 to |objects|
        invariant forall f :: f in functionDecls <==> f in objects[..i] && f in functionMap
        invariant forall c :: c in usedInCall ==> exists o :: o in objects[..i] && Calls(callInfoMap, c, o)
        invariant forall o, c :: o in objects[..i] && Calls(callInfoMap, c, o) ==> c in usedInCall
      {
        var obj := objects[i];
        assert objects[..i + 1] == objects[..i] + [obj];
        ghost var used0 := usedInCall;
        if obj in functionMap {
          functionDecls := functionDecls + [obj];
        }
        if obj in referencedInCalls {
          usedInCall := usedInCall + referencedInCalls[obj];
        }
        forall c | c in usedInCall
          ensures exists o :: o in objects[..i + 1] && Calls(callInfoMap, c, o)
        {
          if c in used0 {
            var o :| o in objects[..i] && Calls(callInfoMap, c, o);
            assert o in objects[..i + 1];
          } else {
            assert obj in objects[..i + 1] && Calls(callInfoMap, c, obj);
          }
        }
      }
      assert objects[..|objects|] == objects;
      forall f, c | f in functionDecls && c in usedInCall
        ensures Meets(functionMap, callInfoMap, findMap, f, c)
      {
        var o :| o in objects && Calls(callInfoMap, c, o);
        assert Same(findMap, f, o);
      }
      ret := Product(found, functionDecls, usedInCall);
    }

    static method Product(found: Meetings, functions: seq<Obj>, calls: seq<CallId>) returns (ret: Meetings)
      ensures found <= ret
      ensures forall f, c :: (f, c) in ret <==> (f, c) in found || (f in functions && c in calls)
    {
      ret := found;
      for i := 0 to |functions|
        invariant found <= ret
        invariant forall f, c :: (f, c) in ret <==> (f, c) in found || (f in functions[..i] && c in calls)
      {
        assert functions[..i + 1] == functions[..i] + [functions[i]];
        for j := 0 to |calls|
          invariant found <= ret
          invariant forall f, c :: (f, c) in ret <==> (f, c) in found || (f in functions[..i] && c in calls)
                                                      || (f == functions[i] && c in calls[..j])
        {
          assert calls[..j + 1] == calls[..j] + [calls[j]];
          ret := ret + [(functions[i], calls[j])];
        }
        assert calls[..|calls|] == calls;
      }
      assert functions[..|functions|] == functions;
    }

    /** Merges two classes and then, recursively, the targets that conflicted.  On return the
        partition is the least congruence above the old one that joins `a` and `b` -- up to the
        pairs that were already pending -- and `ret` lists the meetings that arose. */
    method MergeRecursive(e1: ClassId, e2: ClassId, ghost pending: Pairs, ghost a: Obj, ghost b: Obj)
      returns (ret: Meetings)
      requires Valid(pending) && e1 in store && e2 in store && e1 != e2
      requires a in store[e1].objects && b in store[e2].objects
      modifies this`equivClasses, this`store, this`nextId, this`findMap
      ensures Valid(pending) && findMap.Keys == old(findMap.Keys) && |store| < old(|store|)
      ensures Coarser(old(findMap), findMap) && Same(findMap, a, b)
      ensures Forced(edges, old(findMap), {(a, b)}, findMap)
      ensures forall l | Congruent(edges, l) && Coarser(old(findMap), l) && Same(l, a, b) :: Coarser(findMap, l)
      ensures pending == {} ==> Congruent(edges, findMap)
      ensures OnlyMeetings(functionMap, callInfoMap, findMap, ret)
      ensures AllNewMeetings(functionMap, callInfoMap, old(findMap), findMap, ret)
      decreases |store|
    {
      hide Partition, Sound, Complete, Known, Congruent, Coarser, Joins, Forced, OnlyMeetings, NewMeetingsBut,
        AllNewMeetings, Distinct;
      ghost var findMap0 := findMap;
      var front, objectsToMerge := Merge(e1, e2, pending, a, b, findMap.Keys);
      ghost var findMap1 := findMap;
      ret := [];
      NoMeetingsYet(functionMap, callInfoMap, findMap0, findMap, a, front);
      assert objectsToMerge[0..] == objectsToMerge;
      for i := 0 to |objectsToMerge|
        invariant Valid(pending + PairSet(objectsToMerge[i..]))
        invariant findMap.Keys == findMap0.Keys && |store| < old(|store|)
        invariant Coarser(findMap0, findMap) && Coarser(findMap1, findMap)
        invariant Forced(edges, findMap0, {(a, b)}, findMap)
        invariant OnlyMeetings(functionMap, callInfoMap, findMap, ret)
        invariant NewMeetingsBut(functionMap, callInfoMap, findMap0, findMap, ret, front)
      {
        var (x, y) := objectsToMerge[i];
        assert objectsToMerge[i] in objectsToMerge;
        ghost var findMap2, ret2 := findMap, ret;
        ghost var rest := pending + PairSet(objectsToMerge[i..]);
        if findMap[x] != findMap[y] {
          ClassOf(store, findMap, x);
          ClassOf(store, findMap, y);
          var tmp := MergeRecursive(findMap[x], findMap[y], rest, x, y);
          ret := ret + tmp;
          RecursionStep(edges, findMap0, findMap1, findMap2, findMap, a, b, objectsToMerge, x, y);
          MeetingsChain(functionMap, callInfoMap, findMap0, findMap2, findMap, ret2, tmp, front);
        }
        PairDone(store, findMap, edges, pending, objectsToMerge[i..]);
        assert objectsToMerge[i..][1..] == objectsToMerge[i + 1..];
      }
      NoneLeft(pending, objectsToMerge[|objectsToMerge|..]);
      if pending == {} {
        CompleteIsCongruent(store, findMap, edges);
      }
      JoinedStays(findMap1, findMap, a, b);
      ClassOf(store, findMap, front);
      ghost var ret3 := ret;
      ret := GetFunctionsToMerge(ret, findMap[front]);
      FrontDone(store, findMap, functionMap, callInfoMap, findMap0, ret3, ret, front);
      ForcedMeans(edges, findMap0, a, b, findMap);
    }

    /** The look-up, comparison and merge that every caller of MergeRecursive performs. */
    method Unify(a: Obj, b: Obj, ghost pending: Pairs) returns (ret: Meetings)
      requires Valid(pending) && a in findMap && b in findMap
      modifies this`equivClasses, this`store, this`nextId, this`findMap
      ensures Valid(pending) && findMap.Keys == old(findMap.Keys)
      ensures if ret == [] then |store| <= old(|store|) else |store| < old(|store|)
      ensures Coarser(old(findMap), findMap)
      ensures Progress(functionMap, callInfoMap, edges, old(findMap), {(a, b)}, findMap, ret)
      ensures Joins(findMap, {(a, b)})
    {
      ret := [];
      if findMap[a] != findMap[b] {
        ret := MergeRecursive(findMap[a], findMap[b], pending, a, b);
      }
    }

    /** Everything the program information refers to has an equivalence class. */
    ghost predicate ProgramKnown()
      reads this
    {
      InformationKnown(functionMap, functionInfoMap, callInfoMap, callExprParentMap, findMap.Keys)
    }

    /** Merges the class of `a` with that of every object listed. */
    method UnifyAll(a: Obj, objects: seq<Obj>) returns (ret: Meetings)
      requires Valid({}) && (objects != [] ==> a in findMap) && forall r :: r in objects ==> r in findMap
      modifies this`equivClasses, this`store, this`nextId, this`findMap
      ensures Valid({}) && findMap.Keys == old(findMap.Keys)
      ensures if ret == [] then |store| <= old(|store|) else |store| < old(|store|)
      ensures Progress(functionMap, callInfoMap, edges, old(findMap), PairsWith(a, objects), findMap, ret)
      ensures Joins(findMap, PairsWith(a, objects))
    {
      hide Partition, Sound, Complete, Known, Joins, Progress, CallsIndexed, Distinct;
      ghost var findMap0 := findMap;
      ret := [];
      NoProgress(functionMap, callInfoMap, edges, findMap);
      assert PairsWith(a, objects[..0]) == {};
      for i := 0 to |objects|
        invariant Valid({}) && findMap.Keys == findMap0.Keys
        invariant if ret == [] then |store| <= old(|store|) else |store| < old(|store|)
        invariant Progress(functionMap, callInfoMap, edges, findMap0, PairsWith(a, objects[..i]), findMap, ret)
        invariant Joins(findMap, PairsWith(a, objects[..i]))
      {
        ghost var findMap1, ret1 := findMap, ret;
        var tmp := Unify(a, objects[i], {});
        ret := ret + tmp;
        ProgressStep(functionMap, callInfoMap, edges, findMap0, PairsWith(a, objects[..i]), findMap1, ret1,
                     {(a, objects[i])}, findMap, tmp);
        JoinMore(findMap1, findMap, PairsWith(a, objects[..i]), {(a, objects[i])});
        assert PairsWith(a, objects[..i + 1]) == PairsWith(a, objects[..i]) + {(a, objects[i])} by {
          assert objects[..i + 1] == objects[..i] + [objects[i]];
        }
      }
      assert objects[..|objects|] == objects;
    }

    /** Makes formals equivalent to actuals and the call to what the function returns. */
    method MergeFunctionCallImpl(calledFunctionName: FuncName, ci: CallInfo, callExprUSR: CallId)
      returns (ret: Meetings)
      requires Valid({}) && calledFunctionName in functionInfoMap
      requires InfoKnown(functionInfoMap[calledFunctionName], findMap.Keys) && ArgumentsKnown(ci, findMap.Keys)
      requires functionInfoMap[calledFunctionName].returned != [] ==> callExprUSR in findMap
      modifies this`equivClasses, this`store, this`nextId, this`findMap
      ensures Valid({}) && findMap.Keys == old(findMap.Keys)
      ensures if ret == [] then |store| <= old(|store|) else |store| < old(|store|)
      ensures Progress(functionMap, callInfoMap, edges, old(findMap),
                       CallPairs(functionInfoMap[calledFunctionName], ci, callExprUSR), findMap, ret)
      ensures Joins(findMap, CallPairs(functionInfoMap[calledFunctionName], ci, callExprUSR))
      ensures var info := functionInfoMap[calledFunctionName];
              (forall i, a | 0 <= i < |info.parameters| && i < |ci.arguments| && a in ci.arguments[i] ::
                 Same(findMap, info.parameters[i], a))
              && (forall r | r in info.returned :: Same(findMap, callExprUSR, r))
              && forall l |
                   Congruent(edges, l) && Coarser(old(findMap), l)
                   && (forall i, a | 0 <= i < |info.parameters| && i < |ci.arguments| && a in ci.arguments[i] ::
                         Same(l, info.parameters[i], a))
                   && (forall r | r in info.returned :: Same(l, callExprUSR, r)) ::
                   Coarser(findMap, l)
    {
      hide Partition, Sound, Complete, Known, Joins, Progress, CallsIndexed, Distinct, ArgumentPairs, PairsWith;
      var calledFunction := functionInfoMap[calledFunctionName];
      var parameters := calledFunction.parameters;
      ghost var findMap0 := findMap;
      ret := [];
      NoProgress(functionMap, callInfoMap, edges, findMap);
      NoArguments(ci.arguments);
      for i := 0 to |parameters|
        invariant Valid({}) && findMap.Keys == findMap0.Keys
        invariant if ret == [] then |store| <= old(|store|) else |store| < old(|store|)
        invariant Progress(functionMap, callInfoMap, edges, findMap0, ArgumentPairs(parameters[..i], ci.arguments),
                           findMap, ret)
        invariant Joins(findMap, ArgumentPairs(parameters[..i], ci.arguments))
      {
        // A formal without an actual is reported and skipped.
        var rhs := if i < |ci.arguments| then ci.arguments[i] else [];
        ghost var findMap1, ret1 := findMap, ret;
        var tmp := UnifyAll(parameters[i], rhs);
        ret := ret + tmp;
        NextArgument(parameters, ci.arguments, i);
        ProgressStep(functionMap, callInfoMap, edges, findMap0, ArgumentPairs(parameters[..i], ci.arguments),
                     findMap1, ret1, PairsWith(parameters[i], rhs), findMap, tmp);
        ProgressJoins(functionMap, callInfoMap, edges, findMap1, findMap, tmp,
                      ArgumentPairs(parameters[..i], ci.arguments), PairsWith(parameters[i], rhs));
      }
      assert parameters[..|parameters|] == parameters;
      ghost var findMap1, ret1 := findMap, ret;
      var tmp := UnifyAll(callExprUSR, calledFunction.returned);
      ret := ret + tmp;
      ProgressStep(functionMap, callInfoMap, edges, findMap0, ArgumentPairs(parameters, ci.arguments),
                   findMap1, ret1, PairsWith(callExprUSR, calledFunction.returned), findMap, tmp);
      ProgressJoins(functionMap, callInfoMap, edges, findMap1, findMap, tmp,
                    ArgumentPairs(parameters, ci.arguments), PairsWith(callExprUSR, calledFunction.returned));
      CallForced(functionMap, callInfoMap, edges, findMap0, calledFunction, ci, callExprUSR, findMap, ret);
    }

    ghost function Prog(): Program
      reads this
    {
      Program(edges, functionMap, functionInfoMap, callInfoMap)
    }

    /** Resolves one call to one function; also names the calling and the called function. */
    method MergeFunctionCall(calledObj: Obj, ce: CallId)
      returns (ret: Meetings, callingFunctionName: FuncName, calledFunctionName: FuncName)
      requires Valid({}) && ProgramKnown() && HasMeeting(Prog(), findMap, calledObj, ce)
      modifies this`equivClasses, this`store, this`nextId, this`findMap
      ensures Valid({}) && ProgramKnown() && findMap.Keys == old(findMap.Keys) && Prog() == old(Prog())
      ensures if ret == [] then |store| <= old(|store|) else |store| < old(|store|)
      ensures Draining(Prog(), old(findMap), findMap, {(calledObj, ce)}, ret)
      ensures Coarser(old(findMap), findMap) && ForcedByCalls(Prog(), old(findMap), findMap)
      ensures callingFunctionName == callExprParentMap[ce] && calledFunctionName == functionMap[calledObj]
    {
      calledFunctionName := functionMap[calledObj];
      callingFunctionName := callExprParentMap[ce];
      ghost var findMap0 := findMap;
      ret := MergeFunctionCallImpl(calledFunctionName, callInfoMap[ce], ce);
      DrainStart(Prog(), findMap0, findMap, calledObj, ce, ret);
    }
  }
}
