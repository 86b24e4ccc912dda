/**
 Absorbing one equivalence class of a second file (the class loop of mergeEquivalenceClasses
 in cgcollector/tools/CGMerge.cpp).

 The class is either new as a whole, or overlaps one class, or overlaps several, which are
 then joined first.  Its objects and prefixes are added to the class it overlaps.
 */
module Absorb {
  import opened Labellings
  import opened Lists
  import opened AliasAnalysis

  // ---------------------------------------------------------------- sorted vectors as sets

  predicate StringLess(a: string, b: string) {
    b != [] && (a == [] || a[0] < b[0] || (a[0] == b[0] && StringLess(a[1..], b[1..])))
  }

  /** The order of prefixes: by object, then by member, with dereferences last. */
  predicate PrefixLess(a: Prefix, b: Prefix) {
    if StringLess(a.obj, b.obj) then true
    else if StringLess(b.obj, a.obj) then false
    else if a.mem != "" && b.mem != "" then StringLess(a.mem, b.mem)
    else a.mem != ""
  }

  /** Strings are compared at the first character where they differ; a prefix comes first. */
  lemma {:induction false} StringLessMeans(a: string, b: string)
    ensures StringLess(a, b)
            <==> exists k :: 0 <= k <= |a| && k < |b| && a[..k] == b[..k] && (k == |a| || a[k] < b[k])
  {
    if StringLess(a, b) {
      if a == [] || a[0] < b[0] {
        assert a[..0] == b[..0];
      } else {
        StringLessMeans(a[1..], b[1..]);
        var k :| 0 <= k <= |a[1..]| && k < |b[1..]| && a[1..][..k] == b[1..][..k]
                 && (k == |a[1..]| || a[1..][k] < b[1..][k]);
        assert a[..k + 1] == [a[0]] + a[1..][..k] && b[..k + 1] == [b[0]] + b[1..][..k];
      }
    }
    if k :| 0 <= k <= |a| && k < |b| && a[..k] == b[..k] && (k == |a| || a[k] < b[k]) {
      if k > 0 {
        StringLessMeans(a[1..], b[1..]);
        assert a[0] == a[..k][0] == b[..k][0] == b[0];
        assert a[1..][..k - 1] == a[..k][1..] == b[..k][1..] == b[1..][..k - 1];
      }
    }
  }

  function InsertUnique<T(==,!new)>(s: seq<T>, x: T, less: (T, T) -> bool): (r: seq<T>)
    ensures forall y :: y in r <==> y == x || y in s
  {
    if s == [] then [x]
    else if s[0] == x then s
    else if less(x, s[0]) then [x] + s
    else
      assert forall y :: y in s <==> y == s[0] || y in s[1..];
      [s[0]] + InsertUnique(s[1..], x, less)
  }

  /** std::sort followed by std::unique and erase. */
  function SortUnique<T(==,!new)>(s: seq<T>, less: (T, T) -> bool): (r: seq<T>)
    ensures forall y :: y in r <==> y in s
  {
    if s == [] then []
    else
      assert forall y :: y in s <==> y == s[0] || y in s[1..];
      InsertUnique(SortUnique(s[1..], less), s[0], less)
  }

  ghost predicate TotalOrder<T(!new)>(less: (T, T) -> bool) {
    && (forall a, b :: less(a, b) ==> !less(b, a))
    && (forall a, b :: a == b || less(a, b) || less(b, a))
    && (forall a, b, c :: less(a, b) && less(b, c) ==> less(a, c))
  }

  /** Every element comes before all later ones; in particular, none comes twice. */
  ghost predicate Ascending<T(!new)>(s: seq<T>, less: (T, T) -> bool) {
    forall i, j :: 0 <= i < j < |s| ==> less(s[i], s[j])
  }

  lemma {:induction false} InsertedAscending<T(!new)>(s: seq<T>, x: T, less: (T, T) -> bool)
    requires TotalOrder(less) && Ascending(s, less)
    ensures Ascending(InsertUnique(s, x, less), less)
  {
    if s == [] || s[0] == x || less(x, s[0]) {
      assert forall i :: 0 < i < |s| ==> less(s[0], s[i]);
    } else {
      var rest := InsertUnique(s[1..], x, less);
      InsertedAscending(s[1..], x, less);
      assert less(s[0], x);
      forall y | y in rest
        ensures less(s[0], y)
      {
        assert y == x || y in s[1..];
      }
      assert forall i :: 0 <= i < |rest| ==> rest[i] in rest;
    }
  }

  /** Under a total order the result is sorted, and without duplicates. */
  lemma {:induction false} SortUniqueAscending<T(!new)>(s: seq<T>, less: (T, T) -> bool)
    requires TotalOrder(less)
    ensures Ascending(SortUnique(s, less), less)
  {
    if s != [] {
      SortUniqueAscending(s[1..], less);
      InsertedAscending(SortUnique(s[1..], less), s[0], less);
    }
  }

  lemma {:induction false} StringsCompared(a: string, b: string)
    ensures StringLess(a, b) ==> !StringLess(b, a)
    ensures a == b || StringLess(a, b) || StringLess(b, a)
  {
    if a != [] && b != [] && a[0] == b[0] {
      StringsCompared(a[1..], b[1..]);
      assert a == [a[0]] + a[1..] && b == [b[0]] + b[1..];
    }
  }

  lemma {:induction false} StringsChained(a: string, b: string, c: string)
    requires StringLess(a, b) && StringLess(b, c)
    ensures StringLess(a, c)
  {
    if a != [] && a[0] == b[0] && b[0] == c[0] {
      StringsChained(a[1..], b[1..], c[1..]);
    }
  }

  lemma StringOrderIsTotal()
    ensures TotalOrder((a: string, b: string) => StringLess(a, b))
  {
    hide StringLess;
    forall a: string, b: string
      ensures StringLess(a, b) ==> !StringLess(b, a)
      ensures a == b || StringLess(a, b) || StringLess(b, a)
    {
      StringsCompared(a, b);
    }
    forall a: string, b: string, c: string | StringLess(a, b) && StringLess(b, c)
      ensures StringLess(a, c)
    {
      StringsChained(a, b, c);
    }
  }

  lemma PrefixesCompared(a: Prefix, b: Prefix)
    ensures PrefixLess(a, b) ==> !PrefixLess(b, a)
    ensures a == b || PrefixLess(a, b) || PrefixLess(b, a)
  {
    StringsCompared(a.obj, b.obj);
    StringsCompared(a.mem, b.mem);
  }

  lemma PrefixesChained(a: Prefix, b: Prefix, c: Prefix)
    requires PrefixLess(a, b) && PrefixLess(b, c)
    ensures PrefixLess(a, c)
  {
    hide StringLess;
    StringsCompared(a.obj, b.obj);
    StringsCompared(b.obj, c.obj);
    StringsCompared(a.obj, c.obj);
    if StringLess(a.obj, b.obj) && StringLess(b.obj, c.obj) {
      StringsChained(a.obj, b.obj, c.obj);
    } else if a.obj == b.obj == c.obj && c.mem != "" {
      StringsChained(a.mem, b.mem, c.mem);
    }
  }

  lemma PrefixOrderIsTotal()
    ensures TotalOrder((a: Prefix, b: Prefix) => PrefixLess(a, b))
  {
    hide PrefixLess;
    forall a: Prefix, b: Prefix
      ensures PrefixLess(a, b) ==> !PrefixLess(b, a)
      ensures a == b || PrefixLess(a, b) || PrefixLess(b, a)
    {
      PrefixesCompared(a, b);
    }
    forall a: Prefix, b: Prefix, c: Prefix | PrefixLess(a, b) && PrefixLess(b, c)
      ensures PrefixLess(a, c)
    {
      PrefixesChained(a, b, c);
    }
  }

  // ---------------------------------------------------------------- values

  ghost predicate AllSame(l: Labelling, objects: seq<Obj>) {
    forall x, y :: x in objects && y in objects ==> Same(l, x, y)
  }

  /** The prefix edges a stored class stands for: every prefix holds of every object. */
  function ClassEdges(cls: EquivClass): set<Edge> {
    set o, p | o in cls.objects && p in cls.prefixes :: Edge(o, p.mem, p.obj)
  }

  function IndexNew(l: Labelling, objects: seq<Obj>, e: ClassId): Labelling {
    map o | o in l.Keys + (set x | x in objects) :: if o in l then l[o] else e
  }

  lemma ExtendLabels(l: Labelling, objects: seq<Obj>, e: ClassId)
    requires forall o :: o in objects && o in l ==> l[o] == e
    ensures Coarser(l, IndexNew(l, objects, e)) && AllSame(IndexNew(l, objects, e), objects)
    ensures (exists o :: o in objects && o in l) || (forall o :: o in l ==> l[o] != e) ==>
              forall r :: Coarser(l, r) && AllSame(r, objects) ==> Coarser(IndexNew(l, objects, e), r)
  {
    var m := IndexNew(l, objects, e);
    if (exists o :: o in objects && o in l) || (forall o :: o in l ==> l[o] != e) {
      forall r | Coarser(l, r) && AllSame(r, objects)
        ensures Coarser(m, r)
      {
        ExtendedIsLeast(l, objects, e, r);
      }
    }
  }

  lemma ExtendedIsLeast(l: Labelling, objects: seq<Obj>, e: ClassId, r: Labelling)
    requires forall o :: o in objects && o in l ==> l[o] == e
    requires (exists o :: o in objects && o in l) || (forall o :: o in l ==> l[o] != e)
    requires Coarser(l, r) && AllSame(r, objects)
    ensures Coarser(IndexNew(l, objects, e), r)
  {
    var m := IndexNew(l, objects, e);
    forall x, y | Same(m, x, y)
      ensures Same(r, x, y)
    {
      if x != y && !Same(l, x, y) && !(x in objects && y in objects) {
        var a :| a in objects && a in l;
        assert x in l ==> m[x] == l[x];
        assert y in l ==> m[y] == l[y];
        assert x in objects ==> Same(r, x, a);
        assert y in objects ==> Same(r, y, a);
        assert x !in objects ==> x in l && Same(l, x, a);
        assert y !in objects ==> y in l && Same(l, y, a);
      }
    }
  }

  /** What absorbing `cls` means for the partition: its objects are joined, its prefixes are
      represented up to the queued pairs, and nothing is joined without need. */
  ghost predicate Absorbed(edges: set<Edge>, before: Labelling, cls: EquivClass, after: Labelling, queued: Pairs) {
    && after.Keys == before.Keys + (set o | o in cls.objects)
    && Coarser(before, after) && AllSame(after, cls.objects)
    && (forall r :: Congruent(edges, r) && Coarser(before, r) && AllSame(r, cls.objects)
                    ==> Coarser(after, r) && Joins(r, queued))
  }

  /** A new class, all of whose objects are new. */
  lemma InsertStep(store: Store, findMap: Labelling, edges: set<Edge>, pending: Pairs, id: ClassId, cls: EquivClass)
    requires Partition(store, findMap) && Sound(store, edges) && Complete(store, findMap, edges, pending)
    requires id !in store && cls.objects != [] && Functional(cls.prefixes)
    requires forall o :: o in cls.objects ==> o !in findMap
    ensures var store' := store[id := cls];
            var findMap' := IndexNew(findMap, cls.objects, id);
            && Partition(store', findMap')
            && Sound(store', edges + ClassEdges(cls))
            && Complete(store', findMap', edges + ClassEdges(cls), pending)
            && Absorbed(edges + ClassEdges(cls), findMap, cls, findMap', {})
  {
    var store', findMap' := store[id := cls], IndexNew(findMap, cls.objects, id);
    ExtendLabels(findMap, cls.objects, id);
    ClassTraced(cls.objects, cls, edges + ClassEdges(cls));
    forall c, p | c in store' && p in store'[c].prefixes
      ensures Traced(store'[c].objects, p, edges + ClassEdges(cls))
    {
      if c != id {
        assert Traced(store[c].objects, p, edges);
        TracedMore(store[c].objects, p, edges, edges + ClassEdges(cls));
      }
    }
    forall l, e | e in edges + ClassEdges(cls) && Coarser(findMap', l) && Joins(l, pending)
      ensures HasPrefix(store'[findMap'[e.source]].prefixes, l, e)
    {
      assert Coarser(findMap, l);
      if e in edges {
        assert HasPrefix(store[findMap[e.source]].prefixes, l, e);
      } else {
        var o, p :| o in cls.objects && p in cls.prefixes && e == Edge(o, p.mem, p.obj);
        assert p.mem == e.mem && Same(l, p.obj, e.target);
      }
    }
  }

  lemma ClassTraced(objects: seq<Obj>, cls: EquivClass, edges: set<Edge>)
    requires ClassEdges(cls) <= edges && cls.objects != []
    requires forall o :: o in cls.objects ==> o in objects
    ensures forall p :: p in cls.prefixes ==> Traced(objects, p, edges)
  {
    forall p | p in cls.prefixes
      ensures Traced(objects, p, edges)
    {
      var o := cls.objects[0];
      assert o in cls.objects && Edge(o, p.mem, p.obj) in ClassEdges(cls);
    }
  }

  lemma TracedMore(objects: seq<Obj>, p: Prefix, edges: set<Edge>, more: set<Edge>)
    requires Traced(objects, p, edges) && edges <= more
    ensures Traced(objects, p, more)
  {
  }

  /** What adding `cls` to the class `e` makes of it. */
  datatype Extension = Extension(e: ClassId, objects: seq<Obj>, prefixes: seq<Prefix>, out: seq<Prefix>,
                                 pairs: seq<(Obj, Obj)>)

  ghost predicate Extends(store: Store, findMap: Labelling, cls: EquivClass, x: Extension) {
    && x.e in store && cls.objects != []
    && (forall o :: o in cls.objects && o in findMap ==> findMap[o] == x.e)
    && (forall o :: o in x.objects <==> o in store[x.e].objects || o in cls.objects)
    && PrefixesMerged(store[x.e].prefixes, cls.prefixes, x.out, x.pairs)
    && (forall p :: p in x.prefixes <==> p in x.out)
  }

  function ExtendedStore(store: Store, x: Extension): Store {
    store[x.e := EquivClass(x.objects, x.prefixes)]
  }

  lemma ExtendPartition(store: Store, findMap: Labelling, cls: EquivClass, x: Extension)
    requires Partition(store, findMap) && Extends(store, findMap, cls, x)
    ensures Partition(ExtendedStore(store, x), IndexNew(findMap, cls.objects, x.e))
  {
    var store' := ExtendedStore(store, x);
    assert store[x.e].objects[0] in store[x.e].objects;
    assert store[x.e].objects[0] in x.objects;
    assert Functional(x.prefixes);
    assert forall c :: c in store' && c != x.e ==> store'[c] == store[c];
  }

  lemma ExtendSound(store: Store, findMap: Labelling, edges: set<Edge>, cls: EquivClass, x: Extension)
    requires Sound(store, edges) && Extends(store, findMap, cls, x)
    ensures Sound(ExtendedStore(store, x), edges + ClassEdges(cls))
    ensures forall p :: p in store[x.e].prefixes ==> Traced(x.objects, p, edges + ClassEdges(cls))
    ensures forall p :: p in cls.prefixes ==> Traced(x.objects, p, edges + ClassEdges(cls))
  {
    var store', edges' := ExtendedStore(store, x), edges + ClassEdges(cls);
    ClassTraced(x.objects, cls, edges');
    forall c, p | c in store && p in store[c].prefixes
      ensures Traced(store'[c].objects, p, edges')
    {
      assert Traced(store[c].objects, p, edges);
      TracedMore(store[c].objects, p, edges, edges');
      TracedWider(store[c].objects, store'[c].objects, p, edges');
    }
    forall c, p | c in store' && p in store'[c].prefixes
      ensures Traced(store'[c].objects, p, edges')
    {
      if c == x.e {
        assert p in x.out;
        assert p in store[c].prefixes || p in cls.prefixes;
      } else {
        assert c in store && store'[c] == store[c];
      }
    }
  }

  lemma ExtendComplete(store: Store, findMap: Labelling, edges: set<Edge>, pending: Pairs, cls: EquivClass,
                       x: Extension)
    requires Partition(store, findMap) && Complete(store, findMap, edges, pending)
    requires Extends(store, findMap, cls, x)
    requires Partition(ExtendedStore(store, x), IndexNew(findMap, cls.objects, x.e))
    requires Coarser(findMap, IndexNew(findMap, cls.objects, x.e))
    ensures Complete(ExtendedStore(store, x), IndexNew(findMap, cls.objects, x.e), edges + ClassEdges(cls),
                     pending + PairSet(x.pairs))
  {
    var store', findMap' := ExtendedStore(store, x), IndexNew(findMap, cls.objects, x.e);
    forall l, e | e in edges + ClassEdges(cls) && Coarser(findMap', l) && Joins(l, pending + PairSet(x.pairs))
      ensures HasPrefix(store'[findMap'[e.source]].prefixes, l, e)
    {
      assert Joins(l, pending) && Joins(l, PairSet(x.pairs)) && Coarser(findMap, l);
      if e in edges {
        assert HasPrefix(store[findMap[e.source]].prefixes, l, e);
        if findMap[e.source] == x.e {
          ExtendKeepsPrefix(store[x.e].prefixes, cls.prefixes, store[x.e].prefixes, x, l, e);
        }
      } else {
        var o, p :| o in cls.objects && p in cls.prefixes && e == Edge(o, p.mem, p.obj);
        assert p.mem == e.mem && Same(l, p.obj, e.target);
        assert HasPrefix(cls.prefixes, l, e);
        ExtendKeepsPrefix(store[x.e].prefixes, cls.prefixes, cls.prefixes, x, l, e);
      }
    }
  }

  lemma ExtendKeepsPrefix(into: seq<Prefix>, added: seq<Prefix>, from: seq<Prefix>, x: Extension, l: Labelling,
                          e: Edge)
    requires PrefixesMerged(into, added, x.out, x.pairs) && (from == into || from == added)
    requires forall p :: p in x.prefixes <==> p in x.out
    requires Joins(l, PairSet(x.pairs)) && HasPrefix(from, l, e)
    ensures HasPrefix(x.prefixes, l, e)
  {
  }

  lemma ExtendForced(store: Store, edges: set<Edge>, cls: EquivClass, x: Extension, r: Labelling)
    requires x.e in store && PrefixesMerged(store[x.e].prefixes, cls.prefixes, x.out, x.pairs)
    requires forall p :: p in store[x.e].prefixes ==> Traced(x.objects, p, edges)
    requires forall p :: p in cls.prefixes ==> Traced(x.objects, p, edges)
    requires Congruent(edges, r) && AllSame(r, x.objects)
    ensures Joins(r, PairSet(x.pairs))
  {
  }

  /** Adding a class to the one class it overlaps: every invariant survives with the queued
      pairs pending, and nothing is joined that the class does not force. */
  lemma ExtendStep(store: Store, findMap: Labelling, edges: set<Edge>, pending: Pairs, cls: EquivClass, x: Extension)
    requires Partition(store, findMap) && Sound(store, edges) && Complete(store, findMap, edges, pending)
    requires Extends(store, findMap, cls, x) && exists o :: o in cls.objects && o in findMap
    ensures var store' := ExtendedStore(store, x);
            var findMap' := IndexNew(findMap, cls.objects, x.e);
            var edges' := edges + ClassEdges(cls);
            && Partition(store', findMap')
            && Sound(store', edges')
            && Complete(store', findMap', edges', pending + PairSet(x.pairs))
            && Absorbed(edges', findMap, cls, findMap', PairSet(x.pairs))
  {
    hide ClassEdges, Congruent, Coarser, Joins, Partition, Sound, Complete, AllSame, PrefixesMerged, Absorbed, IndexNew,
      ExtendedStore, PairSet;
    ExtendLabels(findMap, cls.objects, x.e);
    ExtendPartition(store, findMap, cls, x);
    ExtendSound(store, findMap, edges, cls, x);
    ExtendComplete(store, findMap, edges, pending, cls, x);
    ExtendAbsorbs(store, findMap, edges, cls, x);
  }

  lemma ExtendAbsorbs(store: Store, findMap: Labelling, edges: set<Edge>, cls: EquivClass, x: Extension)
    requires Partition(store, findMap) && Sound(store, edges)
    requires Extends(store, findMap, cls, x) && exists o :: o in cls.objects && o in findMap
    ensures Absorbed(edges + ClassEdges(cls), findMap, cls, IndexNew(findMap, cls.objects, x.e), PairSet(x.pairs))
  {
    var findMap', edges' := IndexNew(findMap, cls.objects, x.e), edges + ClassEdges(cls);
    ExtendLabels(findMap, cls.objects, x.e);
    ExtendSound(store, findMap, edges, cls, x);
    ExtendedClassSame(store, findMap, cls, x);
    hide ClassEdges, Congruent, Coarser, Joins, Partition, Sound, AllSame, PrefixesMerged;
    forall r | Congruent(edges', r) && Coarser(findMap', r)
      ensures Joins(r, PairSet(x.pairs))
    {
      SameWhenCoarser(findMap', r, x.objects);
      ExtendForced(store, edges', cls, x, r);
    }
  }

  lemma SameWhenCoarser(l: Labelling, r: Labelling, objects: seq<Obj>)
    requires AllSame(l, objects) && Coarser(l, r)
    ensures AllSame(r, objects)
  {
  }

  lemma ExtendedClassSame(store: Store, findMap: Labelling, cls: EquivClass, x: Extension)
    requires Partition(store, findMap) && Extends(store, findMap, cls, x)
    ensures AllSame(IndexNew(findMap, cls.objects, x.e), x.objects)
  {
  }

  lemma ExtendKnown(store: Store, findMap: Labelling, cls: EquivClass, x: Extension, objects: set<Obj>)
    requires Known(store, objects) && Extends(store, findMap, cls, x)
    requires forall p :: p in cls.prefixes ==> p.obj in objects
    ensures Known(ExtendedStore(store, x), objects)
    ensures forall p :: p in x.pairs ==> p.0 in objects && p.1 in objects
  {
  }

  // ---------------------------------------------------------------- the class loop

  /** Case 1: no object of the class is known yet. */
  method Insert(file1: EquivClassContainer, cls: EquivClass, ghost pending: Pairs, ghost objects: set<Obj>)
    requires file1.Core(pending) && Known(file1.store, objects)
    requires cls.objects != [] && Functional(cls.prefixes) && forall p :: p in cls.prefixes ==> p.obj in objects
    requires forall o :: o in cls.objects ==> o !in file1.findMap
    modifies file1`equivClasses, file1`store, file1`nextId, file1`findMap, file1`edges
    ensures file1.Core(pending) && Known(file1.store, objects)
    ensures file1.edges == old(file1.edges) + ClassEdges(cls)
    ensures Absorbed(file1.edges, old(file1.findMap), cls, file1.findMap, {})
  {
    hide Partition, Sound, Complete, Absorbed, ClassEdges;
    ghost var store0, findMap0, list0, edges0 := file1.store, file1.findMap, file1.equivClasses, file1.edges;
    var id := file1.nextId;
    file1.nextId := id + 1;
    file1.equivClasses := [id] + file1.equivClasses;
    file1.store := file1.store[id := cls];
    Emplace(file1, cls.objects, id);
    file1.edges := file1.edges + ClassEdges(cls);
    InsertStep(store0, findMap0, edges0, pending, id, cls);
    assert Distinct([id] + list0) by {
      assert forall c :: c in list0 ==> c != id;
    }
  }

  method Emplace(file1: EquivClassContainer, objects: seq<Obj>, e: ClassId)
    modifies file1`findMap
    ensures file1.findMap == IndexNew(old(file1.findMap), objects, e)
  {
    for i := 0 to |objects|
      invariant file1.findMap == IndexNew(old(file1.findMap), objects[..i], e)
    {
      assert objects[..i + 1] == objects[..i] + [objects[i]];
      if objects[i] !in file1.findMap {
        file1.findMap := file1.findMap[objects[i] := e];
      }
    }
    assert objects[..|objects|] == objects;
  }

  /** Case 2: the class overlaps the class `e` only. */
  method Extend(file1: EquivClassContainer, e: ClassId, cls: EquivClass, ghost pending: Pairs,
                ghost objects: set<Obj>)
    returns (objectsToMerge: seq<(Obj, Obj)>)
    requires file1.Core(pending) && Known(file1.store, objects) && e in file1.store
    requires cls.objects != [] && Functional(cls.prefixes) && forall p :: p in cls.prefixes ==> p.obj in objects
    requires forall o :: o in cls.objects && o in file1.findMap ==> file1.findMap[o] == e
    requires exists o :: o in cls.objects && o in file1.findMap
    modifies file1`store, file1`findMap, file1`edges
    ensures file1.Core(pending + PairSet(objectsToMerge)) && Known(file1.store, objects)
    ensures forall p :: p in objectsToMerge ==> p.0 in objects && p.1 in objects
    ensures file1.edges == old(file1.edges) + ClassEdges(cls)
    ensures Absorbed(file1.edges, old(file1.findMap), cls, file1.findMap, PairSet(objectsToMerge))
  {
    hide Partition, Sound, Complete, Coarser, ClassEdges, PairSet, Distinct, Extends, Known, Absorbed;
    ghost var store0, findMap0, edges0 := file1.store, file1.findMap, file1.edges;
    var merged, prefixes, out;
    merged, prefixes, out, objectsToMerge := ExtensionOf(file1.store, file1.findMap, e, cls);
    ghost var x := Extension(e, merged, prefixes, out, objectsToMerge);
    ExtendStep(store0, findMap0, edges0, pending, cls, x);
    ExtendKnown(store0, findMap0, cls, x, objects);
    file1.store := file1.store[e := EquivClass(merged, prefixes)];
    Emplace(file1, cls.objects, e);
    file1.edges := file1.edges + ClassEdges(cls);
  }

  /** The objects and prefixes of both, without duplicates, and the targets to be merged. */
  method ExtensionOf(store: Store, ghost findMap: Labelling, e: ClassId, cls: EquivClass)
    returns (merged: seq<Obj>, prefixes: seq<Prefix>, out: seq<Prefix>, objectsToMerge: seq<(Obj, Obj)>)
    requires Partition(store, findMap) && e in store && cls.objects != []
    requires forall o :: o in cls.objects && o in findMap ==> findMap[o] == e
    requires exists o :: o in cls.objects && o in findMap
    ensures Extends(store, findMap, cls, Extension(e, merged, prefixes, out, objectsToMerge))
  {
    hide Partition, PrefixesMerged;
    SingleObject(store, findMap, cls, e);
    merged := store[e].objects;
    if |cls.objects| != 1 {
      merged := SortUnique(merged + cls.objects, (a, b) => StringLess(a, b));
    }
    out, objectsToMerge := GetPrefixesToMerge(store[e].prefixes, cls.prefixes);
    prefixes := SortUnique(out, (a, b) => PrefixLess(a, b));
  }

  lemma SingleObject(store: Store, findMap: Labelling, cls: EquivClass, e: ClassId)
    requires Partition(store, findMap) && e in store
    requires forall o :: o in cls.objects && o in findMap ==> findMap[o] == e
    requires exists o :: o in cls.objects && o in findMap
    ensures |cls.objects| == 1 ==> cls.objects[0] in store[e].objects
  {
  }

  /** Nothing is joined beyond what making `objects` one class forces. */
  ghost predicate ForcedBySame(edges: set<Edge>, before: Labelling, objects: seq<Obj>, after: Labelling, queued: Pairs)
  {
    forall r :: Congruent(edges, r) && Coarser(before, r) && AllSame(r, objects)
                ==> Coarser(after, r) && Joins(r, queued)
  }

  /** All known objects among the first `n` are in the class `inner`. */
  ghost predicate Within(findMap: Labelling, objects: seq<Obj>, n: nat, inner: ClassId)
    requires n <= |objects|
  {
    forall k :: 0 <= k < n && objects[k] in findMap ==> findMap[objects[k]] == inner
  }

  /** Case 3: joins the classes that the class overlaps, from left to right. */
  method JoinOverlapping(file1: EquivClassContainer, cls: EquivClass, ghost pending: Pairs, ghost objects: set<Obj>)
    returns (allNew: bool, inner: ClassId, objectsToMerge: seq<(Obj, Obj)>)
    requires file1.Core(pending) && Known(file1.store, objects) && cls.objects != []
    modifies file1`equivClasses, file1`store, file1`nextId, file1`findMap
    ensures file1.Core(pending + PairSet(objectsToMerge)) && Known(file1.store, objects)
    ensures forall p :: p in objectsToMerge ==> p.0 in objects && p.1 in objects
    ensures file1.findMap.Keys == old(file1.findMap.Keys) && Coarser(old(file1.findMap), file1.findMap)
    ensures ForcedBySame(file1.edges, old(file1.findMap), cls.objects, file1.findMap, PairSet(objectsToMerge))
    ensures allNew <==> forall o :: o in cls.objects ==> o !in file1.findMap
    ensures !allNew ==> inner in file1.store
                        && forall o :: o in cls.objects && o in file1.findMap ==> file1.findMap[o] == inner
  {
    hide Partition, Sound, Complete, Congruent, Coarser, Joins, AllSame, ClassEdges, PrefixesMerged, Distinct,
      ForcedBySame, Forced, Known, PairSet;
    ghost var findMap0 := file1.findMap;
    allNew, inner, objectsToMerge := true, 0, [];
    NothingForced(file1.edges, findMap0, cls.objects, pending);
    ghost var rep := cls.objects[0];
    if cls.objects[0] in file1.findMap {
      allNew, inner := false, file1.findMap[cls.objects[0]];
      ClassOf(file1.store, file1.findMap, rep);
    }
    for i := 1 to |cls.objects|
      invariant file1.Core(pending + PairSet(objectsToMerge)) && Known(file1.store, objects)
      invariant forall p :: p in objectsToMerge ==> p.0 in objects && p.1 in objects
      invariant file1.findMap.Keys == findMap0.Keys && Coarser(findMap0, file1.findMap)
      invariant ForcedBySame(file1.edges, findMap0, cls.objects, file1.findMap, PairSet(objectsToMerge))
      invariant allNew <==> forall k :: 0 <= k < i ==> cls.objects[k] !in file1.findMap
      invariant !allNew ==> rep in cls.objects && rep in file1.findMap && file1.findMap[rep] == inner
      invariant !allNew ==> inner in file1.store && rep in file1.store[inner].objects
      invariant !allNew ==> Within(file1.findMap, cls.objects, i, inner)
    {
      var o := cls.objects[i];
      if allNew {
        allNew := allNew && o !in file1.findMap;
        if !allNew {
          inner := file1.findMap[o];
          rep := o;
          ClassOf(file1.store, file1.findMap, o);
        }
      } else if o in file1.findMap && file1.findMap[o] != inner {
        ghost var findMap1, queued := file1.findMap, objectsToMerge;
        ClassOf(file1.store, file1.findMap, o);
        var front, tmp := file1.Merge(inner, file1.findMap[o], pending + PairSet(objectsToMerge), rep, o, objects);
        objectsToMerge := objectsToMerge + tmp;
        inner := file1.findMap[front];
        ClassOf(file1.store, file1.findMap, rep);
        WithinMerged(findMap1, file1.findMap, cls.objects, i, rep, o, inner);
        OverlapMerged(file1.edges, findMap0, cls.objects, findMap1, queued, rep, o, file1.findMap, tmp);
        PairSetConcat(queued, tmp);
        assert pending + PairSet(queued) + PairSet(tmp) == pending + PairSet(objectsToMerge);
      }
    }
  }

  lemma NothingForced(edges: set<Edge>, l: Labelling, objects: seq<Obj>, pending: Pairs)
    ensures ForcedBySame(edges, l, objects, l, PairSet([])) && Coarser(l, l)
    ensures pending + PairSet([]) == pending
  {
  }

  lemma PairSetConcat(pairs: seq<(Obj, Obj)>, more: seq<(Obj, Obj)>)
    ensures PairSet(pairs + more) == PairSet(pairs) + PairSet(more)
  {
  }

  lemma WithinMerged(l: Labelling, l': Labelling, objects: seq<Obj>, i: nat, rep: Obj, o: Obj, inner: ClassId)
    requires i < |objects| && o == objects[i] && rep in l && Within(l, objects, i, l[rep])
    requires l'.Keys == l.Keys && Coarser(l, l') && Same(l', rep, o) && o in l
    requires l'[rep] == inner
    ensures Within(l', objects, i + 1, inner)
  {
    forall k | 0 <= k < i + 1 && objects[k] in l'
      ensures l'[objects[k]] == inner
    {
      if k < i {
        assert Same(l, objects[k], rep);
      }
    }
  }

  lemma OverlapMerged(edges: set<Edge>, l0: Labelling, objects: seq<Obj>, l1: Labelling, queued: seq<(Obj, Obj)>,
                      rep: Obj, o: Obj, l2: Labelling, tmp: seq<(Obj, Obj)>)
    requires ForcedBySame(edges, l0, objects, l1, PairSet(queued)) && Coarser(l0, l1)
    requires rep in objects && o in objects
    requires Forced(edges, l1, {(rep, o)}, l2) && Coarser(l1, l2)
    requires forall r :: Congruent(edges, r) && Coarser(l2, r) ==> Joins(r, PairSet(tmp))
    ensures ForcedBySame(edges, l0, objects, l2, PairSet(queued + tmp)) && Coarser(l0, l2)
  {
  }

  /** Absorbs one class of the second file. */
  method AbsorbClass(file1: EquivClassContainer, cls: EquivClass, ghost pending: Pairs, ghost objects: set<Obj>)
    returns (objectsToMerge: seq<(Obj, Obj)>)
    requires file1.Core(pending) && Known(file1.store, objects)
    requires cls.objects != [] && Functional(cls.prefixes) && forall p :: p in cls.prefixes ==> p.obj in objects
    modifies file1`equivClasses, file1`store, file1`nextId, file1`findMap, file1`edges
    ensures file1.Core(pending + PairSet(objectsToMerge)) && Known(file1.store, objects)
    ensures forall p :: p in objectsToMerge ==> p.0 in objects && p.1 in objects
    ensures file1.edges == old(file1.edges) + ClassEdges(cls)
    ensures Absorbed(file1.edges, old(file1.findMap), cls, file1.findMap, PairSet(objectsToMerge))
  {
    hide Partition, Sound, Complete, Congruent, Coarser, Joins, AllSame, ClassEdges, Distinct, ForcedBySame, Known,
      PairSet, Absorbed;
    ghost var findMap0, edges0 := file1.findMap, file1.edges;
    NothingForced(file1.edges, findMap0, cls.objects, pending);
    objectsToMerge := [];
    if |cls.objects| == 1 {
      if cls.objects[0] in file1.findMap {
        assert cls.objects[0] in cls.objects;
        ClassOf(file1.store, file1.findMap, cls.objects[0]);
        objectsToMerge := Extend(file1, file1.findMap[cls.objects[0]], cls, pending, objects);
      } else {
        Insert(file1, cls, pending, objects);
        NonePending(file1.edges, findMap0, cls, file1.findMap);
      }
    } else {
      var allNew, inner, queued := JoinOverlapping(file1, cls, pending, objects);
      ghost var findMap1 := file1.findMap;
      if allNew {
        Insert(file1, cls, pending + PairSet(queued), objects);
        NonePending(file1.edges, findMap1, cls, file1.findMap);
        objectsToMerge := queued;
        assert PairSet(queued) == PairSet(queued + []) by {
          assert queued == queued + [];
        }
        AbsorbedChain(edges0, file1.edges, findMap0, cls, findMap1, queued, file1.findMap, []);
      } else {
        ghost var o :| o in cls.objects && o in file1.findMap;
        var more := Extend(file1, inner, cls, pending + PairSet(queued), objects);
        objectsToMerge := queued + more;
        PairSetConcat(queued, more);
        assert pending + PairSet(queued) + PairSet(more) == pending + PairSet(objectsToMerge);
        AbsorbedChain(edges0, file1.edges, findMap0, cls, findMap1, queued, file1.findMap, more);
      }
    }
  }

  lemma NonePending(edges: set<Edge>, before: Labelling, cls: EquivClass, after: Labelling)
    requires Absorbed(edges, before, cls, after, {})
    ensures Absorbed(edges, before, cls, after, PairSet([]))
  {
  }

  lemma AbsorbedChain(edges: set<Edge>, more: set<Edge>, l0: Labelling, cls: EquivClass, l1: Labelling,
                      queued: seq<(Obj, Obj)>, l2: Labelling, added: seq<(Obj, Obj)>)
    requires edges <= more && l1.Keys == l0.Keys && Coarser(l0, l1)
    requires ForcedBySame(edges, l0, cls.objects, l1, PairSet(queued))
    requires Absorbed(more, l1, cls, l2, PairSet(added))
    ensures Absorbed(more, l0, cls, l2, PairSet(queued + added))
  {
  }

  lemma FewerEdges(edges: set<Edge>, more: set<Edge>, r: Labelling)
    requires edges <= more && Congruent(more, r)
    ensures Congruent(edges, r)
  {
  }

  // ---------------------------------------------------------------- all classes of a file

  function ListEdges(store: Store, list: seq<ClassId>): set<Edge> {
    set c, e | c in list && c in store && e in ClassEdges(store[c]) :: e
  }

  function ListObjects(store: Store, list: seq<ClassId>): set<Obj> {
    set c, o | c in list && c in store && o in store[c].objects :: o
  }

  /** Nothing is joined beyond the two files' partitions and their prefix edges. */
  ghost predicate ForcedByFiles(edges: set<Edge>, l1: Labelling, l2: Labelling, l: Labelling, queued: Pairs) {
    forall r :: Congruent(edges, r) && Coarser(l1, r) && Coarser(l2, r) ==> Coarser(l, r) && Joins(r, queued)
  }

  /** The first classes of the list are in. */
  ghost predicate ClassesIn(store: Store, list: seq<ClassId>, l: Labelling) {
    forall c :: c in list && c in store ==> AllSame(l, store[c].objects)
  }

  /** Stored prefixes say everything: above the partition they come with, a congruence for the
      stored prefixes is one for all original prefix edges, and conversely.  Dropping conflicting
      prefixes therefore loses nothing, even when only the stored ones are written to a file. */
  lemma StoredPrefixesSuffice(store: Store, findMap: Labelling, edges: set<Edge>, list: seq<ClassId>,
                              others: set<Edge>, r: Labelling)
    requires Partition(store, findMap) && Sound(store, edges) && Complete(store, findMap, edges, {})
    requires forall c :: c in list <==> c in store
    requires Coarser(findMap, r)
    ensures Congruent(others + edges, r) <==> Congruent(others + ListEdges(store, list), r)
  {
    var stored := ListEdges(store, list);
    if Congruent(others + edges, r) {
      forall e, f | e in others + stored && f in others + stored && e.mem == f.mem && Same(r, e.source, f.source)
        ensures Same(r, e.target, f.target)
      {
        var e' := OriginalOf(store, findMap, edges, list, others, r, e);
        var f' := OriginalOf(store, findMap, edges, list, others, r, f);
        assert Same(r, e'.source, f'.source);
      }
    }
    if Congruent(others + stored, r) {
      forall e, f | e in others + edges && f in others + edges && e.mem == f.mem && Same(r, e.source, f.source)
        ensures Same(r, e.target, f.target)
      {
        var e' := StoredOf(store, findMap, edges, list, others, r, e);
        var f' := StoredOf(store, findMap, edges, list, others, r, f);
        assert Same(r, e'.source, f'.source) && Same(r, e'.target, f'.target);
      }
    }
  }

  /** A stored edge is, up to the partition, an original one ... */
  lemma OriginalOf(store: Store, findMap: Labelling, edges: set<Edge>, list: seq<ClassId>, others: set<Edge>,
                   r: Labelling, e: Edge) returns (o: Edge)
    requires Partition(store, findMap) && Sound(store, edges) && Coarser(findMap, r)
    requires e in others + ListEdges(store, list)
    ensures o in others + edges && o.mem == e.mem && o.target == e.target && Same(r, o.source, e.source)
  {
    if e in others {
      o := e;
    } else {
      var c :| c in list && c in store && e in ClassEdges(store[c]);
      var p := Prefix(e.target, e.mem);
      assert p in store[c].prefixes && e.source in store[c].objects;
      assert Traced(store[c].objects, p, edges);
      var x :| x in store[c].objects && Edge(x, p.mem, p.obj) in edges;
      o := Edge(x, p.mem, p.obj);
      assert Same(findMap, x, e.source);
    }
  }

  /** ... and an original edge is, up to the partition, a stored one. */
  lemma StoredOf(store: Store, findMap: Labelling, edges: set<Edge>, list: seq<ClassId>, others: set<Edge>,
                 r: Labelling, e: Edge) returns (s: Edge)
    requires Partition(store, findMap) && Complete(store, findMap, edges, {}) && Coarser(findMap, r)
    requires forall c :: c in list <==> c in store
    requires e in others + edges
    ensures s in others + ListEdges(store, list) && s.mem == e.mem && s.source == e.source
            && Same(r, s.target, e.target)
  {
    if e in others {
      s := e;
    } else {
      var c := findMap[e.source];
      assert Joins(findMap, {}) && Coarser(findMap, findMap);
      assert HasPrefix(store[c].prefixes, findMap, e);
      var p :| p in store[c].prefixes && p.mem == e.mem && Same(findMap, p.obj, e.target);
      s := Edge(e.source, p.mem, p.obj);
      assert s in ClassEdges(store[c]);
    }
  }

  /** The invariants may be restated for the original edges of the absorbed file. */
  lemma OriginalEdges(store: Store, findMap: Labelling, edges1: set<Edge>, pending: Pairs, store2: Store,
                      findMap2: Labelling, edges2: set<Edge>, list: seq<ClassId>)
    requires Partition(store, findMap) && Sound(store, edges1 + ListEdges(store2, list))
    requires Complete(store, findMap, edges1 + ListEdges(store2, list), pending)
    requires Partition(store2, findMap2) && Sound(store2, edges2) && Complete(store2, findMap2, edges2, {})
    requires forall c :: c in list <==> c in store2
    requires Coarser(findMap2, findMap) && findMap2.Keys <= findMap.Keys
    ensures Sound(store, edges1 + edges2) && Complete(store, findMap, edges1 + edges2, pending)
  {
    var stored := ListEdges(store2, list);
    forall c, p | c in store && p in store[c].prefixes
      ensures Traced(store[c].objects, p, edges1 + edges2)
    {
      assert Traced(store[c].objects, p, edges1 + stored);
      var x :| x in store[c].objects && Edge(x, p.mem, p.obj) in edges1 + stored;
      var o := OriginalOf(store2, findMap2, edges2, list, edges1, findMap, Edge(x, p.mem, p.obj));
      assert o.source in findMap;
      assert o.source in store[c].objects && Edge(o.source, p.mem, p.obj) in edges1 + edges2;
    }
    forall l, e | e in edges1 + edges2 && Coarser(findMap, l) && Joins(l, pending)
      ensures HasPrefix(store[findMap[e.source]].prefixes, l, e)
    {
      var s := StoredOf(store2, findMap2, edges2, list, edges1, findMap, e);
      assert Same(l, s.target, e.target);
      assert HasPrefix(store[findMap[s.source]].prefixes, l, s);
      var p :| p in store[findMap[s.source]].prefixes && p.mem == s.mem && Same(l, p.obj, s.target);
      assert Same(l, p.obj, e.target);
    }
  }

  lemma NoClassesIn(store: Store, edges: set<Edge>, l1: Labelling, l2: Labelling)
    ensures ListEdges(store, []) == {} && ListObjects(store, []) == {} && ClassesIn(store, [], l1)
    ensures ForcedByFiles(edges, l1, l2, l1, PairSet([])) && Coarser(l1, l1)
    ensures edges + ListEdges(store, []) == edges && l1.Keys + ListObjects(store, []) == l1.Keys
  {
  }

  lemma NextClassIn(store: Store, list: seq<ClassId>, i: nat)
    requires i < |list| && list[i] in store
    ensures ListEdges(store, list[..i + 1]) == ListEdges(store, list[..i]) + ClassEdges(store[list[i]])
    ensures ListObjects(store, list[..i + 1])
         == ListObjects(store, list[..i]) + (set o | o in store[list[i]].objects)
  {
  }

  lemma ClassAbsorbed(store: Store, findMap2: Labelling, list: seq<ClassId>, i: nat, edges: set<Edge>,
                      more: set<Edge>, l1: Labelling, l: Labelling, queued: seq<(Obj, Obj)>, l': Labelling,
                      added: seq<(Obj, Obj)>)
    requires Partition(store, findMap2) && i < |list| && list[i] in store
    requires edges <= more && Coarser(l1, l) && ClassesIn(store, list[..i], l)
    requires ForcedByFiles(edges, l1, findMap2, l, PairSet(queued))
    requires Absorbed(more, l, store[list[i]], l', PairSet(added))
    ensures Coarser(l1, l') && ClassesIn(store, list[..i + 1], l')
    ensures ForcedByFiles(more, l1, findMap2, l', PairSet(queued + added))
  {
    assert list[..i + 1] == list[..i] + [list[i]];
    PairSetConcat(queued, added);
    forall c | c in list[..i + 1] && c in store
      ensures AllSame(l', store[c].objects)
    {
      assert c in list[..i] ==> AllSame(l, store[c].objects);
    }
    forall r | Congruent(more, r) && Coarser(l1, r) && Coarser(findMap2, r)
      ensures Coarser(l', r) && Joins(r, PairSet(queued + added))
    {
      FewerEdges(edges, more, r);
      ClassSame(store, findMap2, list[i]);
    }
  }

  lemma ClassSame(store: Store, findMap: Labelling, c: ClassId)
    requires Partition(store, findMap) && c in store
    ensures AllSame(findMap, store[c].objects)
  {
  }

  /** All classes in: the second partition is contained, and its original edges may stand in. */
  lemma AllClassesIn(store: Store, findMap2: Labelling, edges2: set<Edge>, list: seq<ClassId>, edges1: set<Edge>,
                     l1: Labelling, l: Labelling, queued: Pairs)
    requires Partition(store, findMap2) && Sound(store, edges2) && Complete(store, findMap2, edges2, {})
    requires forall c :: c in list <==> c in store
    requires ClassesIn(store, list, l)
    requires ForcedByFiles(edges1 + ListEdges(store, list), l1, findMap2, l, queued)
    ensures Coarser(findMap2, l) && ListObjects(store, list) == findMap2.Keys
    ensures ForcedByFiles(edges1 + edges2, l1, findMap2, l, queued)
  {
    forall x, y | Same(findMap2, x, y)
      ensures Same(l, x, y)
    {
      if x != y {
        assert findMap2[x] in list && AllSame(l, store[findMap2[x]].objects);
        assert x in store[findMap2[x]].objects && y in store[findMap2[x]].objects;
      }
    }
    forall r | Congruent(edges1 + edges2, r) && Coarser(l1, r) && Coarser(findMap2, r)
      ensures Coarser(l, r) && Joins(r, queued)
    {
      StoredPrefixesSuffice(store, findMap2, edges2, list, edges1, r);
    }
    forall o | o in findMap2
      ensures o in ListObjects(store, list)
    {
      assert findMap2[o] in list && findMap2[o] in store && o in store[findMap2[o]].objects;
    }
  }

  /** The loop over all classes of the second file. */
  method AbsorbAll(file1: EquivClassContainer, file2: EquivClassContainer)
    returns (objectsToMerge: seq<(Obj, Obj)>)
    requires file1 != file2
    requires file1.Core({}) && Known(file1.store, file1.findMap.Keys)
    requires file2.Core({}) && Known(file2.store, file2.findMap.Keys)
    modifies file1`equivClasses, file1`store, file1`nextId, file1`findMap, file1`edges
    ensures file1.Core(PairSet(objectsToMerge)) && Known(file1.store, file1.findMap.Keys)
    ensures forall p :: p in objectsToMerge ==> p.0 in file1.findMap && p.1 in file1.findMap
    ensures file1.findMap.Keys == old(file1.findMap.Keys) + file2.findMap.Keys
    ensures file1.edges == old(file1.edges) + file2.edges
    ensures Coarser(old(file1.findMap), file1.findMap) && Coarser(file2.findMap, file1.findMap)
    ensures ForcedByFiles(file1.edges, old(file1.findMap), file2.findMap, file1.findMap, PairSet(objectsToMerge))
  {
    hide Partition, Sound, Complete, Congruent, Coarser, Joins, AllSame, ClassEdges, Distinct, Known,
      PairSet, Absorbed, ForcedByFiles, ListEdges, ListObjects, ClassesIn;
    ghost var l1, edges1 := file1.findMap, file1.edges;
    ghost var objects := l1.Keys + file2.findMap.Keys;
    var list := file2.equivClasses;
    objectsToMerge := [];
    NoClassesIn(file2.store, edges1, l1, file2.findMap);
    KnownMore(file1.store, l1.Keys, objects);
    KnownMore(file2.store, file2.findMap.Keys, objects);
    NoPairs();
    for i := 0 to |list|
      invariant file1.Core(PairSet(objectsToMerge)) && Known(file1.store, objects)
      invariant forall p :: p in objectsToMerge ==> p.0 in objects && p.1 in objects
      invariant file1.edges == edges1 + ListEdges(file2.store, list[..i])
      invariant file1.findMap.Keys == l1.Keys + ListObjects(file2.store, list[..i])
      invariant Coarser(l1, file1.findMap) && ClassesIn(file2.store, list[..i], file1.findMap)
      invariant ForcedByFiles(file1.edges, l1, file2.findMap, file1.findMap, PairSet(objectsToMerge))
    {
      ghost var l, queued, edges := file1.findMap, objectsToMerge, file1.edges;
      var equiv := file2.store[list[i]];
      StoredClass(file2.store, file2.findMap, list[i], objects);
      var more := AbsorbClass(file1, equiv, PairSet(objectsToMerge), objects);
      objectsToMerge := objectsToMerge + more;
      PairSetConcat(queued, more);
      NextClassIn(file2.store, list, i);
      ClassAbsorbed(file2.store, file2.findMap, list, i, edges, file1.edges, l1, l, queued, file1.findMap, more);
      AbsorbedKeys(file1.edges, l, equiv, file1.findMap, PairSet(more));
    }
    assert list[..|list|] == list;
    AllClassesIn(file2.store, file2.findMap, file2.edges, list, edges1, l1, file1.findMap, PairSet(objectsToMerge));
    OriginalEdges(file1.store, file1.findMap, edges1, PairSet(objectsToMerge), file2.store, file2.findMap,
                  file2.edges, list);
    file1.edges := edges1 + file2.edges;
  }

  lemma AbsorbedKeys(edges: set<Edge>, before: Labelling, cls: EquivClass, after: Labelling, queued: Pairs)
    requires Absorbed(edges, before, cls, after, queued)
    ensures after.Keys == before.Keys + (set o | o in cls.objects)
  {
  }

  lemma NoPairs()
    ensures PairSet([]) == {}
  {
  }

  lemma KnownMore(store: Store, objects: set<Obj>, more: set<Obj>)
    requires Known(store, objects) && objects <= more
    ensures Known(store, more)
  {
  }

  lemma StoredClass(store: Store, findMap: Labelling, c: ClassId, objects: set<Obj>)
    requires Partition(store, findMap) && c in store && Known(store, objects)
    ensures store[c].objects != [] && Functional(store[c].prefixes)
    ensures forall p :: p in store[c].prefixes ==> p.obj in objects
  {
  }
}
