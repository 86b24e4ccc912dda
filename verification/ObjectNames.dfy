/**
 Object names and the initial classes (ObjectNameDereference, ObjectNameMember and
 initEquivClasses, initPrefixClasses in cgcollector/lib/src/AliasAnalysis.cpp).

 Every object named in a translation unit starts in a class of its own.  Its prefixes are the
 objects one reaches by one more dereference or by selecting a member.
 */
module ObjectNames {
  import opened Labellings
  import opened Lists
  import opened AliasAnalysis

  /** A declaration, or a member of another object, with a number of dereferences (negative for
      address-of operators). */
  datatype Name = Decl(name: string, level: int) | Member(base: Name, mem: string, level: int)

  function Operators(level: int): string {
    if level < 0 then seq(-level, _ => '&') else seq(level, _ => '*')
  }

  function Repr(n: Name): Obj {
    match n
    case Decl(name, level) => Operators(level) + name
    case Member(base, mem, level) => Operators(level) + "(" + Repr(base) + ")." + mem
  }

  /** The object one dereference further. */
  function Deref(n: Name): Name {
    n.(level := n.level + 1)
  }

  /** Functions are recognised by their own name and by their address. */
  predicate NamesFunction(n: Name, functions: set<string>) {
    n.Decl? && (n.level == 0 || n.level == -1) && n.name in functions
  }

  ghost predicate FunctionsRecorded(functionMap: map<Obj, FuncName>, objects: set<Name>, functions: set<string>) {
    && (forall f :: f in functionMap ==> exists a :: a in objects && f == Repr(a))
    && (forall a :: a in objects ==>
          (Repr(a) in functionMap <==> NamesFunction(a, functions))
          && (NamesFunction(a, functions) ==> functionMap[Repr(a)] == a.name))
  }

  function Reprs(objects: set<Name>): set<Obj> {
    set a | a in objects :: Repr(a)
  }

  /** Distinct objects have distinct names, and members are named. */
  ghost predicate WellNamed(objects: set<Name>) {
    && (forall a, b :: a in objects && b in objects && Repr(a) == Repr(b) ==> a == b)
    && (forall a :: a in objects && a.Member? ==> a.mem != "")
  }

  /** The prefix edges of a set of objects. */
  function PrefixEdges(objects: set<Name>): set<Edge> {
    (set a | a in objects && Deref(a) in objects :: Edge(Repr(a), "", Repr(Deref(a))))
    + (set a | a in objects && a.Member? && a.level == 0 && a.base in objects
             :: Edge(Repr(a.base), a.mem, Repr(a)))
  }

  lemma OperatorsMean(level: int)
    requires level >= 0
    ensures Operators(0) == "" && Operators(level + 1) == "*" + Operators(level)
    ensures Operators(-level - 1) == "&" + Operators(-level)
  {
  }

  lemma Prefixed(a: string, b: string, c: string)
    ensures (a + b) + c == a + (b + c)
  {
  }

  /** How names are written: one character for each dereference or address-of in front. */
  lemma ReprMeans(x: string, base: Name, mem: string, level: int)
    requires level >= 0
    ensures Repr(Decl(x, 0)) == x && Repr(Member(base, mem, 0)) == "(" + Repr(base) + ")." + mem
    ensures Repr(Decl(x, level + 1)) == "*" + Repr(Decl(x, level))
    ensures Repr(Decl(x, -level - 1)) == "&" + Repr(Decl(x, -level))
    ensures Repr(Member(base, mem, level + 1)) == "*" + Repr(Member(base, mem, level))
    ensures Repr(Member(base, mem, -level - 1)) == "&" + Repr(Member(base, mem, -level))
  {
    hide Operators;
    OperatorsMean(level);
    var rest := "(" + Repr(base) + ")." + mem;
    forall l: int
      ensures Repr(Decl(x, l)) == Operators(l) + x && Repr(Member(base, mem, l)) == Operators(l) + rest
    {
      MemberRepr(base, mem, l);
    }
    hide Repr;
    Prefixed("*", Operators(level), x);
    Prefixed("&", Operators(-level), x);
    Prefixed("*", Operators(level), rest);
    Prefixed("&", Operators(-level), rest);
    assert "" + x == x && "" + rest == rest;
  }

  lemma MemberRepr(base: Name, mem: string, level: int)
    ensures Repr(Member(base, mem, level)) == Operators(level) + ("(" + Repr(base) + ")." + mem)
  {
    var o, r := Operators(level), Repr(base);
    hide Operators;
    assert Repr(Member(base, mem, level)) == o + "(" + r + ")." + mem;
    assert o + "(" + r + ")." + mem == o + ("(" + r + ")." + mem);
  }

  /** The edges by name and level: from a name to the same name dereferenced once more, and from an
      object to each of its members. */
  lemma PrefixEdgeMeans(objects: set<Name>, e: Edge)
    ensures e in PrefixEdges(objects)
            <==> (exists x, level ::
                    Decl(x, level) in objects && Decl(x, level + 1) in objects
                    && e == Edge(Repr(Decl(x, level)), "", Repr(Decl(x, level + 1))))
                 || (exists b, m, level ::
                       Member(b, m, level) in objects && Member(b, m, level + 1) in objects
                       && e == Edge(Repr(Member(b, m, level)), "", Repr(Member(b, m, level + 1))))
                 || (exists b, m ::
                       Member(b, m, 0) in objects && b in objects && e == Edge(Repr(b), m, Repr(Member(b, m, 0))))
  {
    hide Repr;
    if e in PrefixEdges(objects) {
      if a :| a in objects && Deref(a) in objects && e == Edge(Repr(a), "", Repr(Deref(a))) {
        if a.Decl? {
          assert a == Decl(a.name, a.level);
        } else {
          assert a == Member(a.base, a.mem, a.level);
        }
      } else {
        var a :| a in objects && a.Member? && a.level == 0 && a.base in objects
                 && e == Edge(Repr(a.base), a.mem, Repr(a));
        assert a == Member(a.base, a.mem, 0);
      }
    }
    if x, level :| Decl(x, level) in objects && Decl(x, level + 1) in objects
                   && e == Edge(Repr(Decl(x, level)), "", Repr(Decl(x, level + 1))) {
      assert Deref(Decl(x, level)) == Decl(x, level + 1);
    }
    if b, m, level :| Member(b, m, level) in objects && Member(b, m, level + 1) in objects
                      && e == Edge(Repr(Member(b, m, level)), "", Repr(Member(b, m, level + 1))) {
      assert Deref(Member(b, m, level)) == Member(b, m, level + 1);
    }
  }

  /** Exactly the declarations of functions and their addresses are functions. */
  lemma FunctionsMean(functionMap: map<Obj, FuncName>, objects: set<Name>, functions: set<string>)
    requires FunctionsRecorded(functionMap, objects, functions)
    ensures forall f :: f in functionMap ==> exists a :: a in objects && f == Repr(a)
    ensures forall x, level | Decl(x, level) in objects ::
              (Repr(Decl(x, level)) in functionMap <==> x in functions && (level == 0 || level == -1))
              && (Repr(Decl(x, level)) in functionMap ==> functionMap[Repr(Decl(x, level))] == x)
    ensures forall b, m, level | Member(b, m, level) in objects :: Repr(Member(b, m, level)) !in functionMap
  {
    hide Repr;
  }

  /** Each target is the only one of its object under its member. */
  lemma PrefixEdgesFunctional(objects: set<Name>, e: Edge, f: Edge)
    requires WellNamed(objects) && e in PrefixEdges(objects) && f in PrefixEdges(objects)
    requires e.source == f.source && e.mem == f.mem
    ensures e.target == f.target
  {
  }

  /** The edges that handling one object contributes. */
  function EdgesOf(objects: set<Name>, a: Name): set<Edge> {
    (if Deref(a) in objects then {Edge(Repr(a), "", Repr(Deref(a)))} else {})
    + (if a.Member? && a.level == 0 && a.base in objects then {Edge(Repr(a.base), a.mem, Repr(a))} else {})
  }

  lemma EdgesOfAll(objects: set<Name>)
    ensures PrefixEdges(objects) == set a, e | a in objects && e in EdgesOf(objects, a) :: e
  {
    var all := set a, e | a in objects && e in EdgesOf(objects, a) :: e;
    forall e | e in PrefixEdges(objects)
      ensures e in all
    {
      if a :| a in objects && Deref(a) in objects && e == Edge(Repr(a), "", Repr(Deref(a))) {
        assert e in EdgesOf(objects, a);
      } else {
        var a :| a in objects && a.Member? && a.level == 0 && a.base in objects
                 && e == Edge(Repr(a.base), a.mem, Repr(a));
        assert e in EdgesOf(objects, a);
      }
    }
  }

  /** The classes hold one object each, with the prefixes of `edges`. */
  ghost predicate Singletons(list: seq<ClassId>, store: Store, nextId: ClassId, findMap: Labelling, edges: set<Edge>)
  {
    && Distinct(list)
    && (forall c :: c in list <==> c in store)
    && (forall c :: c in store ==> c < nextId)
    && (forall o :: o in findMap ==> findMap[o] in store && store[findMap[o]].objects == [o])
    && (forall c :: c in store ==> |store[c].objects| == 1 && store[c].objects[0] in findMap
                                   && findMap[store[c].objects[0]] == c)
    && (forall o, p :: o in findMap ==>
          (p in store[findMap[o]].prefixes <==> Edge(o, p.mem, p.obj) in edges))
  }

  lemma SingletonAdded(list: seq<ClassId>, store: Store, nextId: ClassId, findMap: Labelling, edges: set<Edge>,
                       name: Obj)
    requires Singletons(list, store, nextId, findMap, edges) && name !in findMap
    requires forall e :: e in edges ==> e.source != name
    ensures Singletons([nextId] + list, store[nextId := EquivClass([name], [])], nextId + 1,
                       findMap[name := nextId], edges)
  {
    assert nextId !in list;
  }

  /** One class per object; functions are recorded with their names. */
  method InitEquivClasses(data: EquivClassContainer, objects: set<Name>, functions: set<string>)
    requires data.findMap == map[] && data.store == map[] && data.equivClasses == [] && data.functionMap == map[]
    requires WellNamed(objects)
    modifies data`equivClasses, data`store, data`nextId, data`findMap, data`functionMap
    ensures Singletons(data.equivClasses, data.store, data.nextId, data.findMap, {})
    ensures data.findMap.Keys == Reprs(objects)
    ensures FunctionsRecorded(data.functionMap, objects, functions)
  {
    var rest := objects;
    while rest != {}
      invariant rest <= objects
      invariant Singletons(data.equivClasses, data.store, data.nextId, data.findMap, {})
      invariant data.findMap.Keys == Reprs(objects - rest)
      invariant FunctionsRecorded(data.functionMap, objects - rest, functions)
      decreases rest
    {
      var a :| a in rest;
      hide Singletons, FunctionsRecorded, WellNamed;
      OneMoreObject(objects, rest, a);
      InitOne(data, objects - rest, a, functions);
      rest := rest - {a};
    }
    assert objects - rest == objects;
  }

  lemma OneMoreObject(objects: set<Name>, rest: set<Name>, a: Name)
    requires WellNamed(objects) && rest <= objects && a in rest
    ensures Repr(a) !in Reprs(objects - rest)
    ensures objects - (rest - {a}) == (objects - rest) + {a}
  {
  }

  method InitOne(data: EquivClassContainer, ghost done: set<Name>, a: Name, functions: set<string>)
    requires Singletons(data.equivClasses, data.store, data.nextId, data.findMap, {})
    requires data.findMap.Keys == Reprs(done) && Repr(a) !in Reprs(done)
    requires FunctionsRecorded(data.functionMap, done, functions)
    modifies data`equivClasses, data`store, data`nextId, data`findMap, data`functionMap
    ensures Singletons(data.equivClasses, data.store, data.nextId, data.findMap, {})
    ensures data.findMap.Keys == Reprs(done + {a})
    ensures FunctionsRecorded(data.functionMap, done + {a}, functions)
  {
    hide Singletons, FunctionsRecorded, Reprs, Repr;
    var name := Repr(a);
    ReprsOneMore(done, a);
    FunctionsOneMore(data.functionMap, done, a, functions);
    SingletonAdded(data.equivClasses, data.store, data.nextId, data.findMap, {}, name);
    var id := data.nextId;
    data.nextId := id + 1;
    data.equivClasses := [id] + data.equivClasses;
    data.store := data.store[id := EquivClass([name], [])];
    data.findMap := data.findMap[name := id];
    if a.Decl? && (a.level == 0 || a.level == -1) && a.name in functions {
      data.functionMap := data.functionMap[name := a.name];
    }
  }

  lemma ReprsOneMore(done: set<Name>, a: Name)
    ensures Reprs(done + {a}) == Reprs(done) + {Repr(a)}
  {
  }

  lemma FunctionsOneMore(functionMap: map<Obj, FuncName>, done: set<Name>, a: Name, functions: set<string>)
    requires FunctionsRecorded(functionMap, done, functions) && Repr(a) !in Reprs(done)
    ensures !NamesFunction(a, functions) ==> FunctionsRecorded(functionMap, done + {a}, functions)
    ensures NamesFunction(a, functions) ==>
              FunctionsRecorded(functionMap[Repr(a) := a.name], done + {a}, functions)
  {
  }

  lemma PrefixAppended(list: seq<ClassId>, store: Store, nextId: ClassId, findMap: Labelling, edges: set<Edge>,
                       o: Obj, p: Prefix)
    requires Singletons(list, store, nextId, findMap, edges) && o in findMap
    ensures var c := findMap[o];
            Singletons(list, store[c := EquivClass(store[c].objects, store[c].prefixes + [p])], nextId, findMap,
                       edges + {Edge(o, p.mem, p.obj)})
  {
  }

  method AppendPrefix(data: EquivClassContainer, o: Obj, p: Prefix, ghost edges: set<Edge>)
    requires Singletons(data.equivClasses, data.store, data.nextId, data.findMap, edges) && o in data.findMap
    modifies data`store
    ensures Singletons(data.equivClasses, data.store, data.nextId, data.findMap, edges + {Edge(o, p.mem, p.obj)})
  {
    PrefixAppended(data.equivClasses, data.store, data.nextId, data.findMap, edges, o, p);
    var c := data.findMap[o];
    data.store := data.store[c := EquivClass(data.store[c].objects, data.store[c].prefixes + [p])];
  }

  /** Prefixes by one more dereference, and by member for the object a member belongs to. */
  method InitPrefixClasses(data: EquivClassContainer, objects: set<Name>)
    requires Singletons(data.equivClasses, data.store, data.nextId, data.findMap, {})
    requires data.findMap.Keys == Reprs(objects)
    modifies data`store
    ensures Singletons(data.equivClasses, data.store, data.nextId, data.findMap, PrefixEdges(objects))
  {
    hide Singletons, Repr;
    ghost var edges: set<Edge> := {};
    var rest := objects;
    while rest != {}
      invariant rest <= objects
      invariant edges == set a, e | a in objects - rest && e in EdgesOf(objects, a) :: e
      invariant Singletons(data.equivClasses, data.store, data.nextId, data.findMap, edges)
      decreases rest
    {
      var a :| a in rest;
      NextObjectEdges(objects, rest, a);
      ghost var edges0 := edges;
      var target := Deref(a);
      if target in objects {
        AppendPrefix(data, Repr(a), Prefix(Repr(target), ""), edges);
        edges := edges + {Edge(Repr(a), "", Repr(target))};
      }
      if a.level == 0 && a.Member? && a.base in objects {
        AppendPrefix(data, Repr(a.base), Prefix(Repr(a), a.mem), edges);
        edges := edges + {Edge(Repr(a.base), a.mem, Repr(a))};
      }
      assert edges == edges0 + EdgesOf(objects, a);
      rest := rest - {a};
    }
    EdgesOfAll(objects);
    assert objects - rest == objects;
  }

  lemma NextObjectEdges(objects: set<Name>, rest: set<Name>, a: Name)
    requires rest <= objects && a in rest
    ensures (set b, e | b in objects - (rest - {a}) && e in EdgesOf(objects, b) :: e)
         == (set b, e | b in objects - rest && e in EdgesOf(objects, b) :: e) + EdgesOf(objects, a)
  {
  }

  lemma SingletonPartition(objects: set<Name>, list: seq<ClassId>, store: Store, nextId: ClassId, findMap: Labelling)
    requires WellNamed(objects)
    requires Singletons(list, store, nextId, findMap, PrefixEdges(objects))
    ensures Partition(store, findMap)
    ensures forall x, y :: Same(findMap, x, y) ==> x == y
  {
    hide PrefixEdges;
    forall c, p, q | c in store && p in store[c].prefixes && q in store[c].prefixes && p.mem == q.mem
      ensures p.obj == q.obj
    {
      var o := store[c].objects[0];
      PrefixEdgesFunctional(objects, Edge(o, p.mem, p.obj), Edge(o, q.mem, q.obj));
    }
  }

  lemma SingletonSound(objects: set<Name>, list: seq<ClassId>, store: Store, nextId: ClassId, findMap: Labelling)
    requires findMap.Keys == Reprs(objects)
    requires Singletons(list, store, nextId, findMap, PrefixEdges(objects))
    ensures Sound(store, PrefixEdges(objects)) && Known(store, findMap.Keys)
  {
    hide PrefixEdges;
    forall c, p | c in store && p in store[c].prefixes
      ensures Traced(store[c].objects, p, PrefixEdges(objects))
    {
      var o := store[c].objects[0];
      assert o in store[c].objects && Edge(o, p.mem, p.obj) in PrefixEdges(objects);
    }
    forall c, p | c in store && p in store[c].prefixes
      ensures p.obj in findMap
    {
      TargetsNamed(objects, Edge(store[c].objects[0], p.mem, p.obj));
    }
  }

  /** One object per class: the partition is the identity, and it is complete. */
  lemma SingletonsComplete(objects: set<Name>, list: seq<ClassId>, store: Store, nextId: ClassId,
                           findMap: Labelling)
    requires WellNamed(objects) && findMap.Keys == Reprs(objects)
    requires Singletons(list, store, nextId, findMap, PrefixEdges(objects))
    ensures Partition(store, findMap) && Sound(store, PrefixEdges(objects)) && Known(store, findMap.Keys)
    ensures Complete(store, findMap, PrefixEdges(objects), {})
    ensures forall x, y :: Same(findMap, x, y) ==> x == y
  {
    hide PrefixEdges, Reprs;
    SingletonPartition(objects, list, store, nextId, findMap);
    SingletonSound(objects, list, store, nextId, findMap);
    forall e | e in PrefixEdges(objects)
      ensures e.source in findMap && Prefix(e.target, e.mem) in store[findMap[e.source]].prefixes
    {
      TargetsNamed(objects, e);
      var p := Prefix(e.target, e.mem);
      assert Edge(e.source, p.mem, p.obj) == e;
    }
    StoredAsIs(store, findMap, PrefixEdges(objects));
  }

  lemma StoredAsIs(store: Store, findMap: Labelling, edges: set<Edge>)
    requires Partition(store, findMap)
    requires forall e :: e in edges ==>
               e.source in findMap && Prefix(e.target, e.mem) in store[findMap[e.source]].prefixes
    ensures Complete(store, findMap, edges, {})
  {
  }

  lemma TargetsNamed(objects: set<Name>, e: Edge)
    requires e in PrefixEdges(objects)
    ensures e.source in Reprs(objects) && e.target in Reprs(objects)
  {
  }

  /** The start of the analysis: every object alone, every prefix edge represented. */
  method InitContainer(objects: set<Name>, functions: set<string>, infos: map<FuncName, FunctionInfo>,
                       calls: map<CallId, CallInfo>, parents: map<CallId, FuncName>)
    returns (data: EquivClassContainer)
    requires WellNamed(objects)
    ensures fresh(data) && data.Valid({}) && data.findMap.Keys == Reprs(objects)
    ensures forall x, y :: Same(data.findMap, x, y) ==> x == y
    ensures data.edges == PrefixEdges(objects) && FunctionsRecorded(data.functionMap, objects, functions)
    ensures data.functionInfoMap == infos && data.callInfoMap == calls && data.callExprParentMap == parents
  {
    hide Singletons, FunctionsRecorded, Partition, Sound, Complete, Known, Distinct, PrefixEdges, Reprs, WellNamed;
    data := new EquivClassContainer.FromParts([], map[], 0, map[], map[], infos, calls, parents, {});
    InitEquivClasses(data, objects, functions);
    InitPrefixClasses(data, objects);
    SingletonsComplete(objects, data.equivClasses, data.store, data.nextId, data.findMap);
    SingletonList(data.equivClasses, data.store, data.nextId, data.findMap, PrefixEdges(objects));
    data.edges := PrefixEdges(objects);
    data.InitReferencedInCalls();
  }

  lemma SingletonList(list: seq<ClassId>, store: Store, nextId: ClassId, findMap: Labelling, edges: set<Edge>)
    requires Singletons(list, store, nextId, findMap, edges)
    ensures Distinct(list) && (forall c :: c in list <==> c in store) && forall c :: c in store ==> c < nextId
  {
  }
}
