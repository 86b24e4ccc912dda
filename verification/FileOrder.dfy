/**
 Does the order of two files matter?  (mergeEquivalenceClasses, cgcollector/tools/CGMerge.cpp)

 Formals, names and variadicity of a function known to both files must agree, but the objects
 it may return need not: a nonempty list of the first file is kept.  A declaration lists at
 least its symbolic result, so when the declaring file comes first the returned objects of the
 defining file are dropped.
 */
module FileOrder {
  import opened Labellings
  import opened AliasAnalysis
  import opened CGMerge

  /** Both orders have the same partition. */
  ghost predicate SamePartition(l: Labelling, l': Labelling) {
    forall a, b :: Same(l, a, b) <==> Same(l', a, b)
  }

  /** The result of merging two files, in this order. */
  ghost predicate ResultOf(p1: Program, p2: Program, l1: Labelling, l2: Labelling, l: Labelling) {
    LeastSolution(MergedProgram(p1, p2), l1, l2, ParamPairs(p1.infos, p2.infos), l)
  }

  /** Two files that name the same things in the same way. */
  ghost predicate SharedData(p1: Program, p2: Program) {
    && InfosAgree(p1.infos, p2.infos)
    && (forall f :: f in p1.functions && f in p2.functions ==> p1.functions[f] == p2.functions[f])
    && (forall c :: c in p1.calls && c in p2.calls ==> p1.calls[c] == p2.calls[c])
  }

  /** A call is equivalent to all that a file says a function returns. */
  ghost predicate KeepsReturned(infos: map<FuncName, FunctionInfo>, n: FuncName, c: CallId, l: Labelling) {
    n in infos ==> Joins(l, PairsWith(c, infos[n].returned))
  }

  /** Wherever a call meets a function, no returned object of either file has been lost. */
  ghost predicate NothingLost(p1: Program, p2: Program, l: Labelling) {
    forall f, c :: HasMeeting(MergedProgram(p1, p2), l, f, c) ==>
                     var n := MergedProgram(p1, p2).functions[f];
                     KeepsReturned(p1.infos, n, c, l) && KeepsReturned(p2.infos, n, c, l)
  }

  // ---------------------------------------------------------------- from one order to the other

  lemma ParamsSwapped(p1: Program, p2: Program, r: Labelling)
    requires InfosAgree(p1.infos, p2.infos) && Joins(r, ParamPairs(p1.infos, p2.infos))
    ensures Joins(r, ParamPairs(p2.infos, p1.infos))
    ensures forall n, i :: n in p1.infos && n in p2.infos && 0 <= i < |p1.infos[n].parameters|
                           ==> Same(r, p1.infos[n].parameters[i], p2.infos[n].parameters[i])
  {
    forall n, i | n in p1.infos && n in p2.infos && 0 <= i < |p1.infos[n].parameters|
      ensures Same(r, p1.infos[n].parameters[i], p2.infos[n].parameters[i])
    {
      var a, b := p1.infos[n].parameters[i], p2.infos[n].parameters[i];
      if a != b {
        assert (a, b) in ParamsOf(p1.infos[n].parameters, p2.infos[n].parameters);
        assert (a, b) in ParamPairs(p1.infos, p2.infos);
      }
    }
    forall a, b | (a, b) in ParamPairs(p2.infos, p1.infos)
      ensures Same(r, a, b)
    {
      var n :| n in p2.infos && n in p1.infos && (a, b) in ParamsOf(p2.infos[n].parameters, p1.infos[n].parameters);
      var i :| 0 <= i < |p2.infos[n].parameters| && i < |p1.infos[n].parameters|
               && (a, b) == (p2.infos[n].parameters[i], p1.infos[n].parameters[i]);
      assert Same(r, p1.infos[n].parameters[i], p2.infos[n].parameters[i]);
    }
  }

  lemma SharedDataSwapped(p1: Program, p2: Program)
    requires SharedData(p1, p2)
    ensures SharedData(p2, p1)
  {
  }

  lemma MeetingSwapped(p1: Program, p2: Program, r: Labelling, f: Obj, c: CallId)
    requires SharedData(p1, p2) && HasMeeting(MergedProgram(p2, p1), r, f, c)
    ensures var p, q := MergedProgram(p1, p2), MergedProgram(p2, p1);
            && HasMeeting(p, r, f, c) && p.functions[f] == q.functions[f] && p.calls[c] == q.calls[c]
            && p.functions[f] in p.infos && p.functions[f] in q.infos
  {
    var p, q := MergedProgram(p1, p2), MergedProgram(p2, p1);
    var o :| Calls(q.calls, c, o) && Same(r, f, o);
    assert Calls(p.calls, c, o);
  }

  /** The formals of the two merged descriptions are equivalent, position by position. */
  lemma FormalsSwapped(p1: Program, p2: Program, r: Labelling, n: FuncName)
    requires InfosAgree(p1.infos, p2.infos) && Joins(r, ParamPairs(p1.infos, p2.infos))
    requires n in p1.infos || n in p2.infos
    ensures var i1, i2 := MergedInfos(p1.infos, p2.infos)[n], MergedInfos(p2.infos, p1.infos)[n];
            && |i1.parameters| == |i2.parameters|
            && forall i :: 0 <= i < |i1.parameters| ==> Same(r, i1.parameters[i], i2.parameters[i])
  {
    ParamsSwapped(p1, p2, r);
  }

  /** A call that agrees with one description of a function and is equivalent to everything the
      other says is returned, agrees with the other. */
  lemma PairsSwapped(i1: FunctionInfo, i2: FunctionInfo, call: CallInfo, c: CallId, r: Labelling)
    requires |i1.parameters| == |i2.parameters|
    requires forall i :: 0 <= i < |i1.parameters| ==> Same(r, i1.parameters[i], i2.parameters[i])
    requires Joins(r, CallPairs(i1, call, c)) && Joins(r, PairsWith(c, i2.returned))
    ensures Joins(r, CallPairs(i2, call, c))
  {
    forall a, b | (a, b) in CallPairs(i2, call, c)
      ensures Same(r, a, b)
    {
      if (a, b) in ArgumentPairs(i2.parameters, call.arguments) {
        var i :| 0 <= i < |i2.parameters| && i < |call.arguments| && b in call.arguments[i] && a == i2.parameters[i];
        assert (i1.parameters[i], b) in ArgumentPairs(i1.parameters, call.arguments);
        assert Same(r, i1.parameters[i], b);
      }
    }
  }

  lemma ResolvedSwapped(p1: Program, p2: Program, r: Labelling, f: Obj, c: CallId)
    requires SharedData(p1, p2) && Joins(r, ParamPairs(p1.infos, p2.infos)) && NothingLost(p1, p2, r)
    requires HasMeeting(MergedProgram(p2, p1), r, f, c)
    requires Closed(MergedProgram(p1, p2), r)
    ensures Resolved(MergedProgram(p2, p1), r, f, c)
  {
    hide Joins, CallPairs, PairsWith, Congruent, ParamPairs, InfosAgree;
    var p, q := MergedProgram(p1, p2), MergedProgram(p2, p1);
    MeetingSwapped(p1, p2, r, f, c);
    FormalsSwapped(p1, p2, r, p.functions[f]);
    PairsSwapped(p.infos[p.functions[f]], q.infos[p.functions[f]], p.calls[c], c, r);
  }

  /** A solution for one order that has lost nothing is a solution for the other. */
  lemma SolvesSwapped(p1: Program, p2: Program, l1: Labelling, l2: Labelling, r: Labelling)
    requires SharedData(p1, p2) && NothingLost(p1, p2, r)
    requires Solves(MergedProgram(p1, p2), l1, l2, ParamPairs(p1.infos, p2.infos), r)
    ensures Solves(MergedProgram(p2, p1), l2, l1, ParamPairs(p2.infos, p1.infos), r)
  {
    ParamsSwapped(p1, p2, r);
    assert p1.edges + p2.edges == p2.edges + p1.edges;
    forall f, c | HasMeeting(MergedProgram(p2, p1), r, f, c)
      ensures Resolved(MergedProgram(p2, p1), r, f, c)
    {
      ResolvedSwapped(p1, p2, r, f, c);
    }
  }

  // ---------------------------------------------------------------- when the order is immaterial

  lemma SameClosure(p: Program, l: Labelling, l': Labelling, f: Obj, c: CallId)
    requires SamePartition(l, l') && HasMeeting(p, l, f, c) && Closed(p, l')
    ensures HasMeeting(p, l', f, c) && Joins(l, CallPairs(p.infos[p.functions[f]], p.calls[c], c))
  {
    var o :| Calls(p.calls, c, o) && Same(l, f, o);
    assert Same(l', f, o);
    assert Resolved(p, l', f, c);
  }

  /** With one partition for both orders, each is closed for both programs. */
  lemma BothKept(p1: Program, p2: Program, l: Labelling, l': Labelling)
    requires SharedData(p1, p2) && SamePartition(l, l')
    requires Closed(MergedProgram(p1, p2), l) && Closed(MergedProgram(p2, p1), l')
    ensures NothingLost(p1, p2, l)
  {
    hide Congruent, InfosAgree;
    var p, q := MergedProgram(p1, p2), MergedProgram(p2, p1);
    forall f, c | HasMeeting(p, l, f, c)
      ensures KeepsReturned(p1.infos, p.functions[f], c, l) && KeepsReturned(p2.infos, p.functions[f], c, l)
    {
      SharedDataSwapped(p1, p2);
      MeetingSwapped(p2, p1, l, f, c);
      SameClosure(q, l, l', f, c);
      assert Resolved(p, l, f, c);
      BothLists(p1, p2, p.functions[f], p.calls[c], c, l);
    }
  }

  lemma BothLists(p1: Program, p2: Program, n: FuncName, call: CallInfo, c: CallId, l: Labelling)
    requires n in p1.infos || n in p2.infos
    requires Joins(l, CallPairs(MergedInfos(p1.infos, p2.infos)[n], call, c))
    requires Joins(l, CallPairs(MergedInfos(p2.infos, p1.infos)[n], call, c))
    ensures KeepsReturned(p1.infos, n, c, l) && KeepsReturned(p2.infos, n, c, l)
  {
  }

  /** The two orders give one partition if and only if neither has lost an object that one of the
      files says is returned. */
  lemma FileOrderExact(p1: Program, p2: Program, l1: Labelling, l2: Labelling, l: Labelling, l': Labelling)
    requires SharedData(p1, p2) && ResultOf(p1, p2, l1, l2, l) && ResultOf(p2, p1, l2, l1, l')
    ensures SamePartition(l, l') <==> NothingLost(p1, p2, l) && NothingLost(p2, p1, l')
  {
    hide MergedProgram, NothingLost, SharedData, ParamPairs, Closed, Joins;
    SharedDataSwapped(p1, p2);
    if NothingLost(p1, p2, l) && NothingLost(p2, p1, l') {
      SolvesSwapped(p1, p2, l1, l2, l);
      SolvesSwapped(p2, p1, l2, l1, l');
    }
    if SamePartition(l, l') {
      BothKept(p1, p2, l, l');
      BothKept(p2, p1, l', l);
    }
  }

  /** An equivalence that contains everything but call resolution: both partitions, both files'
      prefix edges, and the formals of shared functions. */
  ghost predicate Base(p1: Program, p2: Program, l1: Labelling, l2: Labelling, r: Labelling) {
    && Coarser(l1, r) && Coarser(l2, r) && Congruent(p1.edges + p2.edges, r)
    && Joins(r, ParamPairs(p1.infos, p2.infos))
  }

  ghost predicate HasSame(r: Labelling, a: Obj, t: seq<Obj>) {
    exists b :: b in t && Same(r, a, b)
  }

  ghost predicate SameUpTo(r: Labelling, s: seq<Obj>, t: seq<Obj>) {
    && (forall a :: a in s ==> HasSame(r, a, t))
    && (forall b :: b in t ==> HasSame(r, b, s))
  }

  /** The guard of the branch that drops a list: one list is empty, or both say the same up to
      what is equivalent before any call is resolved. */
  ghost predicate ReturnedAgree(p1: Program, p2: Program, l1: Labelling, l2: Labelling) {
    forall n :: n in p1.infos && n in p2.infos ==>
      || p1.infos[n].returned == [] || p2.infos[n].returned == []
      || forall r :: Base(p1, p2, l1, l2, r) ==> SameUpTo(r, p1.infos[n].returned, p2.infos[n].returned)
  }

  lemma KeptUpTo(r: Labelling, c: CallId, s: seq<Obj>, t: seq<Obj>)
    requires SameUpTo(r, s, t) && Joins(r, PairsWith(c, s))
    ensures Joins(r, PairsWith(c, t))
  {
    hide HasSame;
    forall b | b in t
      ensures Same(r, c, b)
    {
      assert HasSame(r, b, s);
      KeptOne(r, c, s, b);
    }
  }

  lemma KeptOne(r: Labelling, c: CallId, s: seq<Obj>, b: Obj)
    requires HasSame(r, b, s) && Joins(r, PairsWith(c, s))
    ensures Same(r, c, b)
  {
    var a :| a in s && Same(r, b, a);
    assert (c, a) in PairsWith(c, s);
  }

  lemma AgreeingKeeps(p1: Program, p2: Program, l1: Labelling, l2: Labelling, r: Labelling)
    requires SharedData(p1, p2) && ReturnedAgree(p1, p2, l1, l2)
    requires Solves(MergedProgram(p1, p2), l1, l2, ParamPairs(p1.infos, p2.infos), r)
    ensures NothingLost(p1, p2, r)
  {
    var p := MergedProgram(p1, p2);
    assert Base(p1, p2, l1, l2, r);
    hide Base, Coarser, Congruent, InfosAgree;
    forall f, c | HasMeeting(p, r, f, c)
      ensures KeepsReturned(p1.infos, p.functions[f], c, r) && KeepsReturned(p2.infos, p.functions[f], c, r)
    {
      var n := p.functions[f];
      assert Resolved(p, r, f, c);
      ReturnedJoined(p.infos[n], p.calls[c], c, r);
      if n in p1.infos && n in p2.infos && p1.infos[n].returned != [] && p2.infos[n].returned != [] {
        KeptUpTo(r, c, p1.infos[n].returned, p2.infos[n].returned);
      }
    }
  }

  lemma ReturnedJoined(info: FunctionInfo, call: CallInfo, c: CallId, r: Labelling)
    requires Joins(r, CallPairs(info, call, c))
    ensures Joins(r, PairsWith(c, info.returned))
  {
  }

  lemma AgreeSwapped(p1: Program, p2: Program, l1: Labelling, l2: Labelling)
    requires SharedData(p1, p2) && ReturnedAgree(p1, p2, l1, l2)
    ensures ReturnedAgree(p2, p1, l2, l1)
  {
    hide HasSame, Congruent, Coarser;
    forall n, r | n in p1.infos && n in p2.infos && p1.infos[n].returned != [] && p2.infos[n].returned != []
                  && Base(p2, p1, l2, l1, r)
      ensures SameUpTo(r, p2.infos[n].returned, p1.infos[n].returned)
    {
      ParamsSwapped(p2, p1, r);
      assert p1.edges + p2.edges == p2.edges + p1.edges;
      assert Base(p1, p2, l1, l2, r);
      assert SameUpTo(r, p1.infos[n].returned, p2.infos[n].returned);
    }
  }

  /** Files whose returned objects agree before any call is resolved can be merged in either
      order. */
  lemma FileOrderImmaterial(p1: Program, p2: Program, l1: Labelling, l2: Labelling, l: Labelling, l': Labelling)
    requires SharedData(p1, p2) && ReturnedAgree(p1, p2, l1, l2)
    requires ResultOf(p1, p2, l1, l2, l) && ResultOf(p2, p1, l2, l1, l')
    ensures SamePartition(l, l')
  {
    SharedDataSwapped(p1, p2);
    AgreeSwapped(p1, p2, l1, l2);
    AgreeingKeeps(p1, p2, l1, l2, l);
    AgreeingKeeps(p2, p1, l2, l1, l');
    FileOrderExact(p1, p2, l1, l2, l, l');
  }

  // ---------------------------------------------------------------- when it is not

  /** Behind a nonempty list, the list of the second file is ignored, whatever it says. */
  lemma SecondListIgnored(p1: Program, p2: Program, n: FuncName, returned: seq<Obj>)
    requires n in p1.infos && n in p2.infos && p1.infos[n].returned != []
    ensures var p3 := p2.(infos := p2.infos[n := p2.infos[n].(returned := returned)]);
            && MergedProgram(p1, p3) == MergedProgram(p1, p2)
            && ParamPairs(p1.infos, p3.infos) == ParamPairs(p1.infos, p2.infos)
  {
    var infos3 := p2.infos[n := p2.infos[n].(returned := returned)];
    assert MergedInfos(p1.infos, infos3) == MergedInfos(p1.infos, p2.infos);
    assert forall m :: m in infos3 <==> m in p2.infos;
    assert forall m :: m in infos3 ==> infos3[m].parameters == p2.infos[m].parameters;
  }

  /** Nothing but a dropped list relates these objects to others: no class, no prefix edge, no
      argument, no returned object and no formal crosses the border. */
  ghost predicate Apart(p: Program, l1: Labelling, l2: Labelling, params: Pairs, objects: set<Obj>) {
    && (forall a, b :: Same(l1, a, b) || Same(l2, a, b) || (a, b) in params ==> (a in objects <==> b in objects))
    && (forall e :: e in p.edges ==> (e.source in objects <==> e.target in objects))
    && (forall n, c :: n in p.infos && c in p.calls ==> NoneCross(CallPairs(p.infos[n], p.calls[c], c), objects))
  }

  ghost predicate NoneCross(pairs: Pairs, objects: set<Obj>) {
    forall a, b :: (a, b) in pairs ==> (a in objects <==> b in objects)
  }

  /** The same equivalence, but no class reaches across the border. */
  function Split(l: Labelling, objects: set<Obj>): Labelling {
    map o | o in l :: 2 * l[o] + if o in objects then 1 else 0
  }

  lemma SplitSame(l: Labelling, objects: set<Obj>, a: Obj, b: Obj)
    ensures Same(Split(l, objects), a, b) <==> Same(l, a, b) && (a in objects <==> b in objects)
  {
  }

  /** What is apart stays apart. */
  lemma SplitSolves(p: Program, l1: Labelling, l2: Labelling, params: Pairs, l: Labelling, objects: set<Obj>)
    requires Solves(p, l1, l2, params, l) && Apart(p, l1, l2, params, objects)
    ensures Solves(p, l1, l2, params, Split(l, objects))
  {
    var r := Split(l, objects);
    hide Split, CallPairs;
    forall a, b
      ensures Same(r, a, b) <==> Same(l, a, b) && (a in objects <==> b in objects)
    {
      SplitSame(l, objects, a, b);
    }
    forall f, c | HasMeeting(p, r, f, c)
      ensures Resolved(p, r, f, c)
    {
      var o :| Calls(p.calls, c, o) && Same(r, f, o);
      assert HasMeeting(p, l, f, c);
      assert Resolved(p, l, f, c);
      assert NoneCross(CallPairs(p.infos[p.functions[f]], p.calls[c], c), objects);
    }
    assert Congruent(p.edges, r);
  }

  /** The family of files for which the order matters: within one of the files a call meets a
      function, and the second file alone relates this call to some returned object.  The object
      is found in one order and lost in the other. */
  lemma LostObject(p1: Program, p2: Program, l1: Labelling, l2: Labelling, l: Labelling, l': Labelling,
                   objects: set<Obj>, f: Obj, c: CallId, x: Obj)
    requires ResultOf(p1, p2, l1, l2, l) && ResultOf(p2, p1, l2, l1, l')
    requires Apart(MergedProgram(p1, p2), l1, l2, ParamPairs(p1.infos, p2.infos), objects)
    requires HasMeeting(MergedProgram(p2, p1), l1, f, c) || HasMeeting(MergedProgram(p2, p1), l2, f, c)
    requires x in MergedProgram(p2, p1).infos[MergedProgram(p2, p1).functions[f]].returned
    requires x in objects && c !in objects
    ensures Same(l', c, x) && !Same(l, c, x) && !SamePartition(l, l')
  {
    var p, q := MergedProgram(p1, p2), MergedProgram(p2, p1);
    SplitSolves(p, l1, l2, ParamPairs(p1.infos, p2.infos), l, objects);
    SplitSame(l, objects, c, x);
    assert Coarser(l, Split(l, objects));
    if HasMeeting(q, l1, f, c) {
      MeetingStays(q, l1, l', f, c);
    } else {
      MeetingStays(q, l2, l', f, c);
    }
    assert Resolved(q, l', f, c);
    assert (c, x) in PairsWith(c, q.infos[q.functions[f]].returned);
  }

  // ---------------------------------------------------------------- two such files

  /** A file with a main function that calls `f`, which is only declared; the symbolic results are
      "f()" and "main()". */
  const DECLARES := Program({}, map["f" := "f", "main" := "main"],
                            map["f" := FunctionInfo(["f"], [], ["f()"], false),
                                "main" := FunctionInfo(["main"], [], ["main()"], false)],
                            map["call" := CallInfo(["f"], [])])

  const CALLER_OF: map<CallId, FuncName> := map["call" := "main"]

  /** A file that defines `f`, which returns `x`. */
  const DEFINES := Program({}, map["f" := "f"], map["f" := FunctionInfo(["f"], [], ["x", "f()"], false)], map[])

  const DECLARED: Labelling := map["f" := 0, "f()" := 1, "call" := 1, "main" := 2, "main()" := 3]

  const DEFINED: Labelling := map["f" := 0, "x" := 1, "f()" := 2]

  /** The result when the declaring file comes first ... */
  const WITHOUT_X: Labelling := map["f" := 0, "f()" := 1, "call" := 1, "main" := 2, "main()" := 3, "x" := 4]

  /** ... and when the defining file does. */
  const WITH_X: Labelling := map["f" := 0, "f()" := 1, "call" := 1, "x" := 1, "main" := 2, "main()" := 3]

  /** Both files are as the merge demands. */
  lemma ExampleIsKnown()
    ensures SharedData(DECLARES, DEFINES)
    ensures InformationKnown(DECLARES.functions, DECLARES.infos, DECLARES.calls, CALLER_OF, DECLARED.Keys)
    ensures InformationKnown(DEFINES.functions, DEFINES.infos, DEFINES.calls, map[], DEFINED.Keys)
    ensures CallersListed(DECLARES.infos, CALLER_OF, {"main", "f"})
  {
    hide SharedData, InformationKnown, CallersListed;
    ExampleIsShared();
    DeclaresIsKnown();
    DefinesIsKnown();
  }

  lemma ExampleIsShared()
    ensures SharedData(DECLARES, DEFINES)
  {
  }

  lemma DeclaresIsKnown()
    ensures InformationKnown(DECLARES.functions, DECLARES.infos, DECLARES.calls, CALLER_OF, DECLARED.Keys)
    ensures CallersListed(DECLARES.infos, CALLER_OF, {"main", "f"})
  {
  }

  lemma DefinesIsKnown()
    ensures InformationKnown(DEFINES.functions, DEFINES.infos, DEFINES.calls, map[], DEFINED.Keys)
  {
  }

  lemma WithoutXAdds(a: Obj, b: Obj)
    requires Same(WITHOUT_X, a, b)
    ensures Same(DECLARED, a, b)
  {
  }

  lemma WithXAdds(r: Labelling, a: Obj, b: Obj)
    requires Same(r, "call", "x") && Same(r, "call", "f()") && Same(WITH_X, a, b)
    ensures Same(r, a, b)
  {
  }

  lemma PartsKept(a: Obj, b: Obj)
    ensures Same(DECLARED, a, b) ==> Same(WITHOUT_X, a, b) && Same(WITH_X, a, b)
    ensures Same(DEFINED, a, b) ==> Same(WITHOUT_X, a, b) && Same(WITH_X, a, b)
  {
  }

  lemma Containing()
    ensures Coarser(DECLARED, WITHOUT_X) && Coarser(DEFINED, WITHOUT_X)
    ensures Coarser(DECLARED, WITH_X) && Coarser(DEFINED, WITH_X)
  {
    hide Same;
    forall a, b
      ensures Same(DECLARED, a, b) ==> Same(WITHOUT_X, a, b) && Same(WITH_X, a, b)
      ensures Same(DEFINED, a, b) ==> Same(WITHOUT_X, a, b) && Same(WITH_X, a, b)
    {
      PartsKept(a, b);
    }
  }

  ghost predicate EitherOrder(p: Program) {
    p == MergedProgram(DECLARES, DEFINES) || p == MergedProgram(DEFINES, DECLARES)
  }

  /** A map that says nothing new changes nothing. */
  lemma NothingNew<K, V>(small: map<K, V>, large: map<K, V>)
    requires forall k :: k in small ==> k in large && large[k] == small[k]
    ensures small + large == large && large + small == large
  {
  }

  lemma MergedExample(p: Program)
    requires EitherOrder(p)
    ensures p.edges == {} && p.functions == DECLARES.functions && p.calls == DECLARES.calls
    ensures p.infos.Keys == {"f", "main"}
  {
    var functions1, functions2, calls1, calls2 := DECLARES.functions, DEFINES.functions, DECLARES.calls, DEFINES.calls;
    NothingNew(functions2, functions1);
    NothingNew(calls2, calls1);
    assert DECLARES.infos.Keys == {"f", "main"} && DEFINES.infos.Keys == {"f"};
    MergedKeys(DECLARES.infos, DEFINES.infos);
    hide MergedInfos;
    assert {"f", "main"} + {"f"} == {"f", "main"};
  }

  lemma MergedKeys(infos1: map<FuncName, FunctionInfo>, infos2: map<FuncName, FunctionInfo>)
    ensures MergedInfos(infos1, infos2).Keys == MergedInfos(infos2, infos1).Keys == infos1.Keys + infos2.Keys
  {
  }

  lemma MergedReturned()
    ensures MergedInfos(DECLARES.infos, DEFINES.infos)["f"] == DECLARES.infos["f"]
    ensures MergedInfos(DEFINES.infos, DECLARES.infos)["f"] == DEFINES.infos["f"]
  {
    assert "f" in DECLARES.infos && "f" in DEFINES.infos;
  }

  lemma NoFormals()
    ensures ParamPairs(DECLARES.infos, DEFINES.infos) == {} && ParamPairs(DEFINES.infos, DECLARES.infos) == {}
  {
    assert forall n :: n in DECLARES.infos && n in DEFINES.infos ==> n == "f";
  }

  lemma MeetsOnlyF(p: Program, l: Labelling, f: Obj, c: CallId)
    requires EitherOrder(p)
    requires l == WITHOUT_X || l == WITH_X
    requires HasMeeting(p, l, f, c)
    ensures f == "f" && c == "call"
  {
    MergedExample(p);
    hide MergedProgram;
    var o :| Calls(p.calls, c, o) && Same(l, f, o);
    assert c == "call" && o == "f";
    OnlyItself(f);
  }

  lemma OnlyItself(f: Obj)
    requires Same(WITHOUT_X, f, "f") || Same(WITH_X, f, "f")
    ensures f == "f"
  {
  }

  lemma DeclaringFirst()
    ensures ResultOf(DECLARES, DEFINES, DECLARED, DEFINED, WITHOUT_X)
  {
    var p := MergedProgram(DECLARES, DEFINES);
    MergedExample(p);
    MergedReturned();
    NoFormals();
    Containing();
    hide MergedProgram, Coarser, Same, HasMeeting, ParamPairs, MergedInfos;
    forall f, c | HasMeeting(p, WITHOUT_X, f, c)
      ensures Resolved(p, WITHOUT_X, f, c)
    {
      MeetsOnlyF(p, WITHOUT_X, f, c);
      WithoutXResolved(p.infos["f"], p.calls["call"]);
    }
    forall r | Coarser(DECLARED, r)
      ensures Coarser(WITHOUT_X, r)
    {
      WithoutXLeast(r);
    }
  }

  lemma WithoutXResolved(info: FunctionInfo, call: CallInfo)
    requires info.parameters == [] && info.returned == ["f()"]
    ensures Joins(WITHOUT_X, CallPairs(info, call, "call"))
  {
  }

  lemma WithXResolved(info: FunctionInfo, call: CallInfo)
    requires info.parameters == [] && info.returned == ["x", "f()"]
    ensures Joins(WITH_X, CallPairs(info, call, "call"))
  {
  }

  lemma WithoutXLeast(r: Labelling)
    requires Coarser(DECLARED, r)
    ensures Coarser(WITHOUT_X, r)
  {
    hide Same;
    forall a, b | Same(WITHOUT_X, a, b)
      ensures Same(r, a, b)
    {
      WithoutXAdds(a, b);
    }
  }

  lemma WithXLeast(r: Labelling)
    requires Same(r, "call", "x") && Same(r, "call", "f()")
    ensures Coarser(WITH_X, r)
  {
    hide Same;
    forall a, b | Same(WITH_X, a, b)
      ensures Same(r, a, b)
    {
      WithXAdds(r, a, b);
    }
  }

  lemma DefiningFirst()
    ensures ResultOf(DEFINES, DECLARES, DEFINED, DECLARED, WITH_X)
  {
    var p := MergedProgram(DEFINES, DECLARES);
    MergedExample(p);
    MergedReturned();
    NoFormals();
    Containing();
    hide MergedProgram, Coarser, MergedInfos, ParamPairs;
    forall f, c | HasMeeting(p, WITH_X, f, c)
      ensures Resolved(p, WITH_X, f, c)
    {
      MeetsOnlyF(p, WITH_X, f, c);
      WithXResolved(p.infos["f"], p.calls["call"]);
    }
    forall r | Closed(p, r)
      ensures Coarser(WITH_X, r)
    {
      CallReturnsX(p, r);
      WithXLeast(r);
    }
  }

  lemma CallReturnsX(p: Program, r: Labelling)
    requires p == MergedProgram(DEFINES, DECLARES) && Closed(p, r)
    ensures Same(r, "call", "x") && Same(r, "call", "f()")
  {
    MergedExample(p);
    MergedReturned();
    assert Calls(p.calls, "call", "f") && Same(r, "f", "f") by {
      assert "f" in ["f"];
    }
    assert HasMeeting(p, r, "f", "call") && Resolved(p, r, "f", "call");
    var returned := p.infos["f"].returned;
    assert returned == ["x", "f()"] && returned[0] == "x" && returned[1] == "f()";
    assert ("call", "x") in PairsWith("call", returned) && ("call", "f()") in PairsWith("call", returned);
  }

  /** They are of the family above: only the defining file relates `x` to anything. */
  lemma ExampleIsApart()
    ensures Apart(MergedProgram(DECLARES, DEFINES), DECLARED, DEFINED, {}, {"x"})
  {
    var p := MergedProgram(DECLARES, DEFINES);
    MergedExample(p);
    MergedReturned();
    PartsApart();
    hide MergedProgram, MergedInfos, Same, NoneCross, CallPairs;
    forall n, c | n in p.infos && c in p.calls
      ensures NoneCross(CallPairs(p.infos[n], p.calls[c], c), {"x"})
    {
      InfoApart(p.infos[n], p.calls[c]);
    }
  }

  lemma PartsApart()
    ensures forall a, b :: Same(DECLARED, a, b) || Same(DEFINED, a, b) ==> (a in {"x"} <==> b in {"x"})
  {
  }

  lemma InfoApart(info: FunctionInfo, call: CallInfo)
    requires call.arguments == [] && "x" !in info.returned
    ensures NoneCross(CallPairs(info, call, "call"), {"x"})
  {
  }

  /** So `x` is lost: the call meets `f` already in the declaring file. */
  lemma ExampleLosesX(l: Labelling, l': Labelling)
    requires ResultOf(DECLARES, DEFINES, DECLARED, DEFINED, l) && ResultOf(DEFINES, DECLARES, DEFINED, DECLARED, l')
    ensures Same(l', "call", "x") && !Same(l, "call", "x") && !SamePartition(l, l')
  {
    hide MergedProgram, Apart, ResultOf, HasMeeting, ParamPairs, MergedInfos, Same, SamePartition;
    NoFormals();
    ExampleIsApart();
    MeetsInDeclares();
    ReturnsX();
    LostObject(DECLARES, DEFINES, DECLARED, DEFINED, l, l', {"x"}, "f", "call", "x");
  }

  lemma ReturnsX()
    ensures var q := MergedProgram(DEFINES, DECLARES);
            "f" in q.functions && q.functions["f"] in q.infos && "x" in q.infos[q.functions["f"]].returned
  {
    MergedExample(MergedProgram(DEFINES, DECLARES));
    MergedReturned();
  }

  lemma MeetsInDeclares()
    ensures HasMeeting(MergedProgram(DEFINES, DECLARES), DECLARED, "f", "call")
  {
    var q := MergedProgram(DEFINES, DECLARES);
    MergedExample(q);
    hide MergedProgram;
    assert "f" in ["f"];
    assert Calls(q.calls, "call", "f") && Same(DECLARED, "f", "f");
  }

  /** Defining file first: the call is equivalent to what `f` returns.  Declaring file first: it
      is not. */
  lemma FileOrderMatters()
    ensures ResultOf(DECLARES, DEFINES, DECLARED, DEFINED, WITHOUT_X) && !Same(WITHOUT_X, "call", "x")
    ensures ResultOf(DEFINES, DECLARES, DEFINED, DECLARED, WITH_X) && Same(WITH_X, "call", "x")
    ensures !SamePartition(WITHOUT_X, WITH_X)
  {
    DeclaringFirst();
    DefiningFirst();
    assert !Same(WITHOUT_X, "call", "x");
  }
}
