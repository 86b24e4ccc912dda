/**
 Does the order of many files matter?  (mergeEquivalenceClasses, cgcollector/tools/CGMerge.cpp)

 What the files demand together can be said without any order.  A result that meets all of it is
 the result of every order; the one thing an order can lose is a list of returned objects.
 */
module ManyOrders {
  import opened Labellings
  import opened AliasAnalysis
  import opened CGMerge
  import opened FileOrder
  import opened ManyFiles
  import opened LeastExists

  /** The same files, in some order and however often. */
  ghost predicate SameInputs(inputs: seq<Input>, inputs': seq<Input>) {
    forall p :: p in inputs <==> p in inputs'
  }

  ghost predicate ParentsAgree(p: Input, q: Input) {
    forall c :: c in p.parents && c in q.parents ==> p.parents[c] == q.parents[c]
  }

  /** Files that name the same things in the same way. */
  ghost predicate AllShared(inputs: seq<Input>) {
    forall p, q :: p in inputs && q in inputs ==> SharedData(p.prog, q.prog) && ParentsAgree(p, q)
  }

  // ---------------------------------------------------------------- the folded program

  function AllEdges(inputs: seq<Input>): set<Edge> {
    set p, e | p in inputs && e in p.prog.edges :: e
  }

  /** The description of a function is put together from those in two files: one gives the
      returned objects, one the rest. */
  ghost predicate TakenFrom(inputs: seq<Input>, n: FuncName, info: FunctionInfo, p: Input, q: Input) {
    && p in inputs && n in p.prog.infos && q in inputs && n in q.prog.infos
    && info == p.prog.infos[n].(returned := q.prog.infos[n].returned)
  }

  ghost predicate Taken(inputs: seq<Input>, n: FuncName, info: FunctionInfo) {
    exists p, q :: TakenFrom(inputs, n, info, p, q)
  }

  ghost predicate Covers(s: Program, parents: map<CallId, FuncName>, p: Input) {
    && (forall f :: f in p.prog.functions ==> f in s.functions && s.functions[f] == p.prog.functions[f])
    && (forall c :: c in p.prog.calls ==> c in s.calls && s.calls[c] == p.prog.calls[c])
    && (forall c :: c in p.parents ==> c in parents && parents[c] == p.parents[c])
    && (forall n :: n in p.prog.infos ==>
          n in s.infos && (s.infos[n].returned == [] ==> p.prog.infos[n].returned == []))
  }

  /** What holds of the program of all files, whatever their order. */
  ghost predicate Describes(inputs: seq<Input>, s: Program, parents: map<CallId, FuncName>) {
    && s.edges == AllEdges(inputs)
    && (forall p :: p in inputs ==> Covers(s, parents, p))
    && (forall f :: f in s.functions ==> exists p :: p in inputs && f in p.prog.functions)
    && (forall c :: c in s.calls ==> exists p :: p in inputs && c in p.prog.calls)
    && (forall c :: c in parents ==> exists p :: p in inputs && c in p.parents)
    && (forall n :: n in s.infos ==> Taken(inputs, n, s.infos[n]))
  }

  lemma {:induction false} FoldedDescribes(inputs: seq<Input>)
    requires AllShared(inputs)
    ensures Describes(inputs, FoldedProgram(inputs), FoldedParents(inputs))
  {
    if inputs != [] {
      var init, last := inputs[..|inputs| - 1], inputs[|inputs| - 1];
      FoldedDescribes(init);
      assert inputs == init + [last];
      OneMoreDescribed(init, last, FoldedProgram(init), FoldedParents(init));
      Folded(init, last);
    }
  }

  lemma OneMoreDescribed(inputs: seq<Input>, last: Input, s: Program, parents: map<CallId, FuncName>)
    requires Describes(inputs, s, parents) && AllShared(inputs + [last])
    ensures Describes(inputs + [last], MergedProgram(s, last.prog), last.parents + parents)
  {
    var more, s', parents' := inputs + [last], MergedProgram(s, last.prog), last.parents + parents;
    assert forall p :: p in more <==> p in inputs || p == last;
    LastCovered(inputs, last, s, parents);
    MergedNames(s, last, parents);
    hide Covers, SharedData, ParentsAgree, Taken;
    forall p | p in inputs
      ensures Covers(s', parents', p)
    {
      StaysCovered(s, parents, p, last);
    }
    hide MergedProgram;
    forall n | n in s'.infos
      ensures Taken(more, n, s'.infos[n])
    {
      StaysTaken(inputs, last, s, n);
    }
  }

  lemma MergedNames(s: Program, last: Input, parents: map<CallId, FuncName>)
    ensures var s', parents' := MergedProgram(s, last.prog), last.parents + parents;
            && s'.edges == s.edges + last.prog.edges
            && s'.functions.Keys == s.functions.Keys + last.prog.functions.Keys
            && s'.calls.Keys == s.calls.Keys + last.prog.calls.Keys
            && s'.infos.Keys == s.infos.Keys + last.prog.infos.Keys
            && parents'.Keys == parents.Keys + last.parents.Keys
  {
  }

  lemma StaysCovered(s: Program, parents: map<CallId, FuncName>, p: Input, last: Input)
    requires Covers(s, parents, p)
    ensures Covers(MergedProgram(s, last.prog), last.parents + parents, p)
  {
  }

  /** Where the next file knows the same things, it names them in the same way. */
  ghost predicate Fits(s: Program, parents: map<CallId, FuncName>, last: Input) {
    && (forall f :: f in s.functions && f in last.prog.functions ==> s.functions[f] == last.prog.functions[f])
    && (forall c :: c in s.calls && c in last.prog.calls ==> s.calls[c] == last.prog.calls[c])
    && (forall c :: c in parents && c in last.parents ==> parents[c] == last.parents[c])
  }

  lemma LastCovered(inputs: seq<Input>, last: Input, s: Program, parents: map<CallId, FuncName>)
    requires Describes(inputs, s, parents) && AllShared(inputs + [last])
    ensures Covers(MergedProgram(s, last.prog), last.parents + parents, last)
  {
    LastFits(inputs, last, s, parents);
    FittingCovered(s, parents, last);
  }

  lemma FittingCovered(s: Program, parents: map<CallId, FuncName>, last: Input)
    requires Fits(s, parents, last)
    ensures Covers(MergedProgram(s, last.prog), last.parents + parents, last)
  {
  }

  lemma LastFits(inputs: seq<Input>, last: Input, s: Program, parents: map<CallId, FuncName>)
    requires Describes(inputs, s, parents) && AllShared(inputs + [last])
    ensures Fits(s, parents, last)
  {
    hide Taken, AllShared, SharedData, ParentsAgree;
    forall f | f in s.functions && f in last.prog.functions
      ensures s.functions[f] == last.prog.functions[f]
    {
      var p :| p in inputs && f in p.prog.functions;
      SharedAt(inputs, p, last);
    }
    forall c | c in s.calls && c in last.prog.calls
      ensures s.calls[c] == last.prog.calls[c]
    {
      var p :| p in inputs && c in p.prog.calls;
      SharedAt(inputs, p, last);
    }
    forall c | c in parents && c in last.parents
      ensures parents[c] == last.parents[c]
    {
      var p :| p in inputs && c in p.parents;
      SharedAt(inputs, p, last);
    }
  }

  lemma SharedAt(inputs: seq<Input>, p: Input, q: Input)
    requires AllShared(inputs + [q]) && p in inputs
    ensures forall f :: f in p.prog.functions && f in q.prog.functions ==> p.prog.functions[f] == q.prog.functions[f]
    ensures forall c :: c in p.prog.calls && c in q.prog.calls ==> p.prog.calls[c] == q.prog.calls[c]
    ensures forall c :: c in p.parents && c in q.parents ==> p.parents[c] == q.parents[c]
  {
    assert p in inputs + [q] && q in inputs + [q];
    assert SharedData(p.prog, q.prog) && ParentsAgree(p, q);
  }

  lemma StaysTaken(inputs: seq<Input>, last: Input, s: Program, n: FuncName)
    requires forall m :: m in s.infos ==> Taken(inputs, m, s.infos[m])
    requires n in MergedProgram(s, last.prog).infos
    ensures Taken(inputs + [last], n, MergedProgram(s, last.prog).infos[n])
  {
    var more, info' := inputs + [last], MergedProgram(s, last.prog).infos[n];
    if n in s.infos {
      var p, q :| TakenFrom(inputs, n, s.infos[n], p, q);
      assert TakenFrom(more, n, info', p, q) || TakenFrom(more, n, info', p, last);
    } else {
      assert TakenFrom(more, n, info', last, last);
    }
  }

  // ---------------------------------------------------------------- what the files demand

  /** The formals of shared functions are equivalent, position by position. */
  ghost predicate SameFormals(r: Labelling, infos1: map<FuncName, FunctionInfo>, infos2: map<FuncName, FunctionInfo>) {
    forall n, i | n in infos1 && n in infos2 && 0 <= i < |infos1[n].parameters| && i < |infos2[n].parameters| ::
      Same(r, infos1[n].parameters[i], infos2[n].parameters[i])
  }

  ghost predicate FormalsJoined(inputs: seq<Input>, r: Labelling) {
    forall p, q :: p in inputs && q in inputs ==> SameFormals(r, p.prog.infos, q.prog.infos)
  }

  /** Everything but call resolution: all partitions, all prefix edges, and the formals. */
  ghost predicate Contains(inputs: seq<Input>, r: Labelling) {
    && (forall p :: p in inputs ==> Coarser(p.partition, r))
    && Congruent(AllEdges(inputs), r) && FormalsJoined(inputs, r)
  }

  /** A call in the file `q` meets a function of the file `p`. */
  ghost predicate MeetsIn(p: Input, q: Input, r: Labelling, f: Obj, c: CallId) {
    f in p.prog.functions && c in q.prog.calls && exists o :: Calls(q.prog.calls, c, o) && Same(r, f, o)
  }

  /** The call agrees with what the file `d` says of the function. */
  ghost predicate AgreesWith(p: Input, q: Input, d: Input, r: Labelling, f: Obj, c: CallId)
    requires f in p.prog.functions && c in q.prog.calls
  {
    p.prog.functions[f] in d.prog.infos ==>
      Joins(r, CallPairs(d.prog.infos[p.prog.functions[f]], q.prog.calls[c], c))
  }

  /** `r` respects everything that any file says, in no particular order. */
  ghost predicate Ideal(inputs: seq<Input>, r: Labelling) {
    && Contains(inputs, r)
    && forall p, q, d, f, c | p in inputs && q in inputs && d in inputs && MeetsIn(p, q, r, f, c) ::
         AgreesWith(p, q, d, r, f, c)
  }

  /** Wherever a call meets a function, no file's returned objects have been lost. */
  ghost predicate LosesNothing(inputs: seq<Input>, r: Labelling) {
    forall p, q, d, f, c | p in inputs && q in inputs && d in inputs && MeetsIn(p, q, r, f, c) ::
      KeepsReturned(d.prog.infos, p.prog.functions[f], c, r)
  }

  /** Told by the files' own fields: every partition, all prefix edges and all formals of shared
      functions ... */
  lemma ContainsMeans(inputs: seq<Input>, r: Labelling)
    ensures Contains(inputs, r)
            <==> (forall p, a, b | p in inputs && Same(p.partition, a, b) :: Same(r, a, b))
                 && (forall p, q, e, f | p in inputs && q in inputs && e in p.prog.edges && f in q.prog.edges
                                         && e.mem == f.mem && Same(r, e.source, f.source) ::
                       Same(r, e.target, f.target))
                 && (forall p, q, n, i | p in inputs && q in inputs && n in p.prog.infos && n in q.prog.infos
                                         && 0 <= i < |p.prog.infos[n].parameters|
                                         && i < |q.prog.infos[n].parameters| ::
                       Same(r, p.prog.infos[n].parameters[i], q.prog.infos[n].parameters[i]))
  {
    hide Same;
  }

  /** ... and every description of a function that a call of any file may reach. */
  lemma IdealMeans(inputs: seq<Input>, r: Labelling)
    ensures Ideal(inputs, r)
            <==> Contains(inputs, r)
                 && forall p, q, d, f, c, o |
                      p in inputs && q in inputs && d in inputs && f in p.prog.functions && c in q.prog.calls
                      && p.prog.functions[f] in d.prog.infos && o in q.prog.calls[c].calledObjects && Same(r, f, o) ::
                      var info, call := d.prog.infos[p.prog.functions[f]], q.prog.calls[c];
                      (forall i, a | 0 <= i < |info.parameters| && i < |call.arguments| && a in call.arguments[i] ::
                         Same(r, info.parameters[i], a))
                      && forall x | x in info.returned :: Same(r, c, x)
  {
    hide Contains;
    if Ideal(inputs, r) {
      IdealGives(inputs, r);
    }
    hide Ideal;
    if Contains(inputs, r)
       && forall p, q, d, f, c, o |
            p in inputs && q in inputs && d in inputs && f in p.prog.functions && c in q.prog.calls
            && p.prog.functions[f] in d.prog.infos && o in q.prog.calls[c].calledObjects && Same(r, f, o) ::
            var info, call := d.prog.infos[p.prog.functions[f]], q.prog.calls[c];
            (forall i, a | 0 <= i < |info.parameters| && i < |call.arguments| && a in call.arguments[i] ::
               Same(r, info.parameters[i], a))
            && forall x | x in info.returned :: Same(r, c, x) {
      IdealFrom(inputs, r);
    }
  }

  lemma IdealGives(inputs: seq<Input>, r: Labelling)
    requires Ideal(inputs, r)
    ensures forall p, q, d, f, c, o |
              p in inputs && q in inputs && d in inputs && f in p.prog.functions && c in q.prog.calls
              && p.prog.functions[f] in d.prog.infos && o in q.prog.calls[c].calledObjects && Same(r, f, o) ::
              var info, call := d.prog.infos[p.prog.functions[f]], q.prog.calls[c];
              (forall i, a | 0 <= i < |info.parameters| && i < |call.arguments| && a in call.arguments[i] ::
                 Same(r, info.parameters[i], a))
              && forall x | x in info.returned :: Same(r, c, x)
  {
    hide Same, MeetsIn, AgreesWith, Contains;
    forall p, q, d, f, c, o |
      p in inputs && q in inputs && d in inputs && f in p.prog.functions && c in q.prog.calls
      && p.prog.functions[f] in d.prog.infos && o in q.prog.calls[c].calledObjects && Same(r, f, o)
      ensures var info, call := d.prog.infos[p.prog.functions[f]], q.prog.calls[c];
              (forall i, a | 0 <= i < |info.parameters| && i < |call.arguments| && a in call.arguments[i] ::
                 Same(r, info.parameters[i], a))
              && forall x | x in info.returned :: Same(r, c, x)
    {
      MeetsThrough(p, q, r, f, c, o);
      AgreesMeans(p, q, d, r, f, c);
    }
  }

  lemma IdealFrom(inputs: seq<Input>, r: Labelling)
    requires Contains(inputs, r)
    requires forall p, q, d, f, c, o |
               p in inputs && q in inputs && d in inputs && f in p.prog.functions && c in q.prog.calls
               && p.prog.functions[f] in d.prog.infos && o in q.prog.calls[c].calledObjects && Same(r, f, o) ::
               var info, call := d.prog.infos[p.prog.functions[f]], q.prog.calls[c];
               (forall i, a | 0 <= i < |info.parameters| && i < |call.arguments| && a in call.arguments[i] ::
                  Same(r, info.parameters[i], a))
               && forall x | x in info.returned :: Same(r, c, x)
    ensures Ideal(inputs, r)
  {
    hide Same, Contains, AgreesWith, Calls;
    forall p, q, d, f, c | p in inputs && q in inputs && d in inputs && MeetsIn(p, q, r, f, c)
      ensures AgreesWith(p, q, d, r, f, c)
    {
      var o := CalledObject(p, q, r, f, c);
      if p.prog.functions[f] in d.prog.infos {
        AgreesMeans(p, q, d, r, f, c);
      } else {
        NothingSaid(p, q, d, r, f, c);
      }
    }
  }

  lemma CalledObject(p: Input, q: Input, r: Labelling, f: Obj, c: CallId) returns (o: Obj)
    requires MeetsIn(p, q, r, f, c)
    ensures o in q.prog.calls[c].calledObjects && Same(r, f, o)
  {
    o :| Calls(q.prog.calls, c, o) && Same(r, f, o);
  }

  lemma NothingSaid(p: Input, q: Input, d: Input, r: Labelling, f: Obj, c: CallId)
    requires f in p.prog.functions && c in q.prog.calls && p.prog.functions[f] !in d.prog.infos
    ensures AgreesWith(p, q, d, r, f, c)
  {
  }

  lemma MeetsThrough(p: Input, q: Input, r: Labelling, f: Obj, c: CallId, o: Obj)
    requires f in p.prog.functions && c in q.prog.calls && o in q.prog.calls[c].calledObjects && Same(r, f, o)
    ensures MeetsIn(p, q, r, f, c)
  {
    assert Calls(q.prog.calls, c, o);
  }

  lemma AgreesMeans(p: Input, q: Input, d: Input, r: Labelling, f: Obj, c: CallId)
    requires f in p.prog.functions && c in q.prog.calls && p.prog.functions[f] in d.prog.infos
    ensures AgreesWith(p, q, d, r, f, c)
            <==> var info, call := d.prog.infos[p.prog.functions[f]], q.prog.calls[c];
                 (forall i, a | 0 <= i < |info.parameters| && i < |call.arguments| && a in call.arguments[i] ::
                    Same(r, info.parameters[i], a))
                 && forall x | x in info.returned :: Same(r, c, x)
  {
    CallPairsJoined(r, d.prog.infos[p.prog.functions[f]], q.prog.calls[c], c);
  }

  lemma SameFormalsArePairs(r: Labelling, infos1: map<FuncName, FunctionInfo>, infos2: map<FuncName, FunctionInfo>)
    ensures Joins(r, ParamPairs(infos1, infos2)) <==> SameFormals(r, infos1, infos2)
  {
    FormalsArePairs(r, infos1, infos2);
  }

  lemma {:induction false} FoldedFormals(inputs: seq<Input>, r: Labelling)
    requires AllShared(inputs)
    ensures Joins(r, FoldedParams(inputs)) <==> FormalsJoined(inputs, r)
  {
    hide FormalsJoined, AllShared, Joins, Describes, SameFormals, FoldedProgram;
    if inputs == [] {
      NoFormalsJoined(r);
    } else {
      var init, last := inputs[..|inputs| - 1], inputs[|inputs| - 1];
      assert inputs == init + [last];
      var s := FoldedProgram(init).infos;
      FewerShared(init, last);
      FoldedFormals(init, r);
      FoldedDescribes(init);
      Folded(init, last);
      JoinsBoth(r, FoldedParams(init), ParamPairs(s, last.prog.infos));
      SameFormalsArePairs(r, s, last.prog.infos);
      FormalsOfMore(init, last, FoldedProgram(init), FoldedParents(init), r);
    }
  }

  lemma NoFormalsJoined(r: Labelling)
    ensures Joins(r, {}) && FormalsJoined([], r)
  {
  }

  lemma FewerShared(inputs: seq<Input>, last: Input)
    requires AllShared(inputs + [last])
    ensures AllShared(inputs)
  {
    assert forall p :: p in inputs ==> p in inputs + [last];
  }

  lemma JoinsBoth(r: Labelling, pairs: Pairs, more: Pairs)
    ensures Joins(r, pairs + more) <==> Joins(r, pairs) && Joins(r, more)
  {
  }

  lemma FormalsOfMore(inputs: seq<Input>, last: Input, s: Program, parents: map<CallId, FuncName>, r: Labelling)
    requires AllShared(inputs + [last]) && Describes(inputs, s, parents)
    ensures FormalsJoined(inputs + [last], r)
       <==> FormalsJoined(inputs, r) && SameFormals(r, s.infos, last.prog.infos)
  {
    var more := inputs + [last];
    assert forall p :: p in more <==> p in inputs || p == last;
    hide SameFormals, Covers, Taken, SharedData;
    if FormalsJoined(inputs, r) {
      if SameFormals(r, s.infos, last.prog.infos) {
        forall p | p in inputs
          ensures SameFormals(r, p.prog.infos, last.prog.infos) && SameFormals(r, last.prog.infos, p.prog.infos)
        {
          FormalsThrough(inputs, p, last, s, r);
        }
        FormalsReflexive(r, last.prog.infos);
      }
      if forall p :: p in inputs ==> SameFormals(r, p.prog.infos, last.prog.infos) {
        FormalsOfFolded(inputs, last, s, r);
      }
    }
  }

  lemma FormalsReflexive(r: Labelling, infos: map<FuncName, FunctionInfo>)
    ensures SameFormals(r, infos, infos)
  {
  }

  lemma FormalsOfFolded(inputs: seq<Input>, last: Input, s: Program, r: Labelling)
    requires forall n :: n in s.infos ==> Taken(inputs, n, s.infos[n])
    requires forall p :: p in inputs ==> SameFormals(r, p.prog.infos, last.prog.infos)
    ensures SameFormals(r, s.infos, last.prog.infos)
  {
    forall n, i | n in s.infos && n in last.prog.infos && 0 <= i < |s.infos[n].parameters|
                  && i < |last.prog.infos[n].parameters|
      ensures Same(r, s.infos[n].parameters[i], last.prog.infos[n].parameters[i])
    {
      var p, q :| TakenFrom(inputs, n, s.infos[n], p, q);
      assert SameFormals(r, p.prog.infos, last.prog.infos);
    }
  }

  lemma FormalsThrough(inputs: seq<Input>, p: Input, last: Input, s: Program, r: Labelling)
    requires p in inputs && FormalsJoined(inputs, r) && SameFormals(r, s.infos, last.prog.infos)
    requires AllShared(inputs + [last])
    requires forall n :: n in p.prog.infos ==> n in s.infos && Taken(inputs, n, s.infos[n])
    ensures SameFormals(r, p.prog.infos, last.prog.infos) && SameFormals(r, last.prog.infos, p.prog.infos)
  {
    forall n, i | n in p.prog.infos && n in last.prog.infos && 0 <= i < |p.prog.infos[n].parameters|
                  && i < |last.prog.infos[n].parameters|
      ensures Same(r, p.prog.infos[n].parameters[i], last.prog.infos[n].parameters[i])
    {
      var p0, q :| TakenFrom(inputs, n, s.infos[n], p0, q);
      SameLength(inputs + [last], p, p0, n);
      assert SameFormals(r, p.prog.infos, p0.prog.infos);
    }
  }

  lemma SameLength(inputs: seq<Input>, p: Input, q: Input, n: FuncName)
    requires AllShared(inputs) && p in inputs && q in inputs && n in p.prog.infos && n in q.prog.infos
    ensures |p.prog.infos[n].parameters| == |q.prog.infos[n].parameters|
    ensures p.prog.infos[n].mangledNames == q.prog.infos[n].mangledNames
  {
    assert SharedData(p.prog, q.prog);
  }

  // ---------------------------------------------------------------- the result of any order

  /** A meeting in the program of all files is a meeting of a function of some file with a call of
      some file. */
  lemma MeetingFound(inputs: seq<Input>, s: Program, parents: map<CallId, FuncName>, r: Labelling, f: Obj, c: CallId)
    returns (p: Input, q: Input)
    requires Describes(inputs, s, parents) && HasMeeting(s, r, f, c)
    ensures p in inputs && q in inputs && MeetsIn(p, q, r, f, c)
    ensures s.functions[f] == p.prog.functions[f] && s.calls[c] == q.prog.calls[c]
  {
    hide Taken;
    var o :| Calls(s.calls, c, o) && Same(r, f, o);
    p :| p in inputs && f in p.prog.functions;
    q :| q in inputs && c in q.prog.calls;
    assert Covers(s, parents, p) && Covers(s, parents, q);
    assert Calls(q.prog.calls, c, o);
  }

  lemma MeetingFolded(inputs: seq<Input>, s: Program, parents: map<CallId, FuncName>, r: Labelling, f: Obj,
                      c: CallId, p: Input, q: Input, d: Input)
    requires Describes(inputs, s, parents) && p in inputs && q in inputs && d in inputs
    requires MeetsIn(p, q, r, f, c) && p.prog.functions[f] in d.prog.infos
    ensures HasMeeting(s, r, f, c) && s.functions[f] == p.prog.functions[f] && s.calls[c] == q.prog.calls[c]
    ensures s.functions[f] in s.infos && Taken(inputs, s.functions[f], s.infos[s.functions[f]])
  {
    hide Taken;
    assert Covers(s, parents, p) && Covers(s, parents, q) && Covers(s, parents, d);
    var o :| Calls(q.prog.calls, c, o) && Same(r, f, o);
    assert Calls(s.calls, c, o);
  }

  lemma PairsTaken(i1: FunctionInfo, i2: FunctionInfo, call: CallInfo, c: CallId, r: Labelling)
    requires Joins(r, CallPairs(i1, call, c)) && Joins(r, CallPairs(i2, call, c))
    ensures Joins(r, CallPairs(i1.(returned := i2.returned), call, c))
  {
  }

  lemma IdealResolved(inputs: seq<Input>, s: Program, parents: map<CallId, FuncName>, r: Labelling, f: Obj, c: CallId)
    requires Describes(inputs, s, parents) && Ideal(inputs, r) && HasMeeting(s, r, f, c)
    ensures Resolved(s, r, f, c)
  {
    var p, q := MeetingFound(inputs, s, parents, r, f, c);
    var n, call := s.functions[f], s.calls[c];
    assert Taken(inputs, n, s.infos[n]);
    var d, e :| TakenFrom(inputs, n, s.infos[n], d, e);
    hide MeetsIn, Describes, Contains;
    assert AgreesWith(p, q, d, r, f, c) && AgreesWith(p, q, e, r, f, c);
    PairsTaken(d.prog.infos[n], e.prog.infos[n], call, c, r);
  }

  lemma ResolvedIsIdeal(inputs: seq<Input>, s: Program, parents: map<CallId, FuncName>, r: Labelling, f: Obj,
                        c: CallId, p: Input, q: Input, d: Input)
    requires AllShared(inputs) && Describes(inputs, s, parents) && FormalsJoined(inputs, r)
    requires p in inputs && q in inputs && d in inputs && MeetsIn(p, q, r, f, c)
    requires Closed(s, r) && KeepsReturned(d.prog.infos, p.prog.functions[f], c, r)
    ensures AgreesWith(p, q, d, r, f, c)
  {
    var n := p.prog.functions[f];
    if n in d.prog.infos {
      MeetingFolded(inputs, s, parents, r, f, c, p, q, d);
      assert Resolved(s, r, f, c);
      var p0, q0 :| TakenFrom(inputs, n, s.infos[n], p0, q0);
      SameLength(inputs, p0, d, n);
      assert SameFormals(r, p0.prog.infos, d.prog.infos);
      hide MeetsIn, Describes, FormalsJoined, AllShared, CallPairs, PairsWith, Joins, HasMeeting;
      PairsSwapped(s.infos[n], d.prog.infos[n], s.calls[c], c, r);
    }
  }

  /** The equivalences that respect everything any file says are the solutions for this order
      that lose nothing. */
  lemma SolvesIdeal(inputs: seq<Input>, r: Labelling)
    requires AllShared(inputs)
    ensures Ideal(inputs, r) <==> SolvesAll(inputs, r) && LosesNothing(inputs, r)
  {
    hide AllShared, SolvesAll, LosesNothing;
    if Ideal(inputs, r) {
      IdealSolves(inputs, r);
      IdealKeeps(inputs, r);
    }
    if SolvesAll(inputs, r) && LosesNothing(inputs, r) {
      SolvingIsIdeal(inputs, r);
    }
  }

  lemma IdealSolves(inputs: seq<Input>, r: Labelling)
    requires AllShared(inputs) && Ideal(inputs, r)
    ensures SolvesAll(inputs, r)
  {
    var s, parents := FoldedProgram(inputs), FoldedParents(inputs);
    FoldedDescribes(inputs);
    FoldedFormals(inputs, r);
    assert s.edges == AllEdges(inputs);
    hide Describes, AllShared, Covers, FoldedProgram, FoldedParents, FoldedParams, MeetsIn, AgreesWith, HasMeeting;
    forall f, c | HasMeeting(s, r, f, c)
      ensures f in s.functions && s.functions[f] in s.infos && c in s.calls && Resolved(s, r, f, c)
    {
      MeetingKnown(s, r, f, c);
      IdealResolved(inputs, s, parents, r, f, c);
    }
  }

  lemma MeetingKnown(s: Program, r: Labelling, f: Obj, c: CallId)
    requires HasMeeting(s, r, f, c)
    ensures f in s.functions && s.functions[f] in s.infos && c in s.calls
  {
  }

  lemma SolvingIsIdeal(inputs: seq<Input>, r: Labelling)
    requires AllShared(inputs) && SolvesAll(inputs, r) && LosesNothing(inputs, r)
    ensures Ideal(inputs, r)
  {
    var s, parents := FoldedProgram(inputs), FoldedParents(inputs);
    FoldedDescribes(inputs);
    FoldedFormals(inputs, r);
    assert s.edges == AllEdges(inputs);
    hide Describes, AllShared, FoldedProgram, FoldedParents, FoldedParams, Closed, FormalsJoined, AgreesWith,
      KeepsReturned, Coarser, Congruent;
    forall p, q, d, f, c | p in inputs && q in inputs && d in inputs && MeetsIn(p, q, r, f, c)
      ensures AgreesWith(p, q, d, r, f, c)
    {
      ResolvedIsIdeal(inputs, s, parents, r, f, c, p, q, d);
    }
  }

  lemma IdealKeeps(inputs: seq<Input>, r: Labelling)
    requires Ideal(inputs, r)
    ensures LosesNothing(inputs, r)
  {
    hide Contains;
    forall p, q, d, f, c | p in inputs && q in inputs && d in inputs && MeetsIn(p, q, r, f, c)
      ensures KeepsReturned(d.prog.infos, p.prog.functions[f], c, r)
    {
      assert AgreesWith(p, q, d, r, f, c);
    }
  }

  // ---------------------------------------------------------------- one result for every order

  /** What the files demand together has no order. */
  lemma IdealReordered(inputs: seq<Input>, inputs': seq<Input>, r: Labelling)
    requires SameInputs(inputs, inputs')
    ensures AllShared(inputs) <==> AllShared(inputs')
    ensures Ideal(inputs, r) <==> Ideal(inputs', r)
    ensures LosesNothing(inputs, r) <==> LosesNothing(inputs', r)
  {
    assert AllEdges(inputs) == AllEdges(inputs');
  }

  lemma SharedReordered(inputs: seq<Input>, inputs': seq<Input>)
    requires SameInputs(inputs, inputs') && AllShared(inputs)
    ensures AllShared(inputs')
  {
    hide SharedData, ParentsAgree;
  }

  /** Orders that lose nothing have one partition. */
  lemma OrdersAgree(inputs: seq<Input>, inputs': seq<Input>, l: Labelling, l': Labelling)
    requires AllShared(inputs) && SameInputs(inputs, inputs') && LeastOver(inputs, l) && LeastOver(inputs', l')
    requires LosesNothing(inputs, l) && LosesNothing(inputs, l')
    ensures SamePartition(l, l')
  {
    hide AllShared, Ideal, LosesNothing, SolvesAll;
    IdealReordered(inputs, inputs', l);
    IdealReordered(inputs, inputs', l');
    SolvesIdeal(inputs, l);
    SolvesIdeal(inputs', l');
    SolvesIdeal(inputs, l');
    SolvesIdeal(inputs', l);
  }

  ghost predicate OrderNeverMatters(inputs: seq<Input>) {
    forall some, other, l, l' | SameInputs(inputs, some) && SameInputs(inputs, other)
                                && LeastOver(some, l) && LeastOver(other, l') ::
      SamePartition(l, l')
  }

  /** All orders have one partition if and only if no order loses an object that one of the files
      says is returned. */
  lemma OrderExact(inputs: seq<Input>)
    requires AllShared(inputs)
    ensures OrderNeverMatters(inputs)
       <==> forall some, l | SameInputs(inputs, some) && LeastOver(some, l) :: LosesNothing(inputs, l)
  {
    hide AllShared, LosesNothing, LeastOver, SamePartition;
    if OrderNeverMatters(inputs) {
      forall some, l | SameInputs(inputs, some) && LeastOver(some, l)
        ensures LosesNothing(inputs, l)
      {
        NeverLoses(inputs, some, l);
      }
    }
    if forall some, l | SameInputs(inputs, some) && LeastOver(some, l) :: LosesNothing(inputs, l) {
      forall some, other, l, l' | SameInputs(inputs, some) && SameInputs(inputs, other)
                                  && LeastOver(some, l) && LeastOver(other, l')
        ensures SamePartition(l, l')
      {
        IdealReordered(inputs, some, l);
        IdealReordered(inputs, some, l');
        OrdersAgree(some, other, l, l');
      }
    }
  }

  /** A file that comes first keeps its returned objects. */
  lemma NeverLoses(inputs: seq<Input>, some: seq<Input>, l: Labelling)
    requires AllShared(inputs) && OrderNeverMatters(inputs) && SameInputs(inputs, some) && LeastOver(some, l)
    ensures LosesNothing(inputs, l)
  {
    hide AllShared, LeastOver, KeepsReturned, SamePartition;
    forall p, q, d, f, c | p in inputs && q in inputs && d in inputs && MeetsIn(p, q, l, f, c)
      ensures KeepsReturned(d.prog.infos, p.prog.functions[f], c, l)
    {
      var first := [d] + some;
      assert forall x :: x in first <==> x == d || x in some;
      IdealReordered(inputs, first, l);
      var l' := SolutionExists(first);
      assert SamePartition(l, l');
      FirstKeeps(first, l', l, p, q, d, f, c);
    }
  }

  lemma FirstKeeps(first: seq<Input>, l': Labelling, l: Labelling, p: Input, q: Input, d: Input, f: Obj, c: CallId)
    requires AllShared(first) && first != [] && first[0] == d && LeastOver(first, l') && SamePartition(l, l')
    requires p in first && q in first && MeetsIn(p, q, l, f, c)
    ensures KeepsReturned(d.prog.infos, p.prog.functions[f], c, l)
  {
    var n, s := p.prog.functions[f], FoldedProgram(first);
    if n in d.prog.infos && d.prog.infos[n].returned != [] {
      FoldedDescribes(first);
      FirstReturned(first, n);
      var o :| Calls(q.prog.calls, c, o) && Same(l, f, o);
      assert MeetsIn(p, q, l', f, c);
      MeetingFolded(first, s, FoldedParents(first), l', f, c, p, q, d);
      assert Resolved(s, l', f, c);
      ReturnedJoined(s.infos[n], s.calls[c], c, l');
    }
  }

  lemma {:induction false} FirstReturned(first: seq<Input>, n: FuncName)
    requires first != [] && n in first[0].prog.infos && first[0].prog.infos[n].returned != []
    ensures n in FoldedProgram(first).infos
    ensures FoldedProgram(first).infos[n].returned == first[0].prog.infos[n].returned
  {
    var init := first[..|first| - 1];
    if init == [] {
      assert FoldedProgram(init) == NOTHING;
    } else {
      FirstReturned(init, n);
    }
  }

  // ---------------------------------------------------------------- a condition on the files

  /** One list is empty, or both say the same up to what is equivalent before any call is
      resolved. */
  ghost predicate ListsAgree(inputs: seq<Input>, list1: seq<Obj>, list2: seq<Obj>) {
    list1 == [] || list2 == [] || forall r :: Contains(inputs, r) ==> SameUpTo(r, list1, list2)
  }

  /** No two files disagree on what a function returns. */
  ghost predicate AllReturnedAgree(inputs: seq<Input>) {
    forall p, q, n | p in inputs && q in inputs && n in p.prog.infos && n in q.prog.infos ::
      ListsAgree(inputs, p.prog.infos[n].returned, q.prog.infos[n].returned)
  }

  lemma AgreeingLosesNothing(inputs: seq<Input>, r: Labelling)
    requires AllShared(inputs) && AllReturnedAgree(inputs) && SolvesAll(inputs, r)
    ensures LosesNothing(inputs, r)
  {
    var s, parents := FoldedProgram(inputs), FoldedParents(inputs);
    FoldedDescribes(inputs);
    FoldedFormals(inputs, r);
    assert s.edges == AllEdges(inputs);
    assert Contains(inputs, r);
    hide AllShared, Contains, AllReturnedAgree, KeepsReturned, MeetsIn, Describes;
    forall p, q, d, f, c | p in inputs && q in inputs && d in inputs && MeetsIn(p, q, r, f, c)
      ensures KeepsReturned(d.prog.infos, p.prog.functions[f], c, r)
    {
      AgreeingKeepsOne(inputs, s, parents, r, p, q, d, f, c);
    }
  }

  lemma AgreeingKeepsOne(inputs: seq<Input>, s: Program, parents: map<CallId, FuncName>, r: Labelling,
                         p: Input, q: Input, d: Input, f: Obj, c: CallId)
    requires Describes(inputs, s, parents) && AllReturnedAgree(inputs) && Contains(inputs, r) && Closed(s, r)
    requires p in inputs && q in inputs && d in inputs && MeetsIn(p, q, r, f, c)
    ensures KeepsReturned(d.prog.infos, p.prog.functions[f], c, r)
  {
    var n := p.prog.functions[f];
    if n in d.prog.infos && d.prog.infos[n].returned != [] {
      MeetingFolded(inputs, s, parents, r, f, c, p, q, d);
      assert Resolved(s, r, f, c);
      var p0, q0 :| TakenFrom(inputs, n, s.infos[n], p0, q0);
      assert Covers(s, parents, d);
      ReturnedJoined(s.infos[n], s.calls[c], c, r);
      assert ListsAgree(inputs, q0.prog.infos[n].returned, d.prog.infos[n].returned);
      KeptUpTo(r, c, q0.prog.infos[n].returned, d.prog.infos[n].returned);
    }
  }

  // ---------------------------------------------------------------- the call edges

  /** With one partition, one set of call edges is found. */
  lemma SameEdgesFound(inputs: seq<Input>, inputs': seq<Input>, l: Labelling, l': Labelling,
                       done: set<(Obj, CallId)>, done': set<(Obj, CallId)>)
    requires AllShared(inputs) && SameInputs(inputs, inputs') && SamePartition(l, l')
    requires forall f, c :: (f, c) in done ==> HasMeeting(FoldedProgram(inputs), l, f, c)
    requires forall f, c :: HasMeeting(FoldedProgram(inputs'), l', f, c) ==> (f, c) in done'
    ensures MeetingEdges(FoldedProgram(inputs), FoldedParents(inputs), done)
         <= MeetingEdges(FoldedProgram(inputs'), FoldedParents(inputs'), done')
  {
    var s, s', parents, parents' := FoldedProgram(inputs), FoldedProgram(inputs'), FoldedParents(inputs),
                                    FoldedParents(inputs');
    SharedReordered(inputs, inputs');
    FoldedDescribes(inputs);
    FoldedDescribes(inputs');
    hide AllShared, HasMeeting, Describes, EdgesOfCall, FoldedProgram, FoldedParents, SameInputs, SamePartition;
    forall e | e in MeetingEdges(s, parents, done)
      ensures e in MeetingEdges(s', parents', done')
    {
      var d :| d in done && e in EdgesOfCall(s, parents, d);
      EdgeInOther(inputs, inputs', s, s', parents, parents', l, l', d.0, d.1);
      assert d in done' && e in EdgesOfCall(s', parents', d);
    }
  }

  lemma EdgeInOther(inputs: seq<Input>, inputs': seq<Input>, s: Program, s': Program,
                    parents: map<CallId, FuncName>, parents': map<CallId, FuncName>, l: Labelling, l': Labelling,
                    f: Obj, c: CallId)
    requires AllShared(inputs) && SameInputs(inputs, inputs') && SamePartition(l, l')
    requires Describes(inputs, s, parents) && Describes(inputs', s', parents') && HasMeeting(s, l, f, c)
    ensures HasMeeting(s', l', f, c) && EdgesOfCall(s', parents', (f, c)) == EdgesOfCall(s, parents, (f, c))
  {
    hide AllShared, Describes, SamePartition;
    var p, q := MeetingFound(inputs, s, parents, l, f, c);
    var d := DescribedIn(inputs, inputs', s, s', parents, parents', s.functions[f]);
    MeetsInOther(p, q, l, l', f, c);
    MeetingFolded(inputs', s', parents', l', f, c, p, q, d);
    if c in parents {
      ParentInOther(inputs, inputs', s, s', parents, parents', c);
      if parents[c] in s.infos {
        d := DescribedIn(inputs, inputs', s, s', parents, parents', parents[c]);
      }
    }
    if c in parents' {
      ParentInOther(inputs', inputs, s', s, parents', parents, c);
      if parents'[c] in s'.infos {
        SharedReordered(inputs, inputs');
        d := DescribedIn(inputs', inputs, s', s, parents', parents, parents'[c]);
      }
    }
  }

  lemma MeetsInOther(p: Input, q: Input, l: Labelling, l': Labelling, f: Obj, c: CallId)
    requires MeetsIn(p, q, l, f, c) && SamePartition(l, l')
    ensures MeetsIn(p, q, l', f, c)
  {
  }

  lemma ParentInOther(inputs: seq<Input>, inputs': seq<Input>, s: Program, s': Program,
                      parents: map<CallId, FuncName>, parents': map<CallId, FuncName>, c: CallId)
    requires SameInputs(inputs, inputs') && Describes(inputs, s, parents) && Describes(inputs', s', parents')
    requires c in parents
    ensures c in parents' && parents'[c] == parents[c]
  {
    hide Taken;
    var p :| p in inputs && c in p.parents;
    assert Covers(s, parents, p) && Covers(s', parents', p);
  }

  /** What one order describes, the other does, under the same names. */
  lemma DescribedIn(inputs: seq<Input>, inputs': seq<Input>, s: Program, s': Program,
                    parents: map<CallId, FuncName>, parents': map<CallId, FuncName>, n: FuncName) returns (d: Input)
    requires AllShared(inputs) && SameInputs(inputs, inputs')
    requires Describes(inputs, s, parents) && Describes(inputs', s', parents') && n in s.infos
    ensures d in inputs' && n in d.prog.infos && n in s'.infos
    ensures s'.infos[n].mangledNames == s.infos[n].mangledNames
  {
    hide AllShared, Describes;
    d := NamedIn(inputs, s, parents, n);
    CoveredBy(inputs', s', parents', d);
    var d' := NamedIn(inputs', s', parents', n);
    SameLength(inputs, d, d', n);
  }

  lemma NamedIn(inputs: seq<Input>, s: Program, parents: map<CallId, FuncName>, n: FuncName) returns (p: Input)
    requires Describes(inputs, s, parents) && n in s.infos
    ensures p in inputs && n in p.prog.infos && s.infos[n].mangledNames == p.prog.infos[n].mangledNames
  {
    hide Covers;
    assert Taken(inputs, n, s.infos[n]);
    var d, q :| TakenFrom(inputs, n, s.infos[n], d, q);
    p := d;
  }

  lemma CoveredBy(inputs: seq<Input>, s: Program, parents: map<CallId, FuncName>, p: Input)
    requires Describes(inputs, s, parents) && p in inputs
    ensures forall n :: n in p.prog.infos ==> n in s.infos
  {
    hide Taken;
    assert Covers(s, parents, p);
  }

  /** Files that agree on what functions return can be merged in any order, and any number of
      times: the partition and the call edges are the same. */
  lemma ManyFilesImmaterial(inputs: seq<Input>, inputs': seq<Input>, l: Labelling, l': Labelling,
                            done: set<(Obj, CallId)>, done': set<(Obj, CallId)>)
    requires AllShared(inputs) && AllReturnedAgree(inputs) && SameInputs(inputs, inputs')
    requires LeastOver(inputs, l) && LeastOver(inputs', l')
    requires forall f, c :: (f, c) in done <==> HasMeeting(FoldedProgram(inputs), l, f, c)
    requires forall f, c :: (f, c) in done' <==> HasMeeting(FoldedProgram(inputs'), l', f, c)
    ensures SamePartition(l, l')
    ensures MeetingEdges(FoldedProgram(inputs), FoldedParents(inputs), done)
         == MeetingEdges(FoldedProgram(inputs'), FoldedParents(inputs'), done')
  {
    hide AllShared, LosesNothing, SolvesAll, HasMeeting, MeetingEdges, AllReturnedAgree;
    IdealReordered(inputs, inputs', l);
    IdealReordered(inputs, inputs', l');
    AgreementReordered(inputs, inputs');
    AgreeingLosesNothing(inputs, l);
    AgreeingLosesNothing(inputs', l');
    OrdersAgree(inputs, inputs', l, l');
    SameEdgesFound(inputs, inputs', l, l', done, done');
    SameEdgesFound(inputs', inputs, l', l, done', done);
  }

  lemma AgreementReordered(inputs: seq<Input>, inputs': seq<Input>)
    requires SameInputs(inputs, inputs') && AllReturnedAgree(inputs)
    ensures AllReturnedAgree(inputs')
  {
    assert AllEdges(inputs) == AllEdges(inputs');
  }
}
