/**
 A whole run of the merge tool over its input files, with and without alias data
 (cgcollector/tools/CGMerge.cpp).
 */
module WholeProgram {
  import opened Labellings
  import opened Lists
  import opened Optional
  import opened AliasAnalysis
  import opened CGMerge
  import opened ManyFiles
  import opened ManyEntries

  lemma EdgeFoundAgain(p1: Program, p2: Program, parents1: map<CallId, FuncName>, parents2: map<CallId, FuncName>,
                       l1: Labelling, l: Labelling, d: (Obj, CallId), e: (string, string))
    requires InfosAgree(p1.infos, p2.infos) && Coarser(l1, l)
    requires HasMeeting(p1, l1, d.0, d.1) && e in EdgesOfCall(p1, parents1, d)
    ensures HasMeeting(MergedProgram(p1, p2), l, d.0, d.1)
    ensures e in EdgesOfCall(MergedProgram(p1, p2), parents2 + parents1, d)
  {
  }

  /** Call edges found earlier are found again, with the same names. */
  lemma EdgesFoundAgain(p1: Program, p2: Program, parents1: map<CallId, FuncName>, parents2: map<CallId, FuncName>,
                        l1: Labelling, l: Labelling, done1: set<(Obj, CallId)>, done: set<(Obj, CallId)>)
    requires InfosAgree(p1.infos, p2.infos) && Coarser(l1, l)
    requires forall f, c :: (f, c) in done1 ==> HasMeeting(p1, l1, f, c)
    requires forall f, c :: HasMeeting(MergedProgram(p1, p2), l, f, c) ==> (f, c) in done
    ensures MeetingEdges(p1, parents1, done1) <= MeetingEdges(MergedProgram(p1, p2), parents2 + parents1, done)
  {
    var p := MergedProgram(p1, p2);
    forall e | e in MeetingEdges(p1, parents1, done1)
      ensures e in MeetingEdges(p, parents2 + parents1, done)
    {
      var d :| d in done1 && e in EdgesOfCall(p1, parents1, d);
      EdgeFoundAgain(p1, p2, parents1, parents2, l1, l, d, e);
      assert d in done;
    }
  }

  // ---------------------------------------------------------------- the files of a run

  /** The alias data of those files that have some. */
  function AliasData(files: seq<Option<EquivClassContainer>>): (r: seq<EquivClassContainer>)
    ensures forall i :: 0 <= i < |r| ==> Some(r[i]) in files
    ensures forall i :: 0 <= i < |files| && files[i].Some? ==> files[i].value in r
  {
    if files == [] then []
    else
      var init, last := AliasData(files[..|files| - 1]), files[|files| - 1];
      if last.Some? then init + [last.value] else init
  }

  /** The number of files up to the last one with alias data. */
  function UpToAlias(files: seq<Option<EquivClassContainer>>): (n: nat)
    ensures n <= |files| && (n > 0 ==> files[n - 1].Some?)
    ensures forall i :: n <= i < |files| ==> files[i].None?
  {
    if files == [] then 0 else if files[|files| - 1].Some? then |files| else UpToAlias(files[..|files| - 1])
  }

  lemma {:induction false} AliasDataSoFar(files: seq<Option<EquivClassContainer>>, i: nat)
    requires i < |files|
    ensures AliasData(files[..i]) <= AliasData(files[..i + 1]) <= AliasData(files)
    ensures files[i].Some? ==> AliasData(files[..i + 1]) == AliasData(files[..i]) + [files[i].value]
    ensures files[i].None? ==> AliasData(files[..i + 1]) == AliasData(files[..i])
    ensures UpToAlias(files[..i + 1]) == if files[i].Some? then i + 1 else UpToAlias(files[..i])
  {
    var init := files[..|files| - 1];
    assert files[..i + 1][..i] == files[..i];
    if i == |init| {
      assert files[..i + 1] == files;
    } else {
      assert init[..i] == files[..i] && init[..i + 1] == files[..i + 1];
      AliasDataSoFar(init, i);
    }
  }

  /** The next file is the next one with alias data, if it has any. */
  lemma NextAliasData(files: seq<Option<EquivClassContainer>>, i: nat)
    requires i < |files|
    ensures var k, u, all := |AliasData(files[..i])|, UpToAlias(files[..i]), AliasData(files);
            if files[i].Some? then
              k < |all| && all[k] == files[i].value
              && |AliasData(files[..i + 1])| == k + 1 && UpToAlias(files[..i + 1]) == i + 1
            else
              k <= |all| && |AliasData(files[..i + 1])| == k && UpToAlias(files[..i + 1]) == u
  {
    hide AliasData, UpToAlias;
    AliasDataSoFar(files, i);
    if files[i].Some? {
      assert AliasData(files)[|AliasData(files[..i])|] == AliasData(files[..i + 1])[|AliasData(files[..i])|];
    }
  }

  ghost function InputOf(file: EquivClassContainer): Input
    reads file
  {
    Input(file.Prog(), file.findMap, file.callExprParentMap)
  }

  /** What the files hold. */
  ghost function Inputs(files: seq<EquivClassContainer>): (r: seq<Input>)
    reads files
    ensures |r| == |files| && forall i :: 0 <= i < |files| ==> r[i] == InputOf(files[i])
  {
    seq(|files|, i requires 0 <= i < |files| reads files => InputOf(files[i]))
  }

  ghost predicate AllKnown(files: seq<EquivClassContainer>)
    reads files
  {
    forall f :: f in files ==> f.Valid({}) && f.ProgramKnown()
  }

  ghost predicate Holding(files: seq<EquivClassContainer>, inputs: seq<Input>)
    reads files
  {
    AllKnown(files) && inputs == Inputs(files)
  }

  lemma HeldBy(files: seq<EquivClassContainer>, inputs: seq<Input>, k: nat)
    requires Holding(files, inputs) && k < |files|
    ensures files[k].Valid({}) && files[k].ProgramKnown() && |inputs| == |files| && inputs[k] == InputOf(files[k])
  {
  }

  /** The callers in a file have entries by the time its alias data are merged. */
  ghost predicate EachListed(files: seq<Option<EquivClassContainer>>, inputs: seq<Input>,
                             parts: seq<map<string, CgEntry>>, start: map<string, CgEntry>)
    requires |parts| == |files| && |inputs| == |AliasData(files)|
  {
    forall i, k | 0 <= i < |files| && files[i].Some? && k == |AliasData(files[..i])| && k < |inputs| ::
      CallersListed(inputs[k].prog.infos, inputs[k].parents, AllEntries(start, parts[..i + 1]).Keys)
  }

  lemma ListedAt(files: seq<Option<EquivClassContainer>>, inputs: seq<Input>, parts: seq<map<string, CgEntry>>,
                 start: map<string, CgEntry>, i: nat, k: nat)
    requires |parts| == |files| && |inputs| == |AliasData(files)| && EachListed(files, inputs, parts, start)
    requires i < |files| && files[i].Some? && k == |AliasData(files[..i])| && k < |inputs|
    ensures CallersListed(inputs[k].prog.infos, inputs[k].parents, AllEntries(start, parts[..i + 1]).Keys)
  {
  }

  /** More entries do no harm. */
  lemma ListedInMore(infos: map<FuncName, FunctionInfo>, parents: map<CallId, FuncName>, names: set<string>,
                     more: set<string>)
    requires CallersListed(infos, parents, names) && names <= more
    ensures CallersListed(infos, parents, more)
  {
  }

  // ---------------------------------------------------------------- the run

  /** What has been computed from the alias data of the files so far. */
  ghost predicate MergedSoFar(inputs: seq<Input>, merged: Input, done: set<(Obj, CallId)>) {
    && merged.prog == FoldedProgram(inputs) && merged.parents == FoldedParents(inputs)
    && LeastOver(inputs, merged.partition)
    && forall f, c :: (f, c) in done <==> HasMeeting(merged.prog, merged.partition, f, c)
  }

  /** Merges the alias data of one more file, after its call graph.  Calls that were resolved
      before some function had an entry are resolved again. */
  method MergeFile(file1: EquivClassContainer, file2: EquivClassContainer, wholeCG: CallGraphJson,
                   ghost inputs: seq<Input>, ghost start: map<string, CgEntry>,
                   ghost parts: seq<map<string, CgEntry>>, ghost u: nat, ghost i: nat,
                   ghost done1: set<(Obj, CallId)>)
    returns (ghost done: set<(Obj, CallId)>)
    requires file1 != file2 && file1.Valid({}) && file1.ProgramKnown() && file2.Valid({}) && file2.ProgramKnown()
    requires u <= i <= |parts| && forall p :: p in inputs ==> InfosAgree(p.prog.infos, file2.functionInfoMap)
    requires CallersListed(file1.functionInfoMap, file1.callExprParentMap, wholeCG.entries.Keys)
    requires CallersListed(file2.functionInfoMap, file2.callExprParentMap, wholeCG.entries.Keys)
    requires MergedSoFar(inputs, InputOf(file1), done1)
    requires WrittenSoFar(start, parts, u, i, wholeCG.entries,
                          MeetingEdges(file1.Prog(), file1.callExprParentMap, done1))
    modifies file1, wholeCG
    ensures file1.Valid({}) && file1.ProgramKnown()
    ensures CallersListed(file1.functionInfoMap, file1.callExprParentMap, wholeCG.entries.Keys)
    ensures MergedSoFar(inputs + [InputOf(file2)], InputOf(file1), done)
    ensures WrittenSoFar(start, parts, i, i, wholeCG.entries,
                         MeetingEdges(file1.Prog(), file1.callExprParentMap, done))
  {
    hide Partition, Sound, Complete, Known, Distinct, InformationKnown, Closed, HasMeeting, LeastSolution, Coarser,
      MeetingEdges, AddEdges, CallersListed, ParamPairs, MergedInfos, InfosAgree, WrittenSoFar, FoldedProgram,
      FoldedParents, LeastOver;
    ghost var merged1, last, entries1 := InputOf(file1), InputOf(file2), wholeCG.entries;
    ghost var p1, l1 := merged1.prog, merged1.partition;
    FoldedAgrees(inputs, last);
    done := MergeEquivalenceClasses(file1, file2, wholeCG);
    Folded(inputs, last);
    NextFile(inputs, last, l1, file1.findMap);
    SolutionContains(MergedProgram(p1, last.prog), l1, last.partition, ParamPairs(p1.infos, last.prog.infos),
                     file1.findMap);
    EdgesFoundAgain(p1, last.prog, merged1.parents, last.parents, l1, file1.findMap, done1, done);
    WrittenAgain(start, parts, u, i, entries1, MeetingEdges(p1, merged1.parents, done1),
                 MeetingEdges(file1.Prog(), file1.callExprParentMap, done));
  }

  /** Merges one more file: first its call graph, then its alias data. */
  method MergeNext(file1: EquivClassContainer, file: Option<EquivClassContainer>, wholeCG: CallGraphJson,
                   ghost inputs: seq<Input>, ghost start: map<string, CgEntry>, parts: seq<map<string, CgEntry>>,
                   ghost u: nat, i: nat, ghost done1: set<(Obj, CallId)>)
    returns (ghost done: set<(Obj, CallId)>)
    requires file1.Valid({}) && file1.ProgramKnown() && u <= i < |parts|
    requires file.Some? ==> file1 != file.value && file.value.Valid({}) && file.value.ProgramKnown()
    requires file.Some? ==> forall p :: p in inputs ==> InfosAgree(p.prog.infos, file.value.functionInfoMap)
    requires file.Some? ==> CallersListed(file.value.functionInfoMap, file.value.callExprParentMap,
                                          AllEntries(start, parts[..i + 1]).Keys)
    requires CallersListed(file1.functionInfoMap, file1.callExprParentMap, wholeCG.entries.Keys)
    requires MergedSoFar(inputs, InputOf(file1), done1)
    requires WrittenSoFar(start, parts, u, i, wholeCG.entries,
                          MeetingEdges(file1.Prog(), file1.callExprParentMap, done1))
    modifies file1, wholeCG
    ensures file1.Valid({}) && file1.ProgramKnown()
    ensures CallersListed(file1.functionInfoMap, file1.callExprParentMap, wholeCG.entries.Keys)
    ensures MergedSoFar(if file.Some? then inputs + [InputOf(file.value)] else inputs, InputOf(file1), done)
    ensures WrittenSoFar(start, parts, if file.Some? then i + 1 else u, i + 1, wholeCG.entries,
                         MeetingEdges(file1.Prog(), file1.callExprParentMap, done))
  {
    hide EquivClassContainer.Valid, EquivClassContainer.ProgramKnown, MeetingEdges, CallersListed, InfosAgree,
      MergedEntries, AllEntries, MergedSoFar, WrittenSoFar;
    done := done1;
    OnePartMore(start, parts, u, i, wholeCG.entries, MeetingEdges(file1.Prog(), file1.callExprParentMap, done));
    ListedInMore(file1.functionInfoMap, file1.callExprParentMap, wholeCG.entries.Keys,
                 wholeCG.entries.Keys + parts[i].Keys);
    wholeCG.MergeEntries(parts[i]);
    if file.Some? {
      done := MergeFile(file1, file.value, wholeCG, inputs, start, parts, u, i + 1, done);
    }
  }

  /** Merges all files, one after the other. */
  method MergeFiles(files: seq<Option<EquivClassContainer>>, parts: seq<map<string, CgEntry>>, wholeCG: CallGraphJson)
    returns (file1: EquivClassContainer, ghost done: set<(Obj, CallId)>)
    requires |parts| == |files| && AllKnown(AliasData(files)) && AllAgree(Inputs(AliasData(files)))
    requires EachListed(files, Inputs(AliasData(files)), parts, wholeCG.entries)
    modifies wholeCG
    ensures fresh(file1) && file1.Valid({}) && file1.ProgramKnown()
    ensures file1.Prog() == FoldedProgram(Inputs(AliasData(files)))
    ensures file1.callExprParentMap == FoldedParents(Inputs(AliasData(files)))
    ensures LeastOver(Inputs(AliasData(files)), file1.findMap)
    ensures forall f, c :: (f, c) in done <==> HasMeeting(file1.Prog(), file1.findMap, f, c)
    ensures wholeCG.entries == AllEntries(AddEdges(AllEntries(old(wholeCG.entries), parts[..UpToAlias(files)]),
                                                   MeetingEdges(file1.Prog(), file1.callExprParentMap, done)),
                                          parts[UpToAlias(files)..])
    ensures var p, parents, l, after := file1.Prog(), file1.callExprParentMap, file1.findMap, wholeCG.entries;
            var early := AllEntries(old(wholeCG.entries), parts[..UpToAlias(files)]);
            var all := AllEntries(old(wholeCG.entries), parts);
            && after.Keys == all.Keys
            && (forall n, m | n in after ::
                  m in after[n].callees
                  <==> m in all[n].callees
                       || (n in early
                           && exists f, c, o ::
                              && f in p.functions && c in p.calls && o in p.calls[c].calledObjects && Same(l, f, o)
                              && p.functions[f] in p.infos && c in parents && parents[c] in p.infos
                              && n in p.infos[parents[c]].mangledNames
                              && m in p.infos[p.functions[f]].mangledNames))
            && (forall n, m | m in after ::
                  n in after[m].callers
                  <==> n in all[m].callers
                       || (m in early
                           && exists f, c, o ::
                              && f in p.functions && c in p.calls && o in p.calls[c].calledObjects && Same(l, f, o)
                              && p.functions[f] in p.infos && c in parents && parents[c] in p.infos
                              && n in p.infos[parents[c]].mangledNames
                              && m in p.infos[p.functions[f]].mangledNames))
  {
    hide EquivClassContainer.Valid, EquivClassContainer.ProgramKnown, MeetingEdges, AddEdges, AllEntries, AllKnown,
      MergedSoFar, WrittenSoFar, AllAgree, EachListed, HasMeeting, AliasData, UpToAlias, Inputs, LeastOver,
      FoldedProgram, FoldedParents;
    ghost var entries := wholeCG.entries;
    file1, done := MergeHeld(files, parts, wholeCG, AliasData(files), Inputs(AliasData(files)));
    AllMerged(Inputs(AliasData(files)), InputOf(file1), done);
    AllWritten(entries, parts, UpToAlias(files), wholeCG.entries,
               MeetingEdges(file1.Prog(), file1.callExprParentMap, done));
    RunAddsCalls(file1.Prog(), file1.callExprParentMap, file1.findMap, done, entries, parts, UpToAlias(files));
  }

  /** The call graph in the end: what the files say, and all edges between functions that a call
      may connect, at every end that has an entry in time. */
  lemma RunAddsCalls(p: Program, parents: map<CallId, FuncName>, l: Labelling, done: set<(Obj, CallId)>,
                     start: map<string, CgEntry>, parts: seq<map<string, CgEntry>>, u: nat)
    requires u <= |parts| && forall f, c :: (f, c) in done <==> HasMeeting(p, l, f, c)
    ensures var early, all := AllEntries(start, parts[..u]), AllEntries(start, parts);
            var after := AllEntries(AddEdges(early, MeetingEdges(p, parents, done)), parts[u..]);
            && after.Keys == all.Keys
            && (forall n, m | n in after ::
                  m in after[n].callees
                  <==> m in all[n].callees
                       || (n in early
                           && exists f, c, o ::
                              && f in p.functions && c in p.calls && o in p.calls[c].calledObjects && Same(l, f, o)
                              && p.functions[f] in p.infos && c in parents && parents[c] in p.infos
                              && n in p.infos[parents[c]].mangledNames
                              && m in p.infos[p.functions[f]].mangledNames))
            && (forall n, m | m in after ::
                  n in after[m].callers
                  <==> n in all[m].callers
                       || (m in early
                           && exists f, c, o ::
                              && f in p.functions && c in p.calls && o in p.calls[c].calledObjects && Same(l, f, o)
                              && p.functions[f] in p.infos && c in parents && parents[c] in p.infos
                              && n in p.infos[parents[c]].mangledNames
                              && m in p.infos[p.functions[f]].mangledNames))
  {
    hide AllEntries, AddEdges, MeetingEdges, HasMeeting, Same;
    var added := MeetingEdges(p, parents, done);
    var early, all := AllEntries(start, parts[..u]), AllEntries(start, parts);
    var after := AllEntries(AddEdges(early, added), parts[u..]);
    LateEntrySays(start, parts, u, added, "", "");
    forall n, m
      ensures (n, m) in added
              <==> exists f, c, o ::
                     && f in p.functions && c in p.calls && o in p.calls[c].calledObjects && Same(l, f, o)
                     && p.functions[f] in p.infos && c in parents && parents[c] in p.infos
                     && n in p.infos[parents[c]].mangledNames && m in p.infos[p.functions[f]].mangledNames
    {
      CallEdge(p, parents, l, done, n, m);
    }
    forall n, m | n in after
      ensures m in after[n].callees <==> m in all[n].callees || (n in early && (n, m) in added)
      ensures m in after[n].callers <==> m in all[n].callers || (n in early && (m, n) in added)
    {
      LateEntrySays(start, parts, u, added, n, m);
    }
  }

  method MergeHeld(files: seq<Option<EquivClassContainer>>, parts: seq<map<string, CgEntry>>, wholeCG: CallGraphJson,
                   ghost all: seq<EquivClassContainer>, ghost inputs: seq<Input>)
    returns (file1: EquivClassContainer, ghost done: set<(Obj, CallId)>)
    requires |parts| == |files| && all == AliasData(files) && Holding(all, inputs) && AllAgree(inputs)
    requires |inputs| == |all| && EachListed(files, inputs, parts, wholeCG.entries)
    modifies wholeCG
    ensures fresh(file1) && file1.Valid({}) && file1.ProgramKnown()
    ensures MergedSoFar(inputs, InputOf(file1), done)
    ensures WrittenSoFar(old(wholeCG.entries), parts, UpToAlias(files), |parts|, wholeCG.entries,
                         MeetingEdges(file1.Prog(), file1.callExprParentMap, done))
  {
    hide EquivClassContainer.Valid, EquivClassContainer.ProgramKnown, MeetingEdges, MergedSoFar, WrittenSoFar,
      AllKnown, AllAgree, Holding, EachListed, CallersListed, AliasData, UpToAlias, InfosAgree, AllEntries;
    ghost var entries := wholeCG.entries;
    file1 := new EquivClassContainer();
    done := {};
    ghost var k, u := 0, 0;
    NothingMerged(InputOf(file1), entries, parts);
    for i := 0 to |files|
      invariant fresh(file1) && file1.Valid({}) && file1.ProgramKnown() && Holding(all, inputs)
      invariant k == |AliasData(files[..i])| <= |all| && u == UpToAlias(files[..i])
      invariant CallersListed(file1.functionInfoMap, file1.callExprParentMap, wholeCG.entries.Keys)
      invariant MergedSoFar(inputs[..k], InputOf(file1), done)
      invariant WrittenSoFar(entries, parts, u, i, wholeCG.entries,
                             MeetingEdges(file1.Prog(), file1.callExprParentMap, done))
    {
      NextAliasData(files, i);
      if files[i].Some? {
        HeldBy(all, inputs, k);
        ListedAt(files, inputs, parts, entries, i, k);
        NextAgrees(inputs, k);
      }
      done := MergeNext(file1, files[i], wholeCG, inputs[..k], entries, parts, u, i, done);
      if files[i].Some? {
        k, u := k + 1, i + 1;
      }
    }
    assert files[..|files|] == files && inputs[..k] == inputs;
  }

  lemma NextAgrees(inputs: seq<Input>, k: nat)
    requires AllAgree(inputs) && k < |inputs|
    ensures forall p :: p in inputs[..k] ==> InfosAgree(p.prog.infos, inputs[k].prog.infos)
    ensures inputs[..k + 1] == inputs[..k] + [inputs[k]]
  {
  }

  lemma AllMerged(inputs: seq<Input>, merged: Input, done: set<(Obj, CallId)>)
    requires MergedSoFar(inputs, merged, done)
    ensures merged.prog == FoldedProgram(inputs) && merged.parents == FoldedParents(inputs)
    ensures LeastOver(inputs, merged.partition)
    ensures forall f, c :: (f, c) in done <==> HasMeeting(merged.prog, merged.partition, f, c)
  {
  }

  lemma SolutionContains(p: Program, l1: Labelling, l2: Labelling, params: Pairs, l: Labelling)
    requires LeastSolution(p, l1, l2, params, l)
    ensures Coarser(l1, l)
  {
  }

  /** Before the first file. */
  lemma NothingMerged(merged: Input, start: map<string, CgEntry>, parts: seq<map<string, CgEntry>>)
    requires merged == Input(NOTHING, map[], map[])
    ensures AliasData([]) == []
    ensures MergedSoFar([], merged, {}) && CallersListed(merged.prog.infos, map[], start.Keys)
    ensures WrittenSoFar(start, parts, 0, 0, start, MeetingEdges(NOTHING, map[], {}))
  {
    NothingSolved();
    NoMeetingEdges(NOTHING, map[], start);
  }
}
