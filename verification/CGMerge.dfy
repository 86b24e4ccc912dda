/**
 Whole-program merge of alias information (cgcollector/tools/CGMerge.cpp).

 The classes of a second file are absorbed into the container of the first, class by class.
 Absorbing one may join several classes and queue target pairs, which are merged only after
 all classes are in; then every call is resolved against every function it can reach.
 */
module CGMerge {
  import opened Labellings
  import opened Lists
  import opened AliasAnalysis
  import opened Absorb

  // ---------------------------------------------------------------- the call graph json

  datatype CgEntry = CgEntry(callees: set<string>, callers: set<string>, hasBody: bool)

  type CallEdges = set<(string, string)>

  function TargetsOf(edges: CallEdges, n: string): set<string> {
    set e | e in edges && e.0 == n :: e.1
  }

  function SourcesOf(edges: CallEdges, n: string): set<string> {
    set e | e in edges && e.1 == n :: e.0
  }

  /** The call graph with the given caller-callee edges added; edges touching functions without
      an entry add to the entry of the other end only. */
  function AddEdges(entries: map<string, CgEntry>, added: CallEdges): map<string, CgEntry> {
    map n | n in entries ::
      entries[n].(callees := entries[n].callees + TargetsOf(added, n),
                  callers := entries[n].callers + SourcesOf(added, n))
  }

  lemma EdgesOfBoth(added: CallEdges, more: CallEdges, n: string)
    ensures TargetsOf(added + more, n) == TargetsOf(added, n) + TargetsOf(more, n)
    ensures SourcesOf(added + more, n) == SourcesOf(added, n) + SourcesOf(more, n)
  {
  }

  lemma AddEdgesTwice(entries: map<string, CgEntry>, added: CallEdges, more: CallEdges)
    ensures AddEdges(AddEdges(entries, added), more) == AddEdges(entries, added + more)
  {
    hide TargetsOf, SourcesOf;
    forall n | n in entries
      ensures AddEdges(AddEdges(entries, added), more)[n] == AddEdges(entries, added + more)[n]
    {
      EdgesOfBoth(added, more, n);
    }
  }

  /** The callees of a definition are added; callers are added in any case. */
  function MergedEntry(c: CgEntry, v: CgEntry): CgEntry {
    CgEntry(if v.hasBody then c.callees + v.callees else c.callees, c.callers + v.callers, c.hasBody || v.hasBody)
  }

  /** The entries so far and those of one more file. */
  function MergedEntries(entries: map<string, CgEntry>, current: map<string, CgEntry>): map<string, CgEntry> {
    map n | n in entries.Keys + current.Keys ::
      if n in entries && n in current then MergedEntry(entries[n], current[n])
      else if n in entries then entries[n] else current[n]
  }

  lemma EntryMerged(c: CgEntry, v: CgEntry)
    ensures MergedEntry(c, v)
         == (if v.hasBody then c.(callees := c.callees + v.callees, hasBody := true) else c)
              .(callers := c.callers + v.callers)
  {
  }

  /** What the entries of two files say together: all callers, but callees only of an entry that
      is the first of its name or has a body. */
  lemma MergedEntrySays(entries: map<string, CgEntry>, current: map<string, CgEntry>, n: string, m: string)
    ensures var merged := MergedEntries(entries, current);
            && (n in merged <==> n in entries || n in current)
            && (n in merged ==>
                  && (m in merged[n].callees
                      <==> (n in entries && m in entries[n].callees)
                           || (n in current && m in current[n].callees && (n !in entries || current[n].hasBody)))
                  && (m in merged[n].callers
                      <==> (n in entries && m in entries[n].callers) || (n in current && m in current[n].callers))
                  && (merged[n].hasBody
                      <==> (n in entries && entries[n].hasBody) || (n in current && current[n].hasBody)))
  {
  }

  lemma MergedEntriesSay(entries: map<string, CgEntry>, current: map<string, CgEntry>)
    ensures var merged := MergedEntries(entries, current);
            && merged.Keys == entries.Keys + current.Keys
            && (forall n, m | n in merged ::
                  && (m in merged[n].callees
                      <==> (n in entries && m in entries[n].callees)
                           || (n in current && m in current[n].callees && (n !in entries || current[n].hasBody)))
                  && (m in merged[n].callers
                      <==> (n in entries && m in entries[n].callers) || (n in current && m in current[n].callers)))
            && forall n | n in merged ::
                 merged[n].hasBody <==> (n in entries && entries[n].hasBody) || (n in current && current[n].hasBody)
  {
    assert MergedEntries(entries, current).Keys == entries.Keys + current.Keys;
    hide MergedEntries;
    forall n | n in entries || n in current
      ensures var merged := MergedEntries(entries, current);
              merged[n].hasBody <==> (n in entries && entries[n].hasBody) || (n in current && current[n].hasBody)
    {
      MergedEntrySays(entries, current, n, n);
    }
    forall n, m | n in entries || n in current
      ensures var merged := MergedEntries(entries, current);
              && (m in merged[n].callees
                  <==> (n in entries && m in entries[n].callees)
                       || (n in current && m in current[n].callees && (n !in entries || current[n].hasBody)))
              && (m in merged[n].callers
                  <==> (n in entries && m in entries[n].callers) || (n in current && m in current[n].callers))
    {
      MergedEntrySays(entries, current, n, m);
    }
  }

  lemma NoEntryMerged(entries: map<string, CgEntry>)
    ensures MergedEntries(entries, map[]) == entries
  {
  }

  lemma NextEntryMerged(entries: map<string, CgEntry>, done: map<string, CgEntry>, n: string, v: CgEntry)
    requires n !in done
    ensures var before := MergedEntries(entries, done);
            MergedEntries(entries, done[n := v]) == before[n := if n in before then MergedEntry(before[n], v) else v]
  {
    hide MergedEntry;
  }

  /** Edges added before a file's entries are merged may as well be added behind, if they are
      found again then. */
  lemma EdgesBehindEntries(entries: map<string, CgEntry>, current: map<string, CgEntry>, added: CallEdges,
                           more: CallEdges)
    requires added <= more
    ensures AddEdges(MergedEntries(AddEdges(entries, added), current), more)
         == AddEdges(MergedEntries(entries, current), more)
  {
    var left, right := MergedEntries(AddEdges(entries, added), current), MergedEntries(entries, current);
    hide TargetsOf, SourcesOf, AddEdges;
    AddedTo(entries, added);
    AddedTo(left, more);
    AddedTo(right, more);
    forall n | n in left
      ensures AddEdges(left, more)[n] == AddEdges(right, more)[n]
    {
      FewerOf(added, more, n);
      EntryBehindEdges(entries, current, added, n);
      assert AddEdges(left, more)[n] == WithEdges(left[n], more, n);
    }
  }

  function WithEdges(e: CgEntry, added: CallEdges, n: string): CgEntry {
    e.(callees := e.callees + TargetsOf(added, n), callers := e.callers + SourcesOf(added, n))
  }

  lemma AddedTo(entries: map<string, CgEntry>, added: CallEdges)
    ensures AddEdges(entries, added).Keys == entries.Keys
    ensures forall n | n in entries :: AddEdges(entries, added)[n] == WithEdges(entries[n], added, n)
  {
  }

  lemma EntryBehindEdges(entries: map<string, CgEntry>, current: map<string, CgEntry>, added: CallEdges, n: string)
    requires n in entries || n in current
    ensures var left, right := MergedEntries(AddEdges(entries, added), current)[n], MergedEntries(entries, current)[n];
            left == if n in entries then WithEdges(right, added, n) else right
  {
    hide TargetsOf, SourcesOf;
  }

  lemma FewerOf(added: CallEdges, more: CallEdges, n: string)
    requires added <= more
    ensures TargetsOf(added, n) <= TargetsOf(more, n) && SourcesOf(added, n) <= SourcesOf(more, n)
  {
  }

  lemma AddNoEdges(entries: map<string, CgEntry>)
    ensures AddEdges(entries, {}) == entries
  {
    var same := AddEdges(entries, {});
    forall n | n in entries
      ensures same[n] == entries[n]
    {
    }
  }

  function NamePairs(callers: seq<string>, callees: seq<string>): CallEdges {
    set n, m | n in callers && m in callees :: (n, m)
  }

  lemma NoNames(callees: seq<string>)
    ensures NamePairs([], callees) == {}
  {
  }

  lemma NextName(callers: seq<string>, i: nat, callees: seq<string>)
    requires i < |callers|
    ensures NamePairs(callers[..i + 1], callees) == NamePairs(callers[..i], callees) + NamePairs([callers[i]], callees)
  {
  }

  /** The call edges, by mangled name, of one call resolved to one function. */
  function EdgesOfCall(prog: Program, parents: map<CallId, FuncName>, meeting: (Obj, CallId)): CallEdges {
    var (f, c) := meeting;
    if f in prog.functions && prog.functions[f] in prog.infos && c in parents && parents[c] in prog.infos then
      NamePairs(prog.infos[parents[c]].mangledNames, prog.infos[prog.functions[f]].mangledNames)
    else
      {}
  }

  function MeetingEdges(prog: Program, parents: map<CallId, FuncName>, done: set<(Obj, CallId)>): CallEdges {
    set d, e | d in done && e in EdgesOfCall(prog, parents, d) :: e
  }

  lemma MeetingEdgesUnion(prog: Program, parents: map<CallId, FuncName>, done: set<(Obj, CallId)>,
                          more: set<(Obj, CallId)>)
    ensures MeetingEdges(prog, parents, done + more)
         == MeetingEdges(prog, parents, done) + MeetingEdges(prog, parents, more)
  {
  }

  lemma MeetingEdgesOne(prog: Program, parents: map<CallId, FuncName>, d: (Obj, CallId))
    ensures MeetingEdges(prog, parents, {d}) == EdgesOfCall(prog, parents, d)
    ensures MeetingEdges(prog, parents, {}) == {}
  {
  }

  /** The edges of meetings: from every name of the function with the call to every name of the
      function that it meets, the same function included. */
  lemma MeetingEdge(p: Program, parents: map<CallId, FuncName>, done: set<(Obj, CallId)>, n: string, m: string)
    ensures (n, m) in MeetingEdges(p, parents, done)
            <==> exists f, c ::
                   && (f, c) in done && f in p.functions && p.functions[f] in p.infos
                   && c in parents && parents[c] in p.infos
                   && n in p.infos[parents[c]].mangledNames && m in p.infos[p.functions[f]].mangledNames
  {
    if (n, m) in MeetingEdges(p, parents, done) {
      var d :| d in done && (n, m) in EdgesOfCall(p, parents, d);
      assert (d.0, d.1) in done;
    }
    if f, c :| && (f, c) in done && f in p.functions && p.functions[f] in p.infos
               && c in parents && parents[c] in p.infos
               && n in p.infos[parents[c]].mangledNames && m in p.infos[p.functions[f]].mangledNames {
      assert (n, m) in EdgesOfCall(p, parents, (f, c));
    }
  }

  /** With all meetings: some call in a function of the first name may call one of the second. */
  lemma CallEdge(p: Program, parents: map<CallId, FuncName>, l: Labelling, done: set<(Obj, CallId)>,
                 n: string, m: string)
    requires forall f, c :: (f, c) in done <==> HasMeeting(p, l, f, c)
    ensures (n, m) in MeetingEdges(p, parents, done)
            <==> exists f, c, o ::
                   && f in p.functions && c in p.calls && o in p.calls[c].calledObjects && Same(l, f, o)
                   && p.functions[f] in p.infos && c in parents && parents[c] in p.infos
                   && n in p.infos[parents[c]].mangledNames && m in p.infos[p.functions[f]].mangledNames
  {
    hide Same, MeetingEdges;
    MeetingEdge(p, parents, done, n, m);
    if f, c, o :| && f in p.functions && c in p.calls && o in p.calls[c].calledObjects && Same(l, f, o)
                  && p.functions[f] in p.infos && c in parents && parents[c] in p.infos
                  && n in p.infos[parents[c]].mangledNames && m in p.infos[p.functions[f]].mangledNames {
      assert Calls(p.calls, c, o);
      assert HasMeeting(p, l, f, c);
      assert (f, c) in done;
    }
    if (n, m) in MeetingEdges(p, parents, done) {
      var f, c :| && (f, c) in done && f in p.functions && p.functions[f] in p.infos
                  && c in parents && parents[c] in p.infos
                  && n in p.infos[parents[c]].mangledNames && m in p.infos[p.functions[f]].mangledNames;
      var o :| Calls(p.calls, c, o) && Same(l, f, o);
      assert c in p.calls && o in p.calls[c].calledObjects;
    }
  }

  /** What an entry says once edges have been added. */
  lemma EntrySays(entries: map<string, CgEntry>, added: CallEdges, n: string, m: string)
    requires n in entries
    ensures var after := AddEdges(entries, added);
            && after.Keys == entries.Keys && after[n].hasBody == entries[n].hasBody
            && (m in after[n].callees <==> m in entries[n].callees || (n, m) in added)
            && (m in after[n].callers <==> m in entries[n].callers || (m, n) in added)
  {
    if (n, m) in added {
      assert (n, m).0 == n && (n, m).1 == m;
    }
    if (m, n) in added {
      assert (m, n).0 == m && (m, n).1 == n;
    }
  }

  /** The same for the edges of some meetings. */
  lemma MeetingsAreEdges(p: Program, parents: map<CallId, FuncName>, done: set<(Obj, CallId)>,
                         before: map<string, CgEntry>)
    ensures var after := AddEdges(before, MeetingEdges(p, parents, done));
            && after.Keys == before.Keys
            && (forall n, m | n in after ::
                  m in after[n].callees
                  <==> m in before[n].callees
                       || exists f, c ::
                          && (f, c) in done && f in p.functions && p.functions[f] in p.infos
                          && c in parents && parents[c] in p.infos
                          && n in p.infos[parents[c]].mangledNames && m in p.infos[p.functions[f]].mangledNames)
            && (forall n, m | m in after ::
                  n in after[m].callers
                  <==> n in before[m].callers
                       || exists f, c ::
                          && (f, c) in done && f in p.functions && p.functions[f] in p.infos
                          && c in parents && parents[c] in p.infos
                          && n in p.infos[parents[c]].mangledNames && m in p.infos[p.functions[f]].mangledNames)
  {
    hide AddEdges, MeetingEdges;
    var added := MeetingEdges(p, parents, done);
    AddEdgesKeys(before, added);
    forall n, m | n in before
      ensures m in AddEdges(before, added)[n].callees <==> m in before[n].callees || (n, m) in added
      ensures m in AddEdges(before, added)[n].callers <==> m in before[n].callers || (m, n) in added
    {
      EntrySays(before, added, n, m);
    }
    forall n, m
      ensures (n, m) in added
              <==> exists f, c ::
                     && (f, c) in done && f in p.functions && p.functions[f] in p.infos
                     && c in parents && parents[c] in p.infos
                     && n in p.infos[parents[c]].mangledNames && m in p.infos[p.functions[f]].mangledNames
    {
      MeetingEdge(p, parents, done, n, m);
    }
  }

  /** With all meetings: the call graph gains exactly the edges between functions that a call may
      connect, at both ends. */
  lemma CallsAreEdges(p: Program, parents: map<CallId, FuncName>, l: Labelling, done: set<(Obj, CallId)>,
                      entries: map<string, CgEntry>)
    requires forall f, c :: (f, c) in done <==> HasMeeting(p, l, f, c)
    ensures var after := AddEdges(entries, MeetingEdges(p, parents, done));
            && after.Keys == entries.Keys && (forall n :: n in after ==> after[n].hasBody == entries[n].hasBody)
            && (forall n, m | n in after ::
                  m in after[n].callees
                  <==> m in entries[n].callees
                       || exists f, c, o ::
                          && f in p.functions && c in p.calls && o in p.calls[c].calledObjects && Same(l, f, o)
                          && p.functions[f] in p.infos && c in parents && parents[c] in p.infos
                          && n in p.infos[parents[c]].mangledNames && m in p.infos[p.functions[f]].mangledNames)
            && (forall n, m | m in after ::
                  n in after[m].callers
                  <==> n in entries[m].callers
                       || exists f, c, o ::
                          && f in p.functions && c in p.calls && o in p.calls[c].calledObjects && Same(l, f, o)
                          && p.functions[f] in p.infos && c in parents && parents[c] in p.infos
                          && n in p.infos[parents[c]].mangledNames && m in p.infos[p.functions[f]].mangledNames)
  {
    hide AddEdges, MeetingEdges, HasMeeting, Same;
    var added := MeetingEdges(p, parents, done);
    var after := AddEdges(entries, added);
    AddEdgesKeys(entries, added);
    forall n | n in after
      ensures after[n].hasBody == entries[n].hasBody
    {
      EntrySays(entries, added, n, n);
    }
    forall n, m | n in after
      ensures m in after[n].callees <==> m in entries[n].callees || (n, m) in added
      ensures (n, m) in added
              <==> exists f, c, o ::
                     && f in p.functions && c in p.calls && o in p.calls[c].calledObjects && Same(l, f, o)
                     && p.functions[f] in p.infos && c in parents && parents[c] in p.infos
                     && n in p.infos[parents[c]].mangledNames && m in p.infos[p.functions[f]].mangledNames
    {
      CallEdge(p, parents, l, done, n, m);
      EntrySays(entries, added, n, m);
    }
    forall n, m | m in after
      ensures n in after[m].callers <==> n in entries[m].callers || (n, m) in added
      ensures (n, m) in added
              <==> exists f, c, o ::
                     && f in p.functions && c in p.calls && o in p.calls[c].calledObjects && Same(l, f, o)
                     && p.functions[f] in p.infos && c in parents && parents[c] in p.infos
                     && n in p.infos[parents[c]].mangledNames && m in p.infos[p.functions[f]].mangledNames
    {
      CallEdge(p, parents, l, done, n, m);
      EntrySays(entries, added, m, n);
    }
  }

  class CallGraphJson {
    var entries: map<string, CgEntry>

    /** Merges the entries of one more file, name by name. */
    method MergeEntries(current: map<string, CgEntry>)
      modifies this
      ensures entries == MergedEntries(old(entries), current)
      ensures entries.Keys == old(entries.Keys) + current.Keys
      ensures forall n, m | n in entries ::
                && (m in entries[n].callees
                    <==> (n in old(entries) && m in old(entries)[n].callees)
                         || (n in current && m in current[n].callees && (n !in old(entries) || current[n].hasBody)))
                && (m in entries[n].callers
                    <==> (n in old(entries) && m in old(entries)[n].callers)
                         || (n in current && m in current[n].callers))
      ensures forall n | n in entries ::
                entries[n].hasBody
                <==> (n in old(entries) && old(entries)[n].hasBody) || (n in current && current[n].hasBody)
    {
      hide MergedEntries, MergedEntry;
      var todo := current.Keys;
      ghost var done: map<string, CgEntry> := map[];
      NoEntryMerged(entries);
      while todo != {}
        invariant todo <= current.Keys && done.Keys == current.Keys - todo
        invariant forall n :: n in done ==> done[n] == current[n]
        invariant entries == MergedEntries(old(entries), done)
      {
        var it :| it in todo;
        NextEntryMerged(old(entries), done, it, current[it]);
        if it !in entries {
          entries := entries[it := current[it]];
        } else {
          var c, v := entries[it], current[it];
          if v.hasBody {
            c := c.(callees := c.callees + v.callees, hasBody := true);
          }
          c := c.(callers := c.callers + v.callers);
          EntryMerged(entries[it], v);
          entries := entries[it := c];
        }
        done := done[it := current[it]];
        todo := todo - {it};
      }
      assert done == current;
      MergedEntriesSay(old(entries), current);
    }

    /** Adds the callees to every calling name and the caller to every called name present. */
    method AddNames(callingNames: seq<string>, calledNames: seq<string>)
      requires forall n :: n in callingNames ==> n in entries
      modifies this
      ensures entries == AddEdges(old(entries), NamePairs(callingNames, calledNames))
    {
      hide AddEdges, NamePairs;
      AddNoEdges(entries);
      NoNames(calledNames);
      for i := 0 to |callingNames|
        invariant entries == AddEdges(old(entries), NamePairs(callingNames[..i], calledNames))
        invariant entries.Keys == old(entries).Keys
      {
        AddCaller(callingNames[i], calledNames);
        AddEdgesTwice(old(entries), NamePairs(callingNames[..i], calledNames),
                      NamePairs([callingNames[i]], calledNames));
        NextName(callingNames, i, calledNames);
      }
      assert callingNames[..|callingNames|] == callingNames;
    }

    method AddCaller(calling: string, calledNames: seq<string>)
      requires calling in entries
      modifies this
      ensures entries == AddEdges(old(entries), NamePairs([calling], calledNames))
      ensures entries.Keys == old(entries).Keys
      ensures forall n, m | n in entries ::
                && (m in entries[n].callees <==> m in old(entries)[n].callees || (n == calling && m in calledNames))
                && (m in entries[n].callers <==> m in old(entries)[n].callers || (m == calling && n in calledNames))
    {
      hide CallerAdded;
      var callees := entries[calling].callees + Names(calledNames);
      entries := entries[calling := entries[calling].(callees := callees)];
      CallerAddedFirst(old(entries), entries, calling, calledNames);
      for j := 0 to |calledNames|
        invariant CallerAdded(old(entries), entries, calling, Names(calledNames), Names(calledNames[..j]))
      {
        CallerAddedNext(old(entries), entries, calling, calledNames, j);
        if calledNames[j] in entries {
          var parents := entries[calledNames[j]].callers + {calling};
          entries := entries[calledNames[j] := entries[calledNames[j]].(callers := parents)];
        }
      }
      assert calledNames[..|calledNames|] == calledNames;
      OneCaller(old(entries), entries, calling, calledNames);
      NamesAdded(old(entries), [calling], calledNames);
      assert forall n :: n in [calling] <==> n == calling;
    }
  }

  function Names(names: seq<string>): set<string> {
    set n | n in names
  }

  /** One caller has all callees, and some of them have the caller. */
  ghost predicate CallerAdded(before: map<string, CgEntry>, after: map<string, CgEntry>, calling: string,
                              called: set<string>, done: set<string>)
  {
    && after.Keys == before.Keys
    && forall n :: n in after ==>
         after[n] == before[n].(callees := before[n].callees + if n == calling then called else {},
                                callers := before[n].callers + if n in done then {calling} else {})
  }

  lemma CallerAddedFirst(before: map<string, CgEntry>, after: map<string, CgEntry>, calling: string,
                         called: seq<string>)
    requires calling in before
    requires after == before[calling := before[calling].(callees := before[calling].callees + Names(called))]
    ensures CallerAdded(before, after, calling, Names(called), Names(called[..0]))
  {
  }

  lemma CallerAddedNext(before: map<string, CgEntry>, after: map<string, CgEntry>, calling: string,
                        called: seq<string>, j: nat)
    requires j < |called| && CallerAdded(before, after, calling, Names(called), Names(called[..j]))
    ensures var next := if called[j] in after
                        then after[called[j] := after[called[j]].(callers := after[called[j]].callers + {calling})]
                        else after;
            CallerAdded(before, next, calling, Names(called), Names(called[..j + 1]))
  {
    assert called[..j + 1] == called[..j] + [called[j]];
    assert Names(called[..j + 1]) == Names(called[..j]) + {called[j]};
  }

  lemma EdgesOfOneCaller(calling: string, calledNames: seq<string>, n: string)
    ensures TargetsOf(NamePairs([calling], calledNames), n) == if n == calling then Names(calledNames) else {}
    ensures SourcesOf(NamePairs([calling], calledNames), n) == if n in Names(calledNames) then {calling} else {}
  {
    var added := NamePairs([calling], calledNames);
    forall m | m in calledNames
      ensures (calling, m) in added
    {
      assert calling in [calling];
    }
    forall m | m in calledNames && n == calling
      ensures m in TargetsOf(added, n)
    {
      assert (n, m) in added && (n, m).1 == m;
    }
    if n in calledNames {
      assert (calling, n) in added && (calling, n).0 == calling;
    }
  }

  lemma OneCaller(before: map<string, CgEntry>, after: map<string, CgEntry>, calling: string,
                  calledNames: seq<string>)
    requires CallerAdded(before, after, calling, Names(calledNames), Names(calledNames))
    ensures after == AddEdges(before, NamePairs([calling], calledNames)) && after.Keys == before.Keys
  {
    hide TargetsOf, SourcesOf, NamePairs, Names;
    forall n | n in before
      ensures after[n] == AddEdges(before, NamePairs([calling], calledNames))[n]
    {
      EdgesOfOneCaller(calling, calledNames, n);
    }
  }

  // ---------------------------------------------------------------- resolving calls

  /** Every function containing a call has an entry in the call graph under all its names. */
  ghost predicate CallersListed(infos: map<FuncName, FunctionInfo>, parents: map<CallId, FuncName>, names: set<string>)
  {
    forall c :: c in parents ==>
                  parents[c] in infos && forall n :: n in infos[parents[c]].mangledNames ==> n in names
  }

  lemma NamesAdded(entries: map<string, CgEntry>, callers: seq<string>, callees: seq<string>)
    ensures var after := AddEdges(entries, NamePairs(callers, callees));
            && after.Keys == entries.Keys
            && (forall n, m | n in after ::
                  m in after[n].callees <==> m in entries[n].callees || (n in callers && m in callees))
            && (forall n, m | n in after ::
                  m in after[n].callers <==> m in entries[n].callers || (m in callers && n in callees))
  {
    var added := NamePairs(callers, callees);
    AddEdgesKeys(entries, added);
    hide AddEdges, NamePairs;
    forall n, m
      ensures (n, m) in added <==> n in callers && m in callees
    {
      InNamePairs(callers, callees, n, m);
    }
    forall n, m | n in entries
      ensures m in AddEdges(entries, added)[n].callees <==> m in entries[n].callees || (n, m) in added
      ensures m in AddEdges(entries, added)[n].callers <==> m in entries[n].callers || (m, n) in added
    {
      EntrySays(entries, added, n, m);
    }
  }

  lemma InNamePairs(callers: seq<string>, callees: seq<string>, n: string, m: string)
    ensures (n, m) in NamePairs(callers, callees) <==> n in callers && m in callees
  {
  }

  method AddCallToCallGraph(data: EquivClassContainer, callingFunctionName: FuncName,
                            calledFunctionName: FuncName, json: CallGraphJson)
    requires callingFunctionName in data.functionInfoMap && calledFunctionName in data.functionInfoMap
    requires forall n :: n in data.functionInfoMap[callingFunctionName].mangledNames ==> n in json.entries
    modifies json
    ensures json.entries == AddEdges(old(json.entries),
                                     NamePairs(data.functionInfoMap[callingFunctionName].mangledNames,
                                               data.functionInfoMap[calledFunctionName].mangledNames))
    ensures var calling, called := data.functionInfoMap[callingFunctionName], data.functionInfoMap[calledFunctionName];
            && json.entries.Keys == old(json.entries.Keys)
            && (forall n, m | n in json.entries ::
                  m in json.entries[n].callees
                  <==> m in old(json.entries)[n].callees || (n in calling.mangledNames && m in called.mangledNames))
            && (forall n, m | n in json.entries ::
                  m in json.entries[n].callers
                  <==> m in old(json.entries)[n].callers || (m in calling.mangledNames && n in called.mangledNames))
  {
    ghost var calling, called := data.functionInfoMap[callingFunctionName], data.functionInfoMap[calledFunctionName];
    hide AddEdges, NamePairs;
    NamesAdded(json.entries, calling.mangledNames, called.mangledNames);
    json.AddNames(data.functionInfoMap[callingFunctionName].mangledNames,
                  data.functionInfoMap[calledFunctionName].mangledNames);
  }

  /** Resolves one meeting and, recursively, everything it causes; `done` are the meetings
      resolved, and exactly their call edges enter the call graph. */
  method MergeFunctionCall(data: EquivClassContainer, calledObj: Obj, ce: CallId, json: CallGraphJson)
    returns (ghost done: set<(Obj, CallId)>)
    requires data.Valid({}) && data.ProgramKnown() && HasMeeting(data.Prog(), data.findMap, calledObj, ce)
    requires CallersListed(data.functionInfoMap, data.callExprParentMap, json.entries.Keys)
    modifies data`equivClasses, data`store, data`nextId, data`findMap, json
    ensures data.Valid({}) && data.ProgramKnown() && data.Prog() == old(data.Prog())
    ensures data.findMap.Keys == old(data.findMap.Keys) && |data.store| <= old(|data.store|)
    ensures json.entries.Keys == old(json.entries.Keys)
    ensures Coarser(old(data.findMap), data.findMap) && (calledObj, ce) in done
    ensures Drained(data.Prog(), old(data.findMap), data.findMap, done)
    ensures ForcedByCalls(data.Prog(), old(data.findMap), data.findMap)
    ensures json.entries == AddEdges(old(json.entries), MeetingEdges(data.Prog(), data.callExprParentMap, done))
    ensures var p, parents, before, after :=
              data.Prog(), data.callExprParentMap, old(json.entries), json.entries;
            && after.Keys == before.Keys
            && (forall n, m | n in after ::
                  m in after[n].callees
                  <==> m in before[n].callees
                       || exists f, c ::
                          && (f, c) in done && f in p.functions && p.functions[f] in p.infos
                          && c in parents && parents[c] in p.infos
                          && n in p.infos[parents[c]].mangledNames && m in p.infos[p.functions[f]].mangledNames)
            && (forall n, m | m in after ::
                  n in after[m].callers
                  <==> n in before[m].callers
                       || exists f, c ::
                          && (f, c) in done && f in p.functions && p.functions[f] in p.infos
                          && c in parents && parents[c] in p.infos
                          && n in p.infos[parents[c]].mangledNames && m in p.infos[p.functions[f]].mangledNames)
    decreases |data.store|, 1
  {
    hide Drained, Draining, HasMeeting, Resolved, Coarser, ForcedByCalls, Partition, Known, Complete, Sound,
      Distinct, AddEdges, NamePairs, MeetingEdges;
    ghost var prog, parents, findMap0 := data.Prog(), data.callExprParentMap, data.findMap;
    MeetingNames(prog, findMap0, calledObj, ce);
    var ret, calling, called := data.MergeFunctionCall(calledObj, ce);
    AddCallToCallGraph(data, calling, called, json);
    AddEdgesKeys(old(json.entries), EdgesOfCall(prog, parents, (calledObj, ce)));
    MeetingEdgesOne(prog, parents, (calledObj, ce));
    done := ResolveAll(data, ret, json, findMap0, {(calledObj, ce)}, old(json.entries));
    MeetingsAreEdges(prog, parents, done, old(json.entries));
  }

  /** The loop over a work list.  `before` are the meetings already resolved since `start`. */
  method ResolveAll(data: EquivClassContainer, todo: Meetings, json: CallGraphJson, ghost start: Labelling,
                    ghost before: set<(Obj, CallId)>, ghost entries: map<string, CgEntry>)
    returns (ghost done: set<(Obj, CallId)>)
    requires data.Valid({}) && data.ProgramKnown()
    requires CallersListed(data.functionInfoMap, data.callExprParentMap, json.entries.Keys)
    requires Coarser(start, data.findMap) && ForcedByCalls(data.Prog(), start, data.findMap)
    requires Draining(data.Prog(), start, data.findMap, before, todo)
    requires json.entries == AddEdges(entries, MeetingEdges(data.Prog(), data.callExprParentMap, before))
    modifies data`equivClasses, data`store, data`nextId, data`findMap, json
    ensures data.Valid({}) && data.ProgramKnown() && data.Prog() == old(data.Prog())
    ensures data.findMap.Keys == old(data.findMap.Keys) && |data.store| <= old(|data.store|)
    ensures json.entries.Keys == old(json.entries.Keys)
    ensures Coarser(start, data.findMap) && before <= done && forall m :: m in todo ==> m in done
    ensures Drained(data.Prog(), start, data.findMap, done)
    ensures ForcedByCalls(data.Prog(), start, data.findMap)
    ensures json.entries == AddEdges(entries, MeetingEdges(data.Prog(), data.callExprParentMap, done))
    decreases |data.store|, if todo == [] then 0 else 2, |todo|
  {
    hide Drained, Draining, HasMeeting, Resolved, Coarser, ForcedByCalls, Partition, Known, Complete, Sound,
      Distinct, AddEdges, NamePairs, MeetingEdges;
    ghost var prog, parents := data.Prog(), data.callExprParentMap;
    done := before;
    if todo == [] {
      DrainEnd(prog, start, data.findMap, done, todo);
      return;
    }
    ghost var findMap0 := data.findMap;
    HeadMeets(prog, start, data.findMap, before, todo);
    ghost var more := MergeFunctionCall(data, todo[0].0, todo[0].1, json);
    DrainStep(prog, start, findMap0, before, todo, data.findMap, more);
    MeetingEdgesUnion(prog, parents, before, more);
    AddEdgesTwice(entries, MeetingEdges(prog, parents, before), MeetingEdges(prog, parents, more));
    done := ResolveAll(data, todo[1..], json, start, before + more, entries);
  }

  lemma AddEdgesKeys(entries: map<string, CgEntry>, added: CallEdges)
    ensures AddEdges(entries, added).Keys == entries.Keys
  {
  }

  // ---------------------------------------------------------------- merging the program information

  /** A function known to both files keeps its first description, except that an empty list of
      returned objects is taken from the second file. */
  function MergedInfo(info1: FunctionInfo, info2: FunctionInfo): FunctionInfo {
    if info1.returned == [] then info1.(returned := info2.returned) else info1
  }

  function MergedInfos(infos1: map<FuncName, FunctionInfo>, infos2: map<FuncName, FunctionInfo>)
    : map<FuncName, FunctionInfo>
  {
    map n | n in infos1.Keys + infos2.Keys ::
      if n in infos1 && n in infos2 then MergedInfo(infos1[n], infos2[n])
      else if n in infos1 then infos1[n] else infos2[n]
  }

  /** Formals of one function that the two files name differently. */
  function ParamPairs(infos1: map<FuncName, FunctionInfo>, infos2: map<FuncName, FunctionInfo>): Pairs {
    set n, p | n in infos1 && n in infos2 && p in ParamsOf(infos1[n].parameters, infos2[n].parameters) :: p
  }

  function ParamsOf(params1: seq<Obj>, params2: seq<Obj>): Pairs {
    set i | 0 <= i < |params1| && i < |params2| && params1[i] != params2[i] :: (params1[i], params2[i])
  }

  /** What the merge asserts of the functions that both files describe. */
  ghost predicate InfosAgree(infos1: map<FuncName, FunctionInfo>, infos2: map<FuncName, FunctionInfo>) {
    forall n :: n in infos1 && n in infos2 ==>
                  && |infos1[n].parameters| == |infos2[n].parameters|
                  && infos1[n].isVariadic == infos2[n].isVariadic
                  && infos1[n].mangledNames == infos2[n].mangledNames
  }

  method MergeFunctionInfos(file1: EquivClassContainer, infos2: map<FuncName, FunctionInfo>)
    returns (paramsToMerge: seq<(Obj, Obj)>)
    requires InfosAgree(file1.functionInfoMap, infos2)
    modifies file1`functionInfoMap
    ensures file1.functionInfoMap == MergedInfos(old(file1.functionInfoMap), infos2)
    ensures PairSet(paramsToMerge) == ParamPairs(old(file1.functionInfoMap), infos2)
  {
    hide MergedInfos, ParamPairs, ParamsOf, PairSet;
    paramsToMerge := [];
    ghost var infos1 := file1.functionInfoMap;
    var rest := infos2.Keys;
    ghost var seen: map<FuncName, FunctionInfo> := map[];
    NoneSeen(infos1);
    while rest != {}
      invariant rest <= infos2.Keys
      invariant seen == map n | n in infos2 && n !in rest :: infos2[n]
      invariant file1.functionInfoMap == MergedInfos(infos1, seen)
      invariant PairSet(paramsToMerge) == ParamPairs(infos1, seen)
      decreases rest
    {
      var name :| name in rest;
      var info := infos2[name];
      assert name !in seen;
      SeenOneMore(infos1, seen, name, info);
      if name !in file1.functionInfoMap {
        file1.functionInfoMap := file1.functionInfoMap[name := info];
      } else {
        var known := file1.functionInfoMap[name];
        paramsToMerge := CompareParameters(known.parameters, info.parameters, paramsToMerge);
        if known.returned == [] {
          file1.functionInfoMap := file1.functionInfoMap[name := known.(returned := info.returned)];
        }
      }
      rest := rest - {name};
      seen := seen[name := info];
    }
    assert seen == infos2;
  }

  lemma NoneSeen(infos1: map<FuncName, FunctionInfo>)
    ensures MergedInfos(infos1, map[]) == infos1 && ParamPairs(infos1, map[]) == {} == PairSet([])
  {
  }

  lemma SeenOneMore(infos1: map<FuncName, FunctionInfo>, seen: map<FuncName, FunctionInfo>, name: FuncName,
                    info: FunctionInfo)
    requires name !in seen
    ensures name in MergedInfos(infos1, seen) <==> name in infos1
    ensures name in infos1 ==> MergedInfos(infos1, seen)[name] == infos1[name]
    ensures MergedInfos(infos1, seen[name := info])
         == MergedInfos(infos1, seen)[name := if name in infos1 then MergedInfo(infos1[name], info) else info]
    ensures ParamPairs(infos1, seen[name := info])
         == ParamPairs(infos1, seen)
            + (if name in infos1 then ParamsOf(infos1[name].parameters, info.parameters) else {})
  {
    var seen' := seen[name := info];
    forall p | p in ParamPairs(infos1, seen')
      ensures p in ParamPairs(infos1, seen)
                   + (if name in infos1 then ParamsOf(infos1[name].parameters, info.parameters) else {})
    {
      var n :| n in infos1 && n in seen' && p in ParamsOf(infos1[n].parameters, seen'[n].parameters);
      if n != name {
        assert n in seen && p in ParamsOf(infos1[n].parameters, seen[n].parameters);
      }
    }
    forall p | p in ParamPairs(infos1, seen)
      ensures p in ParamPairs(infos1, seen')
    {
      var n :| n in infos1 && n in seen && p in ParamsOf(infos1[n].parameters, seen[n].parameters);
      assert p in ParamsOf(infos1[n].parameters, seen'[n].parameters);
    }
  }

  method CompareParameters(params1: seq<Obj>, params2: seq<Obj>, pairs: seq<(Obj, Obj)>)
    returns (out: seq<(Obj, Obj)>)
    requires |params1| == |params2|
    ensures PairSet(out) == PairSet(pairs) + ParamsOf(params1, params2)
  {
    out := pairs;
    for i := 0 to |params1|
      invariant forall p :: p in out <==> p in pairs || p in ParamsOf(params1[..i], params2[..i])
    {
      ghost var before := ParamsOf(params1[..i], params2[..i]);
      assert ParamsOf(params1[..i + 1], params2[..i + 1])
          == before + (if params1[i] != params2[i] then {(params1[i], params2[i])} else {}) by {
        NextParam(params1, params2, i);
      }
      if params1[i] != params2[i] {
        out := out + [(params1[i], params2[i])];
      }
    }
    assert params1[..|params1|] == params1 && params2[..|params2|] == params2;
  }

  lemma NextParam(params1: seq<Obj>, params2: seq<Obj>, i: nat)
    requires i < |params1| == |params2|
    ensures ParamsOf(params1[..i + 1], params2[..i + 1])
         == ParamsOf(params1[..i], params2[..i])
            + (if params1[i] != params2[i] then {(params1[i], params2[i])} else {})
  {
  }

  // ---------------------------------------------------------------- merging two files

  /** Merges the queued target pairs; calls are looked at only afterwards. */
  method MergeQueued(file1: EquivClassContainer, objectsToMerge: seq<(Obj, Obj)>)
    requires file1.Valid(PairSet(objectsToMerge))
    requires forall p :: p in objectsToMerge ==> p.0 in file1.findMap && p.1 in file1.findMap
    modifies file1`equivClasses, file1`store, file1`nextId, file1`findMap
    ensures file1.Valid({}) && file1.findMap.Keys == old(file1.findMap.Keys)
    ensures Coarser(old(file1.findMap), file1.findMap)
    ensures Joins(file1.findMap, PairSet(objectsToMerge))
    ensures Forced(file1.edges, old(file1.findMap), PairSet(objectsToMerge), file1.findMap)
  {
    hide Partition, Sound, Complete, Congruent, Coarser, Joins, Distinct, Known, PairSet, Forced, OnlyMeetings,
      AllNewMeetings, Progress;
    ghost var l := file1.findMap;
    NothingMerged(file1.edges, l, objectsToMerge);
    assert objectsToMerge[..0] == [] && Joins(file1.findMap, PairSet(objectsToMerge[..0])) by {
      NothingJoined(file1.findMap);
    }
    assert objectsToMerge[0..] == objectsToMerge;
    for i := 0 to |objectsToMerge|
      invariant file1.Valid({} + PairSet(objectsToMerge[i..])) && file1.findMap.Keys == l.Keys
      invariant Coarser(l, file1.findMap)
      invariant Forced(file1.edges, l, PairSet(objectsToMerge), file1.findMap)
      invariant Joins(file1.findMap, PairSet(objectsToMerge[..i]))
    {
      var (x, y) := objectsToMerge[i];
      assert objectsToMerge[i] in objectsToMerge;
      ghost var l1 := file1.findMap;
      var tmp := file1.Unify(x, y, {} + PairSet(objectsToMerge[i..]));
      ForcedMember(file1, l, objectsToMerge, l1, x, y, tmp);
      JoinMore(l1, file1.findMap, PairSet(objectsToMerge[..i]), {(x, y)});
      NextPair(objectsToMerge, i);
      PairDone(file1.store, file1.findMap, file1.edges, {}, objectsToMerge[i..]);
      assert objectsToMerge[i..][1..] == objectsToMerge[i + 1..];
    }
    NoneLeft({}, objectsToMerge[|objectsToMerge|..]);
    assert objectsToMerge[..|objectsToMerge|] == objectsToMerge;
  }

  lemma NothingJoined(l: Labelling)
    ensures Joins(l, PairSet([]))
  {
  }

  lemma NothingMerged(edges: set<Edge>, l: Labelling, pairs: seq<(Obj, Obj)>)
    ensures Coarser(l, l) && Forced(edges, l, PairSet(pairs), l)
    ensures {} + PairSet(pairs) == PairSet(pairs)
  {
  }

  lemma ForcedMember(file1: EquivClassContainer, l: Labelling, pairs: seq<(Obj, Obj)>, l1: Labelling, x: Obj, y: Obj,
                     found: Meetings)
    requires (x, y) in pairs && Coarser(l, l1) && Forced(file1.edges, l, PairSet(pairs), l1)
    requires Progress(file1.functionMap, file1.callInfoMap, file1.edges, l1, {(x, y)}, file1.findMap, found)
    requires Joins(file1.findMap, {(x, y)})
    ensures Coarser(l, file1.findMap) && Forced(file1.edges, l, PairSet(pairs), file1.findMap)
    ensures Same(file1.findMap, x, y)
  {
  }

  /** Merges the formals that the two files name differently. */
  method MergeParams(file1: EquivClassContainer, paramsToMerge: seq<(Obj, Obj)>) returns (found: Meetings)
    requires file1.Valid({})
    requires forall p :: p in paramsToMerge ==> p.0 in file1.findMap && p.1 in file1.findMap
    modifies file1`equivClasses, file1`store, file1`nextId, file1`findMap
    ensures file1.Valid({}) && file1.findMap.Keys == old(file1.findMap.Keys)
    ensures Coarser(old(file1.findMap), file1.findMap) && Joins(file1.findMap, PairSet(paramsToMerge))
    ensures Forced(file1.edges, old(file1.findMap), PairSet(paramsToMerge), file1.findMap)
    ensures OnlyMeetings(file1.functionMap, file1.callInfoMap, file1.findMap, found)
  {
    hide Partition, Sound, Complete, Congruent, Coarser, Joins, Distinct, Known, PairSet, Forced, OnlyMeetings,
      AllNewMeetings, Progress;
    ghost var l := file1.findMap;
    found := [];
    NoProgress(file1.functionMap, file1.callInfoMap, file1.edges, l);
    NoPairs();
    for i := 0 to |paramsToMerge|
      invariant file1.Valid({}) && file1.findMap.Keys == l.Keys
      invariant Progress(file1.functionMap, file1.callInfoMap, file1.edges, l, PairSet(paramsToMerge[..i]),
                         file1.findMap, found)
      invariant Joins(file1.findMap, PairSet(paramsToMerge[..i]))
    {
      ghost var l1, found1 := file1.findMap, found;
      var (x, y) := paramsToMerge[i];
      assert paramsToMerge[i] in paramsToMerge;
      var tmp := file1.Unify(x, y, {});
      found := found + tmp;
      ProgressStep(file1.functionMap, file1.callInfoMap, file1.edges, l, PairSet(paramsToMerge[..i]), l1, found1,
                   {(x, y)}, file1.findMap, tmp);
      ProgressJoins(file1.functionMap, file1.callInfoMap, file1.edges, l1, file1.findMap, tmp,
                    PairSet(paramsToMerge[..i]), {(x, y)});
      NextPair(paramsToMerge, i);
    }
    assert paramsToMerge[..|paramsToMerge|] == paramsToMerge;
    ProgressParts(file1.functionMap, file1.callInfoMap, file1.edges, l, PairSet(paramsToMerge), file1.findMap, found);
  }

  lemma NextPair(pairs: seq<(Obj, Obj)>, i: nat)
    requires i < |pairs|
    ensures PairSet(pairs[..i + 1]) == PairSet(pairs[..i]) + {pairs[i]}
  {
  }

  lemma ProgressParts(functions: map<Obj, FuncName>, callInfo: map<CallId, CallInfo>, edges: set<Edge>,
                      l: Labelling, pairs: Pairs, l': Labelling, found: Meetings)
    requires Progress(functions, callInfo, edges, l, pairs, l', found)
    ensures Coarser(l, l') && Forced(edges, l, pairs, l') && OnlyMeetings(functions, callInfo, l', found)
  {
  }

  /** Adds the meetings of every class to the work list. */
  method SeedMeetings(file1: EquivClassContainer, found: Meetings) returns (todo: Meetings)
    requires file1.Valid({}) && file1.ProgramKnown()
    requires OnlyMeetings(file1.functionMap, file1.callInfoMap, file1.findMap, found)
    ensures OnlyMeetings(file1.functionMap, file1.callInfoMap, file1.findMap, todo)
    ensures forall f, c :: Meets(file1.functionMap, file1.callInfoMap, file1.findMap, f, c) ==> (f, c) in todo
  {
    hide OnlyMeetings, Sound, Complete, Known, Distinct;
    todo := found;
    var list := file1.equivClasses;
    for i := 0 to |list|
      invariant OnlyMeetings(file1.functionMap, file1.callInfoMap, file1.findMap, todo)
      invariant forall k :: 0 <= k < i ==>
                  ClassSearched(file1.store[list[k]].objects, file1.functionMap, file1.callInfoMap, todo)
    {
      todo := file1.GetFunctionsToMerge(todo, list[i]);
    }
    forall f, c | Meets(file1.functionMap, file1.callInfoMap, file1.findMap, f, c)
      ensures (f, c) in todo
    {
      var o :| Calls(file1.callInfoMap, c, o) && Same(file1.findMap, f, o);
      var e := file1.findMap[f];
      assert e in list;
      var k :| 0 <= k < |list| && list[k] == e;
      assert ClassSearched(file1.store[list[k]].objects, file1.functionMap, file1.callInfoMap, todo);
    }
  }

  /** The program information of two files together: entries of the first take precedence. */
  function MergedProgram(p1: Program, p2: Program): Program {
    Program(p1.edges + p2.edges, p2.functions + p1.functions, MergedInfos(p1.infos, p2.infos), p2.calls + p1.calls)
  }

  /** `l` solves the constraints of the merged program: it contains both partitions, joins the
      formals of shared functions, and is closed under prefixes and call resolution. */
  ghost predicate Solves(prog: Program, l1: Labelling, l2: Labelling, params: Pairs, l: Labelling) {
    Closed(prog, l) && Coarser(l1, l) && Coarser(l2, l) && Joins(l, params)
  }

  /** ... and is the least equivalence that does. */
  ghost predicate LeastSolution(prog: Program, l1: Labelling, l2: Labelling, params: Pairs, l: Labelling) {
    Solves(prog, l1, l2, params, l) && forall r :: Solves(prog, l1, l2, params, r) ==> Coarser(l, r)
  }

  /** A solution contains both partitions, joins the formals of shared functions position by
      position, and is closed for the program information of both files; the least one is below
      all others. */
  lemma SolutionMeans(p1: Program, p2: Program, l1: Labelling, l2: Labelling, r: Labelling)
    ensures Solves(MergedProgram(p1, p2), l1, l2, ParamPairs(p1.infos, p2.infos), r)
            <==> Closed(MergedProgram(p1, p2), r)
                 && (forall a, b | Same(l1, a, b) || Same(l2, a, b) :: Same(r, a, b))
                 && forall n, i | n in p1.infos && n in p2.infos && 0 <= i < |p1.infos[n].parameters|
                                  && i < |p2.infos[n].parameters| ::
                      Same(r, p1.infos[n].parameters[i], p2.infos[n].parameters[i])
    ensures LeastSolution(MergedProgram(p1, p2), l1, l2, ParamPairs(p1.infos, p2.infos), r)
            <==> Solves(MergedProgram(p1, p2), l1, l2, ParamPairs(p1.infos, p2.infos), r)
                 && forall l, a, b | Solves(MergedProgram(p1, p2), l1, l2, ParamPairs(p1.infos, p2.infos), l)
                                     && Same(r, a, b) ::
                      Same(l, a, b)
  {
    hide Same, Closed, ParamPairs, MergedProgram, Joins;
    FormalsArePairs(r, p1.infos, p2.infos);
  }

  lemma FormalsArePairs(r: Labelling, infos1: map<FuncName, FunctionInfo>, infos2: map<FuncName, FunctionInfo>)
    ensures Joins(r, ParamPairs(infos1, infos2))
            <==> forall n, i | n in infos1 && n in infos2 && 0 <= i < |infos1[n].parameters|
                               && i < |infos2[n].parameters| ::
                   Same(r, infos1[n].parameters[i], infos2[n].parameters[i])
  {
    if Joins(r, ParamPairs(infos1, infos2)) {
      forall n, i | n in infos1 && n in infos2 && 0 <= i < |infos1[n].parameters| && i < |infos2[n].parameters|
        ensures Same(r, infos1[n].parameters[i], infos2[n].parameters[i])
      {
        var a, b := infos1[n].parameters[i], infos2[n].parameters[i];
        if a != b {
          assert (a, b) in ParamsOf(infos1[n].parameters, infos2[n].parameters);
          assert (a, b) in ParamPairs(infos1, infos2);
        }
      }
    }
  }

  /** The program information of both files: what the first file says of a name goes first, and
      the second file's returned objects count only if the first lists none. */
  lemma MergedValues(p1: Program, p2: Program)
    ensures var p := MergedProgram(p1, p2);
            && (forall e :: e in p.edges <==> e in p1.edges || e in p2.edges)
            && (forall f :: f in p.functions <==> f in p1.functions || f in p2.functions)
            && (forall f :: f in p.functions ==>
                  p.functions[f] == if f in p1.functions then p1.functions[f] else p2.functions[f])
            && (forall c :: c in p.calls <==> c in p1.calls || c in p2.calls)
            && (forall c :: c in p.calls ==> p.calls[c] == if c in p1.calls then p1.calls[c] else p2.calls[c])
            && (forall n :: n in p.infos <==> n in p1.infos || n in p2.infos)
            && (forall n :: n in p.infos ==>
                  p.infos[n] == if n !in p2.infos then p1.infos[n]
                                else if n !in p1.infos then p2.infos[n]
                                else if p1.infos[n].returned != [] then p1.infos[n]
                                else p1.infos[n].(returned := p2.infos[n].returned))
  {
  }

  /** Least solutions describe one partition, so the result depends neither on the order of the
      class lists nor on the order in which pairs and calls are merged. */
  lemma LeastSolutionUnique(prog: Program, l1: Labelling, l2: Labelling, params: Pairs, l: Labelling, l': Labelling)
    requires LeastSolution(prog, l1, l2, params, l) && LeastSolution(prog, l1, l2, params, l')
    ensures forall a, b :: Same(l, a, b) <==> Same(l', a, b)
  {
  }

  /** The functions and calls of both files; what the first file knows of a name is kept. */
  method MergeProgramData(file1: EquivClassContainer, file2: EquivClassContainer)
    returns (paramsToMerge: seq<(Obj, Obj)>)
    requires file1 != file2 && InfosAgree(file1.functionInfoMap, file2.functionInfoMap)
    modifies file1`functionMap, file1`functionInfoMap, file1`callInfoMap, file1`referencedInCalls,
      file1`callExprParentMap
    ensures file1.functionMap == file2.functionMap + old(file1.functionMap)
    ensures file1.functionInfoMap == MergedInfos(old(file1.functionInfoMap), file2.functionInfoMap)
    ensures file1.callInfoMap == file2.callInfoMap + old(file1.callInfoMap)
    ensures file1.callExprParentMap == file2.callExprParentMap + old(file1.callExprParentMap)
    ensures file1.CallsIndexed()
    ensures PairSet(paramsToMerge) == ParamPairs(old(file1.functionInfoMap), file2.functionInfoMap)
  {
    hide MergedInfos, ParamPairs, PairSet, InfosAgree;
    file1.functionMap := file2.functionMap + file1.functionMap;
    paramsToMerge := MergeFunctionInfos(file1, file2.functionInfoMap);
    file1.callInfoMap := file2.callInfoMap + file1.callInfoMap;
    file1.InitReferencedInCalls();
    file1.callExprParentMap := file2.callExprParentMap + file1.callExprParentMap;
  }

  /** Merges the information of the second file into the first, and adds the call edges found to
      the call graph.  `done` are all meetings of functions and calls in the merged program. */
  method MergeEquivalenceClasses(file1: EquivClassContainer, file2: EquivClassContainer, wholeCG: CallGraphJson)
    returns (ghost done: set<(Obj, CallId)>)
    requires file1 != file2 && InfosAgree(file1.functionInfoMap, file2.functionInfoMap)
    requires file1.Valid({}) && file1.ProgramKnown()
    requires file2.Valid({}) && file2.ProgramKnown()
    requires CallersListed(file1.functionInfoMap, file1.callExprParentMap, wholeCG.entries.Keys)
    requires CallersListed(file2.functionInfoMap, file2.callExprParentMap, wholeCG.entries.Keys)
    modifies file1, wholeCG
    ensures file1.Valid({}) && file1.ProgramKnown()
    ensures file1.Prog() == MergedProgram(old(file1.Prog()), file2.Prog())
    ensures file1.callExprParentMap == file2.callExprParentMap + old(file1.callExprParentMap)
    ensures CallersListed(file1.functionInfoMap, file1.callExprParentMap, wholeCG.entries.Keys)
    ensures file1.findMap.Keys == old(file1.findMap.Keys) + file2.findMap.Keys
    ensures LeastSolution(file1.Prog(), old(file1.findMap), file2.findMap,
                          ParamPairs(old(file1.functionInfoMap), file2.functionInfoMap), file1.findMap)
    ensures forall f, c :: (f, c) in done <==> HasMeeting(file1.Prog(), file1.findMap, f, c)
    ensures wholeCG.entries == AddEdges(old(wholeCG.entries),
                                        MeetingEdges(file1.Prog(), file1.callExprParentMap, done))
    ensures var p, parents, l, before, after :=
              file1.Prog(), file1.callExprParentMap, file1.findMap, old(wholeCG.entries), wholeCG.entries;
            && after.Keys == before.Keys && (forall n :: n in after ==> after[n].hasBody == before[n].hasBody)
            && (forall n, m | n in after ::
                  m in after[n].callees
                  <==> m in before[n].callees
                       || exists f, c, o ::
                          && f in p.functions && c in p.calls && o in p.calls[c].calledObjects && Same(l, f, o)
                          && p.functions[f] in p.infos && c in parents && parents[c] in p.infos
                          && n in p.infos[parents[c]].mangledNames && m in p.infos[p.functions[f]].mangledNames)
            && (forall n, m | m in after ::
                  n in after[m].callers
                  <==> n in before[m].callers
                       || exists f, c, o ::
                          && f in p.functions && c in p.calls && o in p.calls[c].calledObjects && Same(l, f, o)
                          && p.functions[f] in p.infos && c in parents && parents[c] in p.infos
                          && n in p.infos[parents[c]].mangledNames && m in p.infos[p.functions[f]].mangledNames)
  {
    hide Partition, Sound, Complete, Congruent, Coarser, Joins, Distinct, Known, PairSet, Forced, OnlyMeetings,
      Drained, Draining, HasMeeting, Resolved, Closed, Saturated, ForcedByCalls, ForcedByFiles, Solves,
      AddEdges, MeetingEdges, MergedInfos, ParamPairs, Meets, InformationKnown, InfosAgree, CallersListed,
      LeastSolution;
    ghost var prog1, prog2, l1, l2 := file1.Prog(), file2.Prog(), file1.findMap, file2.findMap;
    ghost var parents1, entries := file1.callExprParentMap, wholeCG.entries;
    ghost var params := ParamPairs(file1.functionInfoMap, file2.functionInfoMap);

    var paramsToMerge := MergeProgramData(file1, file2);
    ghost var parents := file1.callExprParentMap;

    var objectsToMerge := AbsorbAll(file1, file2);
    ghost var prog := file1.Prog();
    ghost var l3 := file1.findMap;
    MergeQueued(file1, objectsToMerge);
    ghost var l4 := file1.findMap;
    PairsKnown(prog1, prog2, parents1, file2.callExprParentMap, l1.Keys, l2.Keys, paramsToMerge);
    var functionsToMerge := MergeParams(file1, paramsToMerge);
    ghost var l5 := file1.findMap;
    MergedProgramKnown(prog1, prog2, parents1, file2.callExprParentMap, l1.Keys, l2.Keys, wholeCG.entries.Keys);
    functionsToMerge := SeedMeetings(file1, functionsToMerge);
    WorkListReady(prog, parents, l5.Keys, l5, functionsToMerge);
    NoMeetingEdges(prog, parents, entries);
    done := ResolveAll(file1, functionsToMerge, wholeCG, l5, {}, entries);
    AddEdgesKeys(entries, MeetingEdges(prog, parents, done));

    CompleteIsCongruent(file1.store, file1.findMap, file1.edges);
    AllResolved(prog, l5, file1.findMap, functionsToMerge, done);
    SolutionFound(prog, l1, l2, params, objectsToMerge, l3, l4, l5, file1.findMap);
    CallsAreEdges(prog, parents, file1.findMap, done, entries);
  }

  lemma MergedInfosKnown(infos1: map<FuncName, FunctionInfo>, infos2: map<FuncName, FunctionInfo>, o1: set<Obj>,
                         o2: set<Obj>)
    requires forall n :: n in infos1 ==> InfoKnown(infos1[n], o1)
    requires forall n :: n in infos2 ==> InfoKnown(infos2[n], o2)
    ensures forall n :: n in MergedInfos(infos1, infos2) ==> InfoKnown(MergedInfos(infos1, infos2)[n], o1 + o2)
  {
  }

  lemma MergedCallersListed(infos1: map<FuncName, FunctionInfo>, infos2: map<FuncName, FunctionInfo>,
                            parents1: map<CallId, FuncName>, parents2: map<CallId, FuncName>, names: set<string>)
    requires InfosAgree(infos1, infos2)
    requires CallersListed(infos1, parents1, names) && CallersListed(infos2, parents2, names)
    ensures CallersListed(MergedInfos(infos1, infos2), parents2 + parents1, names)
  {
  }

  lemma MergedProgramKnown(p1: Program, p2: Program, parents1: map<CallId, FuncName>,
                           parents2: map<CallId, FuncName>, o1: set<Obj>, o2: set<Obj>, names: set<string>)
    requires InformationKnown(p1.functions, p1.infos, p1.calls, parents1, o1)
    requires InformationKnown(p2.functions, p2.infos, p2.calls, parents2, o2)
    requires InfosAgree(p1.infos, p2.infos)
    requires CallersListed(p1.infos, parents1, names) && CallersListed(p2.infos, parents2, names)
    ensures var p := MergedProgram(p1, p2);
            && InformationKnown(p.functions, p.infos, p.calls, parents2 + parents1, o1 + o2)
            && CallersListed(p.infos, parents2 + parents1, names)
  {
    hide InfosAgree, CallersListed, InfoKnown;
    MergedInfosKnown(p1.infos, p2.infos, o1, o2);
    MergedCallersListed(p1.infos, p2.infos, parents1, parents2, names);
  }

  lemma PairsKnown(p1: Program, p2: Program, parents1: map<CallId, FuncName>, parents2: map<CallId, FuncName>,
                   o1: set<Obj>, o2: set<Obj>, pairs: seq<(Obj, Obj)>)
    requires InformationKnown(p1.functions, p1.infos, p1.calls, parents1, o1)
    requires InformationKnown(p2.functions, p2.infos, p2.calls, parents2, o2)
    requires PairSet(pairs) == ParamPairs(p1.infos, p2.infos)
    ensures forall p :: p in pairs ==> p.0 in o1 + o2 && p.1 in o1 + o2
  {
    var infos1, infos2 := p1.infos, p2.infos;
    forall p | p in pairs
      ensures p.0 in o1 + o2 && p.1 in o1 + o2
    {
      assert p in PairSet(pairs);
      var n :| n in infos1 && n in infos2 && p in ParamsOf(infos1[n].parameters, infos2[n].parameters);
    }
  }

  lemma WorkListReady(prog: Program, parents: map<CallId, FuncName>, objects: set<Obj>, l: Labelling, todo: Meetings)
    requires OnlyMeetings(prog.functions, prog.calls, l, todo)
    requires InformationKnown(prog.functions, prog.infos, prog.calls, parents, objects)
    ensures Draining(prog, l, l, {}, todo) && Coarser(l, l) && ForcedByCalls(prog, l, l)
  {
  }

  lemma NoMeetingEdges(prog: Program, parents: map<CallId, FuncName>, entries: map<string, CgEntry>)
    ensures entries == AddEdges(entries, MeetingEdges(prog, parents, {}))
  {
    AddNoEdges(entries);
    assert MeetingEdges(prog, parents, {}) == {};
  }

  lemma AllResolved(prog: Program, l: Labelling, l': Labelling, todo: Meetings, done: set<(Obj, CallId)>)
    requires forall f, c :: Meets(prog.functions, prog.calls, l, f, c) ==> (f, c) in todo
    requires Drained(prog, l, l', done) && Congruent(prog.edges, l') && forall m :: m in todo ==> m in done
    ensures Closed(prog, l') && forall f, c :: (f, c) in done <==> HasMeeting(prog, l', f, c)
  {
  }

  lemma SolutionFound(prog: Program, l1: Labelling, l2: Labelling, params: Pairs, queued: seq<(Obj, Obj)>,
                      l3: Labelling, l4: Labelling, l5: Labelling, l: Labelling)
    requires Coarser(l1, l3) && Coarser(l2, l3) && ForcedByFiles(prog.edges, l1, l2, l3, PairSet(queued))
    requires Coarser(l3, l4) && Forced(prog.edges, l3, PairSet(queued), l4)
    requires Coarser(l4, l5) && Joins(l5, params) && Forced(prog.edges, l4, params, l5)
    requires Coarser(l5, l) && Closed(prog, l) && ForcedByCalls(prog, l5, l)
    ensures LeastSolution(prog, l1, l2, params, l)
  {
  }
}
