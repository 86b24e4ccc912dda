/**
 The entries of the merged call graph (cgcollector/tools/CGMerge.cpp): the entries of all files
 one after the other, with the call edges found in between.
 */
module ManyEntries {
  import opened CGMerge

  /** The call graphs of all files, entry by entry. */
  function AllEntries(start: map<string, CgEntry>, parts: seq<map<string, CgEntry>>): map<string, CgEntry> {
    if parts == [] then start else MergedEntries(AllEntries(start, parts[..|parts| - 1]), parts[|parts| - 1])
  }

  /** What the entries of all files say together: all callers, and the callees of the first entry
      of a name and of all entries with a body. */
  lemma {:induction false} EntriesSay(start: map<string, CgEntry>, parts: seq<map<string, CgEntry>>,
                                      n: string, m: string)
    ensures var all := AllEntries(start, parts);
            && (n in all <==> n in start || exists i :: 0 <= i < |parts| && n in parts[i])
            && (n in all ==>
                  && (m in all[n].callees
                      <==> (n in start && m in start[n].callees)
                           || exists i ::
                              && 0 <= i < |parts| && n in parts[i] && m in parts[i][n].callees
                              && (parts[i][n].hasBody || (n !in start && forall j :: 0 <= j < i ==> n !in parts[j])))
                  && (m in all[n].callers
                      <==> (n in start && m in start[n].callers)
                           || exists i :: 0 <= i < |parts| && n in parts[i] && m in parts[i][n].callers)
                  && (all[n].hasBody
                      <==> (n in start && start[n].hasBody)
                           || exists i :: 0 <= i < |parts| && n in parts[i] && parts[i][n].hasBody))
  {
    hide MergedEntries;
    if parts != [] {
      var last := |parts| - 1;
      var init := parts[..last];
      EntriesSay(start, init, n, m);
      MergedEntrySays(AllEntries(start, init), parts[last], n, m);
      assert forall i :: 0 <= i < last ==> init[i] == parts[i];
    }
  }

  lemma {:induction false} EntriesOfMore(start: map<string, CgEntry>, parts: seq<map<string, CgEntry>>,
                                         more: seq<map<string, CgEntry>>)
    ensures AllEntries(start, parts + more) == AllEntries(AllEntries(start, parts), more)
  {
    if more == [] {
      assert parts + more == parts;
    } else {
      var last := |more| - 1;
      assert (parts + more)[..|parts + more| - 1] == parts + more[..last];
      EntriesOfMore(start, parts, more[..last]);
    }
  }

  lemma {:induction false} KeysOfEntries(start: map<string, CgEntry>, start': map<string, CgEntry>,
                                         parts: seq<map<string, CgEntry>>)
    requires start.Keys == start'.Keys
    ensures AllEntries(start, parts).Keys == AllEntries(start', parts).Keys
  {
    if parts != [] {
      KeysOfEntries(start, start', parts[..|parts| - 1]);
    }
  }

  /** Edges added before the entries of further files may as well be added behind, if they are
      found again then. */
  lemma {:induction false} EdgesBehindAll(entries: map<string, CgEntry>, late: seq<map<string, CgEntry>>,
                                          added: CallEdges, more: CallEdges)
    requires added <= more
    ensures AddEdges(AllEntries(AddEdges(entries, added), late), more) == AddEdges(AllEntries(entries, late), more)
  {
    hide AddEdges, MergedEntries;
    if late == [] {
      EdgesBehindEntries(entries, map[], added, more);
      NoEntryMerged(entries);
      NoEntryMerged(AddEdges(entries, added));
    } else {
      var init, part := late[..|late| - 1], late[|late| - 1];
      EdgesBehindAll(entries, init, added, more);
      EdgesBehindEntries(AllEntries(AddEdges(entries, added), init), part, more, more);
      EdgesBehindEntries(AllEntries(entries, init), part, more, more);
    }
  }

  /** Found edges reach the entries that are there when they are found, and no others. */
  lemma {:induction false} LateEntries(entries: map<string, CgEntry>, late: seq<map<string, CgEntry>>,
                                       added: CallEdges, n: string)
    requires n in AllEntries(entries, late)
    ensures n in AllEntries(AddEdges(entries, added), late)
    ensures AllEntries(AddEdges(entries, added), late)[n]
         == if n in entries then WithEdges(AllEntries(entries, late)[n], added, n) else AllEntries(entries, late)[n]
  {
    hide TargetsOf, SourcesOf;
    if late != [] {
      var init := late[..|late| - 1];
      KeysOfEntries(AddEdges(entries, added), entries, init);
      if n in AllEntries(entries, init) {
        LateEntries(entries, init, added, n);
      } else {
        StartIsKept(entries, init);
      }
    }
  }

  /** The same, name by name. */
  lemma LateEntrySays(start: map<string, CgEntry>, parts: seq<map<string, CgEntry>>, u: nat, added: CallEdges,
                      n: string, m: string)
    requires u <= |parts|
    ensures var early, all := AllEntries(start, parts[..u]), AllEntries(start, parts);
            var after := AllEntries(AddEdges(early, added), parts[u..]);
            && after.Keys == all.Keys
            && (n in after ==>
                  && (m in after[n].callees <==> m in all[n].callees || (n in early && (n, m) in added))
                  && (m in after[n].callers <==> m in all[n].callers || (n in early && (m, n) in added)))
  {
    hide AllEntries, AddEdges, TargetsOf, SourcesOf;
    var early, all := AllEntries(start, parts[..u]), AllEntries(start, parts);
    assert parts == parts[..u] + parts[u..];
    EntriesOfMore(start, parts[..u], parts[u..]);
    AddEdgesKeys(early, added);
    KeysOfEntries(AddEdges(early, added), early, parts[u..]);
    if n in all {
      LateEntries(early, parts[u..], added, n);
      AddedTo(all, added);
      EntrySays(all, added, n, m);
    }
  }

  lemma {:induction false} StartIsKept(entries: map<string, CgEntry>, parts: seq<map<string, CgEntry>>)
    ensures entries.Keys <= AllEntries(entries, parts).Keys
  {
    if parts != [] {
      StartIsKept(entries, parts[..|parts| - 1]);
    }
  }

  /** All found edges are in the call graph if and only if each function whose first entry comes
      behind the last alias data lists its own already. */
  lemma EdgesComplete(entries: map<string, CgEntry>, late: seq<map<string, CgEntry>>, added: CallEdges)
    ensures var all := AllEntries(entries, late);
            AllEntries(AddEdges(entries, added), late) == AddEdges(all, added)
            <==> forall n | n in all && n !in entries ::
                   TargetsOf(added, n) <= all[n].callees && SourcesOf(added, n) <= all[n].callers
  {
    hide AllEntries, TargetsOf, SourcesOf;
    var all, result := AllEntries(entries, late), AllEntries(AddEdges(entries, added), late);
    KeysOfEntries(AddEdges(entries, added), entries, late);
    AddedTo(all, added);
    forall n | n in all
      ensures result[n] == if n in entries then WithEdges(all[n], added, n) else all[n]
      ensures result[n] == AddEdges(all, added)[n]
         <==> n in entries || (TargetsOf(added, n) <= all[n].callees && SourcesOf(added, n) <= all[n].callers)
    {
      LateEntries(entries, late, added, n);
      EdgesThere(all[n], added, n);
    }
    hide AddEdges;
    if result == AddEdges(all, added) {
      assert forall n | n in all :: result[n] == AddEdges(all, added)[n];
    }
  }

  lemma EdgesThere(e: CgEntry, added: CallEdges, n: string)
    ensures WithEdges(e, added, n) == e <==> TargetsOf(added, n) <= e.callees && SourcesOf(added, n) <= e.callers
  {
    hide TargetsOf, SourcesOf;
    var w := WithEdges(e, added, n);
    assert w == e <==> w.callees == e.callees && w.callers == e.callers;
    assert e.callees + TargetsOf(added, n) == e.callees <==> TargetsOf(added, n) <= e.callees;
    assert e.callers + SourcesOf(added, n) == e.callers <==> SourcesOf(added, n) <= e.callers;
  }

  lemma MergedEntriesKeys(entries: map<string, CgEntry>, current: map<string, CgEntry>)
    ensures MergedEntries(entries, current).Keys == entries.Keys + current.Keys
  {
  }

  /** The entries of the first `i` files, with all edges found when the first `u` were merged. */
  ghost predicate WrittenSoFar(start: map<string, CgEntry>, parts: seq<map<string, CgEntry>>, u: nat, i: nat,
                               written: map<string, CgEntry>, found: CallEdges)
    requires u <= i <= |parts|
  {
    && written == AllEntries(AddEdges(AllEntries(start, parts[..u]), found), parts[u..i])
    && written.Keys == AllEntries(start, parts[..i]).Keys
  }

  lemma AllWritten(start: map<string, CgEntry>, parts: seq<map<string, CgEntry>>, u: nat,
                   written: map<string, CgEntry>, found: CallEdges)
    requires u <= |parts| && WrittenSoFar(start, parts, u, |parts|, written, found)
    ensures written == AllEntries(AddEdges(AllEntries(start, parts[..u]), found), parts[u..])
  {
    assert parts[u..|parts|] == parts[u..];
  }

  lemma OnePartMore(start: map<string, CgEntry>, parts: seq<map<string, CgEntry>>, u: nat, i: nat,
                    written: map<string, CgEntry>, found: CallEdges)
    requires u <= i < |parts| && WrittenSoFar(start, parts, u, i, written, found)
    ensures WrittenSoFar(start, parts, u, i + 1, MergedEntries(written, parts[i]), found)
    ensures MergedEntries(written, parts[i]).Keys == written.Keys + parts[i].Keys
    ensures MergedEntries(written, parts[i]).Keys == AllEntries(start, parts[..i + 1]).Keys
  {
    hide MergedEntries, AllEntries, AddEdges;
    assert parts[..i + 1] == parts[..i] + [parts[i]];
    assert parts[u..i + 1] == parts[u..i] + [parts[i]];
    EntriesOfOneMore(start, parts[..i], parts[i]);
    EntriesOfOneMore(AddEdges(AllEntries(start, parts[..u]), found), parts[u..i], parts[i]);
    MergedEntriesKeys(AllEntries(start, parts[..i]), parts[i]);
    MergedEntriesKeys(written, parts[i]);
  }

  lemma EntriesOfOneMore(start: map<string, CgEntry>, parts: seq<map<string, CgEntry>>, part: map<string, CgEntry>)
    ensures AllEntries(start, parts + [part]) == MergedEntries(AllEntries(start, parts), part)
  {
  }

  /** Edges found again take the place of those found before. */
  lemma WrittenAgain(start: map<string, CgEntry>, parts: seq<map<string, CgEntry>>, u: nat, i: nat,
                     written: map<string, CgEntry>, found: CallEdges, more: CallEdges)
    requires u <= i <= |parts| && WrittenSoFar(start, parts, u, i, written, found) && found <= more
    ensures WrittenSoFar(start, parts, i, i, AddEdges(written, more), more)
  {
    hide AddEdges, AllEntries;
    EdgesBehindAll(AllEntries(start, parts[..u]), parts[u..i], found, more);
    NoneLate(AddEdges(AllEntries(start, parts[..i]), more), start, parts, u, i);
    AddEdgesKeys(written, more);
  }

  lemma NoneLate(written: map<string, CgEntry>, start: map<string, CgEntry>, parts: seq<map<string, CgEntry>>,
                 u: nat, i: nat)
    requires u <= i <= |parts|
    ensures AllEntries(written, parts[i..i]) == written
    ensures AllEntries(AllEntries(start, parts[..u]), parts[u..i]) == AllEntries(start, parts[..i])
  {
    EntriesOfMore(start, parts[..u], parts[u..i]);
    assert parts[..u] + parts[u..i] == parts[..i];
  }
}
