/**
 A run in which an entry comes too late: one file with alias data calls a function through a
 pointer, and the only entry of that function is in a file behind it, without alias data.
 */
module LateEntry {
  import opened Labellings
  import opened AliasAnalysis
  import opened CGMerge
  import opened FileOrder
  import opened ManyFiles
  import opened ManyEntries

  const CALLING := [Input(DECLARES, DECLARED, CALLER_OF)]

  const MAIN_ONLY: map<string, CgEntry> := map["main" := CgEntry({}, {}, true)]

  const F_ONLY: map<string, CgEntry> := map["f" := CgEntry({}, {}, true)]

  lemma OneFile()
    ensures FoldedProgram(CALLING) == DECLARES && FoldedParams(CALLING) == {} && FoldedParents(CALLING) == CALLER_OF
  {
    Folded([], CALLING[0]);
    assert [] + CALLING == CALLING;
    assert MergedInfos(map[], DECLARES.infos) == DECLARES.infos;
  }

  lemma CallingMeetsOnlyF(f: Obj, c: CallId)
    ensures HasMeeting(DECLARES, DECLARED, f, c) <==> f == "f" && c == "call"
  {
    if HasMeeting(DECLARES, DECLARED, f, c) {
      var o :| Calls(DECLARES.calls, c, o) && Same(DECLARED, f, o);
      assert o == "f" && c == "call";
    }
    assert "f" in ["f"];
    assert Calls(DECLARES.calls, "call", "f") && Same(DECLARED, "f", "f");
  }

  lemma CallingSolved()
    ensures LeastOver(CALLING, DECLARED)
  {
    OneFile();
    hide FoldedProgram, FoldedParams, HasMeeting;
    forall f, c | HasMeeting(DECLARES, DECLARED, f, c)
      ensures f == "f" && c == "call"
    {
      CallingMeetsOnlyF(f, c);
    }
    assert Joins(DECLARED, CallPairs(DECLARES.infos["f"], DECLARES.calls["call"], "call"));
    assert CALLING[0] in CALLING;
  }

  lemma CallingEdges()
    ensures MeetingEdges(DECLARES, CALLER_OF, {("f", "call")}) == {("main", "f")}
  {
    assert EdgesOfCall(DECLARES, CALLER_OF, ("f", "call")) == NamePairs(["main"], ["f"]) == {("main", "f")};
  }

  lemma LateWritten()
    ensures AllEntries(AddEdges(AllEntries(map[], [MAIN_ONLY]), {("main", "f")}), [F_ONLY])
         == map["main" := CgEntry({"f"}, {}, true), "f" := CgEntry({}, {}, true)]
  {
    EntriesOfOneMore(map[], [], MAIN_ONLY);
    assert MergedEntries(map[], MAIN_ONLY) == MAIN_ONLY;
    var found := {("main", "f")};
    var early: map<string, CgEntry> := map["main" := CgEntry({"f"}, {}, true)];
    assert TargetsOf(found, "main") == {"f"} && SourcesOf(found, "main") == {} by {
      assert ("main", "f") in found;
    }
    var main_: CgEntry := CgEntry({}, {}, true);
    assert WithEdges(main_, found, "main") == CgEntry({"f"}, {}, true);
    AddedTo(MAIN_ONLY, found);
    assert AddEdges(MAIN_ONLY, found) == early;
    hide AddEdges;
    EntriesOfOneMore(early, [], F_ONLY);
    assert MergedEntries(early, F_ONLY) == map["main" := CgEntry({"f"}, {}, true), "f" := CgEntry({}, {}, true)];
    assert [] + [MAIN_ONLY] == [MAIN_ONLY] && [] + [F_ONLY] == [F_ONLY];
  }

  /** The call is found, main lists the callee, and the callee does not list main. */
  lemma CallerIsMissing()
    ensures LeastOver(CALLING, DECLARED) && CallersListed(DECLARES.infos, CALLER_OF, MAIN_ONLY.Keys)
    ensures forall f, c :: (f, c) in {("f", "call")} <==> HasMeeting(FoldedProgram(CALLING), DECLARED, f, c)
    ensures MeetingEdges(FoldedProgram(CALLING), FoldedParents(CALLING), {("f", "call")}) == {("main", "f")}
    ensures AllEntries(AddEdges(AllEntries(map[], [MAIN_ONLY]), {("main", "f")}), [F_ONLY])
         == map["main" := CgEntry({"f"}, {}, true), "f" := CgEntry({}, {}, true)]
  {
    hide LeastOver, HasMeeting, MeetingEdges, AllEntries, AddEdges, FoldedProgram, FoldedParents;
    OneFile();
    CallingSolved();
    CallingEdges();
    LateWritten();
    forall f, c
      ensures (f, c) in {("f", "call")} <==> HasMeeting(DECLARES, DECLARED, f, c)
    {
      CallingMeetsOnlyF(f, c);
    }
  }
}
