/**
 What merging many files computes from their alias data (cgcollector/tools/CGMerge.cpp): the
 program information of all files, and the least equivalence that respects all of it.
 */
module ManyFiles {
  import opened Labellings
  import opened AliasAnalysis
  import opened Absorb
  import opened CGMerge

  const NOTHING := Program({}, map[], map[], map[])

  /** The alias data of one file: its program information, its partition, and the function each
      call is in. */
  datatype Input = Input(prog: Program, partition: Labelling, parents: map<CallId, FuncName>)

  /** The program information of all files, earlier files taking precedence. */
  function FoldedProgram(inputs: seq<Input>): Program {
    if inputs == [] then NOTHING
    else MergedProgram(FoldedProgram(inputs[..|inputs| - 1]), inputs[|inputs| - 1].prog)
  }

  /** All formals that some file names differently from the files before it. */
  function FoldedParams(inputs: seq<Input>): Pairs {
    if inputs == [] then {}
    else
      var init, last := inputs[..|inputs| - 1], inputs[|inputs| - 1];
      FoldedParams(init) + ParamPairs(FoldedProgram(init).infos, last.prog.infos)
  }

  /** The parents of the calls of all files, earlier files taking precedence. */
  function FoldedParents(inputs: seq<Input>): map<CallId, FuncName> {
    if inputs == [] then map[] else inputs[|inputs| - 1].parents + FoldedParents(inputs[..|inputs| - 1])
  }

  ghost predicate SolvesAll(inputs: seq<Input>, l: Labelling) {
    && Closed(FoldedProgram(inputs), l) && Joins(l, FoldedParams(inputs))
    && forall p :: p in inputs ==> Coarser(p.partition, l)
  }

  /** `l` is the least equivalence that contains every file's partition, joins the formals of
      shared functions and is closed under all prefixes and all calls of the whole program. */
  ghost predicate LeastOver(inputs: seq<Input>, l: Labelling) {
    SolvesAll(inputs, l) && forall r :: SolvesAll(inputs, r) ==> Coarser(l, r)
  }

  // ---------------------------------------------------------------- adding a file only adds

  /** What is closed for the merged program is closed for the first part of it. */
  lemma ClosedForPart(p1: Program, p2: Program, r: Labelling)
    requires Closed(MergedProgram(p1, p2), r)
    ensures Closed(p1, r)
  {
    var p := MergedProgram(p1, p2);
    FewerEdges(p1.edges, p.edges, r);
    forall f, c | HasMeeting(p1, r, f, c)
      ensures Resolved(p1, r, f, c)
    {
      MeetingInMerged(p1, p2, r, f, c);
      assert Resolved(p, r, f, c);
      PairsGrow(p1, p2, f, c);
    }
  }

  lemma MeetingInMerged(p1: Program, p2: Program, l: Labelling, f: Obj, c: CallId)
    requires HasMeeting(p1, l, f, c)
    ensures HasMeeting(MergedProgram(p1, p2), l, f, c)
  {
  }

  lemma PairsGrow(p1: Program, p2: Program, f: Obj, c: CallId)
    requires f in p1.functions && p1.functions[f] in p1.infos && c in p1.calls
    ensures var p := MergedProgram(p1, p2);
            CallPairs(p1.infos[p1.functions[f]], p1.calls[c], c)
            <= CallPairs(p.infos[p.functions[f]], p.calls[c], c)
  {
  }

  lemma NothingSolved()
    ensures LeastOver([], map[])
  {
  }

  lemma Folded(inputs: seq<Input>, last: Input)
    ensures var more := inputs + [last];
            && FoldedProgram(more) == MergedProgram(FoldedProgram(inputs), last.prog)
            && FoldedParams(more) == FoldedParams(inputs) + ParamPairs(FoldedProgram(inputs).infos, last.prog.infos)
            && FoldedParents(more) == last.parents + FoldedParents(inputs)
  {
    assert (inputs + [last])[..|inputs|] == inputs;
  }

  /** The least solution for the files so far, merged with one more file. */
  lemma NextFile(inputs: seq<Input>, last: Input, l1: Labelling, l: Labelling)
    requires LeastOver(inputs, l1)
    requires var p1 := FoldedProgram(inputs);
             LeastSolution(MergedProgram(p1, last.prog), l1, last.partition, ParamPairs(p1.infos, last.prog.infos), l)
    ensures LeastOver(inputs + [last], l)
  {
    hide Closed, FoldedProgram, FoldedParams, MergedProgram, ParamPairs;
    var p1, more := FoldedProgram(inputs), inputs + [last];
    Folded(inputs, last);
    JoinMore(l1, l, FoldedParams(inputs), ParamPairs(p1.infos, last.prog.infos));
    forall r | SolvesAll(more, r)
      ensures Coarser(l, r)
    {
      ClosedForPart(p1, last.prog, r);
      FewerJoined(r, FoldedParams(inputs), ParamPairs(p1.infos, last.prog.infos));
      assert last in more && forall p :: p in inputs ==> p in more;
      hide Coarser, Joins;
      assert SolvesAll(inputs, r);
    }
  }

  lemma FewerJoined(r: Labelling, pairs: Pairs, more: Pairs)
    requires Joins(r, pairs + more)
    ensures Joins(r, pairs) && Joins(r, more)
  {
  }

  // ---------------------------------------------------------------- what the files agree on

  ghost predicate AllAgree(inputs: seq<Input>) {
    forall p, q :: p in inputs && q in inputs ==> InfosAgree(p.prog.infos, q.prog.infos)
  }

  lemma {:induction false} FoldedAgrees(inputs: seq<Input>, q: Input)
    requires forall p :: p in inputs ==> InfosAgree(p.prog.infos, q.prog.infos)
    ensures InfosAgree(FoldedProgram(inputs).infos, q.prog.infos)
  {
    if inputs != [] {
      FoldedAgrees(inputs[..|inputs| - 1], q);
      assert InfosAgree(inputs[|inputs| - 1].prog.infos, q.prog.infos);
    }
  }
}
