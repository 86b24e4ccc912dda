/**
 Every list of files has a least solution, whatever the files say: the intersection of all
 solutions is one, and it needs finitely many labels only.
 */
module LeastExists {
  import opened Labellings
  import opened AliasAnalysis
  import opened ManyFiles

  /** Equivalent in every solution. */
  ghost predicate Forces(inputs: seq<Input>, a: Obj, b: Obj) {
    forall r :: SolvesAll(inputs, r) ==> Same(r, a, b)
  }

  // ---------------------------------------------------------------- a largest solution

  function ObjectsOfInfo(info: FunctionInfo): set<Obj> {
    (set o | o in info.parameters) + (set o | o in info.returned)
  }

  function ObjectsOfCall(call: CallInfo): set<Obj> {
    set i, o | 0 <= i < |call.arguments| && o in call.arguments[i] :: o
  }

  /** All objects that a solution may have to join with others. */
  function Objects(inputs: seq<Input>): set<Obj> {
    var s := FoldedProgram(inputs);
    (set e | e in s.edges :: e.target)
    + (set n, o | n in s.infos && o in ObjectsOfInfo(s.infos[n]) :: o)
    + s.calls.Keys + (set c, o | c in s.calls && o in ObjectsOfCall(s.calls[c]) :: o)
    + (set p, o | p in inputs && o in p.partition :: o)
    + (set q | q in FoldedParams(inputs) :: q.0) + (set q | q in FoldedParams(inputs) :: q.1)
  }

  function OneClass(objects: set<Obj>): Labelling {
    map o | o in objects :: 0
  }

  lemma OneClassJoins(objects: set<Obj>, pairs: Pairs)
    requires forall a, b :: (a, b) in pairs ==> a in objects && b in objects
    ensures Joins(OneClass(objects), pairs)
  {
  }

  lemma PairsWithin(s: Program, objects: set<Obj>, n: FuncName, c: CallId)
    requires n in s.infos && c in s.calls && c in objects
    requires ObjectsOfInfo(s.infos[n]) <= objects && ObjectsOfCall(s.calls[c]) <= objects
    ensures Joins(OneClass(objects), CallPairs(s.infos[n], s.calls[c], c))
  {
    forall a, b | (a, b) in CallPairs(s.infos[n], s.calls[c], c)
      ensures a in objects && b in objects
    {
    }
    OneClassJoins(objects, CallPairs(s.infos[n], s.calls[c], c));
  }

  /** Joining everything solves everything. */
  lemma OneClassSolves(inputs: seq<Input>)
    ensures SolvesAll(inputs, OneClass(Objects(inputs)))
  {
    var s, objects, r := FoldedProgram(inputs), Objects(inputs), OneClass(Objects(inputs));
    forall f, c | HasMeeting(s, r, f, c)
      ensures Resolved(s, r, f, c)
    {
      PairsWithin(s, objects, s.functions[f], c);
    }
    forall q | q in FoldedParams(inputs)
      ensures q.0 in objects && q.1 in objects
    {
    }
    OneClassJoins(objects, FoldedParams(inputs));
    hide FoldedProgram, FoldedParams;
    forall p | p in inputs
      ensures Coarser(p.partition, r)
    {
      assert p.partition.Keys <= objects;
    }
  }

  // ---------------------------------------------------------------- the intersection

  ghost function Listed(s: set<Obj>): (r: seq<Obj>)
    ensures forall o :: o in r <==> o in s
  {
    if s == {} then [] else
      var o :| o in s;
      Listed(s - {o}) + [o]
  }

  /** The label of a known equivalent object, or a new one. */
  ghost function Labelled(inputs: seq<Input>, l: Labelling, o: Obj, unused: ClassId): Labelling {
    if a :| a in l && Forces(inputs, a, o) then l[o := l[a]] else l[o := unused]
  }

  /** The listed objects, with one label for all that are equivalent in every solution. */
  ghost function Intersection(inputs: seq<Input>, objects: seq<Obj>): Labelling {
    if objects == [] then map[]
    else Labelled(inputs, Intersection(inputs, objects[..|objects| - 1]), objects[|objects| - 1], |objects|)
  }

  ghost predicate LabelsForced(inputs: seq<Input>, l: Labelling) {
    forall a, b :: a in l && b in l ==> (l[a] == l[b] <==> Forces(inputs, a, b))
  }

  lemma LabelledForced(inputs: seq<Input>, l: Labelling, o: Obj, unused: ClassId)
    requires LabelsForced(inputs, l) && forall a :: a in l ==> l[a] < unused
    ensures LabelsForced(inputs, Labelled(inputs, l, o, unused))
  {
    hide Forces;
    var l' := Labelled(inputs, l, o, unused);
    forall a, b | a in l' && b in l'
      ensures l'[a] == l'[b] <==> Forces(inputs, a, b)
    {
      ForcesIsEquivalence(inputs, a, b, o);
      ForcesIsEquivalence(inputs, b, a, o);
      ForcesIsEquivalence(inputs, a, o, b);
      if c :| c in l && Forces(inputs, c, o) {
        LabelledLike(inputs, l, o, unused, c);
        ForcesIsEquivalence(inputs, a, o, c);
        ForcesIsEquivalence(inputs, b, o, c);
        ForcesIsEquivalence(inputs, a, c, o);
        ForcesIsEquivalence(inputs, b, c, o);
        ForcesIsEquivalence(inputs, c, o, a);
      }
    }
  }

  lemma LabelledLike(inputs: seq<Input>, l: Labelling, o: Obj, unused: ClassId, c: Obj)
    requires LabelsForced(inputs, l) && c in l && Forces(inputs, c, o)
    ensures Labelled(inputs, l, o, unused) == l[o := l[c]]
  {
    hide Forces;
    var a :| a in l && Forces(inputs, a, o) && Labelled(inputs, l, o, unused) == l[o := l[a]];
    ForcesIsEquivalence(inputs, c, o, a);
    ForcesIsEquivalence(inputs, a, o, c);
  }

  lemma {:induction false} IntersectionLabels(inputs: seq<Input>, objects: seq<Obj>)
    ensures var l := Intersection(inputs, objects);
            && LabelsForced(inputs, l) && (forall o :: o in l <==> o in objects)
            && forall o :: o in l ==> l[o] <= |objects|
  {
    hide LabelsForced, Forces;
    if objects != [] {
      var init, o := objects[..|objects| - 1], objects[|objects| - 1];
      IntersectionLabels(inputs, init);
      assert objects == init + [o];
      LabelledForced(inputs, Intersection(inputs, init), o, |objects|);
    } else {
      NothingLabelled(inputs);
    }
  }

  lemma NothingLabelled(inputs: seq<Input>)
    ensures LabelsForced(inputs, map[])
  {
  }

  lemma ForcesIsEquivalence(inputs: seq<Input>, a: Obj, b: Obj, c: Obj)
    ensures Forces(inputs, a, a) && (Forces(inputs, a, b) ==> Forces(inputs, b, a))
    ensures Forces(inputs, a, b) && Forces(inputs, b, c) ==> Forces(inputs, a, c)
  {
    hide SolvesAll;
  }

  lemma IntersectionIsForced(inputs: seq<Input>, a: Obj, b: Obj)
    ensures Same(Intersection(inputs, Listed(Objects(inputs))), a, b) <==> Forces(inputs, a, b)
  {
    hide Objects, SolvesAll;
    OneClassSolves(inputs);
    IntersectionLabels(inputs, Listed(Objects(inputs)));
    ForcesIsEquivalence(inputs, a, a, a);
    if Forces(inputs, a, b) {
      assert Same(OneClass(Objects(inputs)), a, b);
    }
  }

  /** What is equivalent in every solution is itself a solution. */
  lemma ForcedSolves(inputs: seq<Input>, l: Labelling)
    requires forall a, b :: Same(l, a, b) <==> Forces(inputs, a, b)
    ensures LeastOver(inputs, l)
  {
    hide Same;
    var s := FoldedProgram(inputs);
    forall r | SolvesAll(inputs, r)
      ensures Coarser(l, r)
    {
    }
    hide FoldedProgram;
    forall e, f | e in s.edges && f in s.edges && e.mem == f.mem && Same(l, e.source, f.source)
      ensures Forces(inputs, e.target, f.target)
    {
    }
    forall f, c | HasMeeting(s, l, f, c)
      ensures Resolved(s, l, f, c)
    {
      forall a, b | (a, b) in CallPairs(s.infos[s.functions[f]], s.calls[c], c)
        ensures Forces(inputs, a, b)
      {
        PairForced(inputs, s, l, f, c, a, b);
      }
    }
  }

  lemma PairForced(inputs: seq<Input>, s: Program, l: Labelling, f: Obj, c: CallId, a: Obj, b: Obj)
    requires s == FoldedProgram(inputs) && HasMeeting(s, l, f, c)
    requires forall r | SolvesAll(inputs, r) :: Coarser(l, r)
    requires (a, b) in CallPairs(s.infos[s.functions[f]], s.calls[c], c)
    ensures Forces(inputs, a, b)
  {
    hide CallPairs, FoldedProgram, Same;
    forall r | SolvesAll(inputs, r)
      ensures Same(r, a, b)
    {
      MeetingStays(s, l, r, f, c);
      assert Resolved(s, r, f, c);
    }
  }

  lemma SolutionExists(inputs: seq<Input>) returns (l: Labelling)
    ensures LeastOver(inputs, l)
  {
    l := Intersection(inputs, Listed(Objects(inputs)));
    forall a, b
      ensures Same(l, a, b) <==> Forces(inputs, a, b)
    {
      IntersectionIsForced(inputs, a, b);
    }
    ForcedSolves(inputs, l);
  }
}
