/**
 The work list of the single-file analysis (ASTInformationExtractor in
 cgcollector/lib/src/AliasAnalysis.cpp).

 Every merge of two classes may let calls meet new functions; each such meeting is resolved,
 which merges more classes.  A cache skips pairs that were handled before, including pairs
 whose handling is still in progress further up the call stack.
 */
module Extractor {
  import opened Labellings
  import opened Lists
  import opened AliasAnalysis

  /** The call edges that resolving the given meetings adds: caller and callee by name. */
  function CallNames(done: set<(Obj, CallId)>, functions: map<Obj, FuncName>, parents: map<CallId, FuncName>)
    : set<(FuncName, FuncName)>
  {
    set p | p in done && p.0 in functions && p.1 in parents :: (parents[p.1], functions[p.0])
  }

  /** Exactly the pairs of the function with the call and the function that it meets. */
  lemma CallNameMeans(done: set<(Obj, CallId)>, functions: map<Obj, FuncName>, parents: map<CallId, FuncName>,
                      caller: FuncName, callee: FuncName)
    ensures (caller, callee) in CallNames(done, functions, parents)
            <==> exists f, c :: (f, c) in done && f in functions && c in parents
                                && caller == parents[c] && callee == functions[f]
  {
    if (caller, callee) in CallNames(done, functions, parents) {
      var p :| p in done && p.0 in functions && p.1 in parents && (caller, callee) == (parents[p.1], functions[p.0]);
      assert (p.0, p.1) in done;
    }
    if f, c :| (f, c) in done && f in functions && c in parents && caller == parents[c] && callee == functions[f] {
      assert (f, c).0 == f && (f, c).1 == c;
    }
  }

  /** Pairs resolved earlier stay so while one more call is merged. */
  lemma CacheGrows(prog: Program, l0: Labelling, l1: Labelling, cache: set<(Obj, CallId)>,
                   f: Obj, c: CallId, found: Meetings)
    requires Drained(prog, l0, l0, cache) && Coarser(l0, l1)
    requires Draining(prog, l0, l1, {(f, c)}, found)
    ensures Draining(prog, l0, l1, cache + {(f, c)}, found)
  {
  }

  lemma CacheStart(prog: Program, l0: Labelling, l1: Labelling, cache: set<(Obj, CallId)>, found: Meetings)
    requires Drained(prog, l0, l0, cache) && Coarser(l0, l1)
    requires OnlyMeetings(prog.functions, prog.calls, l1, found)
    requires AllNewMeetings(prog.functions, prog.calls, l0, l1, found)
    requires forall g :: g in prog.functions ==> prog.functions[g] in prog.infos
    ensures Draining(prog, l0, l1, cache, found)
  {
  }

  lemma DrainedRefl(prog: Program, l0: Labelling, l1: Labelling, cache: set<(Obj, CallId)>, found: Meetings)
    requires Draining(prog, l0, l1, cache, found)
    ensures Drained(prog, l1, l1, cache) && Coarser(l1, l1) && ForcedByCalls(prog, l1, l1)
  {
  }

  lemma MergeForced(prog: Program, l0: Labelling, pairs: Pairs, l1: Labelling, l2: Labelling)
    requires Forced(prog.edges, l0, pairs, l1) && ForcedByCalls(prog, l1, l2)
    ensures ForcedJoining(prog, l0, pairs, l2)
  {
  }

  lemma JoiningChain(prog: Program, l0: Labelling, pairs: Pairs, l1: Labelling, more: Pairs, l2: Labelling)
    requires ForcedJoining(prog, l0, pairs, l1) && ForcedJoining(prog, l1, more, l2)
    ensures ForcedJoining(prog, l0, pairs + more, l2)
  {
  }

  lemma Unchanged(prog: Program, l: Labelling, cache: set<(Obj, CallId)>, parents: map<CallId, FuncName>,
                  edges: set<(FuncName, FuncName)>)
    requires Drained(prog, l, l, cache) && CallNames(cache, prog.functions, parents) <= edges
    ensures edges == edges + CallNames(cache, prog.functions, parents)
    ensures Coarser(l, l) && ForcedByCalls(prog, l, l)
  {
  }

  lemma NewName(cache: set<(Obj, CallId)>, f: Obj, c: CallId, functions: map<Obj, FuncName>,
                parents: map<CallId, FuncName>, edges: set<(FuncName, FuncName)>)
    requires f in functions && c in parents
    requires CallNames(cache, functions, parents) + {(parents[c], functions[f])} <= edges
    ensures CallNames(cache + {(f, c)}, functions, parents) <= edges
    ensures forall wider :: (f, c) in wider ==> (parents[c], functions[f]) in CallNames(wider, functions, parents)
  {
  }

  lemma NamesGrow(cache: set<(Obj, CallId)>, cache': set<(Obj, CallId)>, functions: map<Obj, FuncName>,
                  parents: map<CallId, FuncName>)
    requires cache <= cache'
    ensures CallNames(cache, functions, parents) <= CallNames(cache', functions, parents)
  {
  }

  lemma CoarserChain(l0: Labelling, l1: Labelling, l2: Labelling)
    requires Coarser(l0, l1) && Coarser(l1, l2)
    ensures Coarser(l0, l2)
  {
  }

  lemma RestartDrain(prog: Program, l0: Labelling, l1: Labelling, cache: set<(Obj, CallId)>, found: Meetings)
    requires Draining(prog, l0, l1, cache, found)
    ensures Draining(prog, l1, l1, cache, found) && Coarser(l1, l1) && ForcedByCalls(prog, l1, l1)
  {
  }

  /** What arose in the merge was listed, and what arose in draining the list is drained. */
  lemma DrainBoth(prog: Program, l0: Labelling, l1: Labelling, l2: Labelling, found: Meetings,
                  cache: set<(Obj, CallId)>)
    requires AllNewMeetings(prog.functions, prog.calls, l0, l1, found)
    requires Drained(prog, l1, l2, cache) && forall m :: m in found ==> m in cache
    ensures Drained(prog, l0, l2, cache)
  {
  }

  lemma JoinKept(l: Labelling, l': Labelling, a: Obj, b: Obj)
    requires Same(l, a, b) && Coarser(l, l')
    ensures Joins(l', {(a, b)})
  {
  }

  lemma StartJoining(prog: Program, l: Labelling)
    ensures Coarser(l, l) && ForcedJoining(prog, l, PairSet([]), l) && Joins(l, PairSet([]))
  {
  }

  lemma JoiningMeans(prog: Program, before: Labelling, pairs: seq<(Obj, Obj)>, after: Labelling)
    requires ForcedJoining(prog, before, PairSet(pairs), after) && Joins(after, PairSet(pairs))
    ensures forall p | p in pairs :: Same(after, p.0, p.1)
    ensures forall l | Closed(prog, l) && Coarser(before, l) && (forall p | p in pairs :: Same(l, p.0, p.1)) ::
              Coarser(after, l)
  {
    hide Closed, Coarser, Same;
    forall p | p in pairs
      ensures Same(after, p.0, p.1)
    {
      assert (p.0, p.1) in PairSet(pairs);
    }
  }

  lemma AlreadyJoined(prog: Program, l: Labelling, a: Obj, b: Obj)
    requires Same(l, a, b)
    ensures Coarser(l, l) && Joins(l, {(a, b)}) && ForcedJoining(prog, l, {(a, b)}, l)
  {
  }

  class ASTInformationExtractor {
    const data: EquivClassContainer
    var cache: set<(Obj, CallId)>
    var callEdges: set<(FuncName, FuncName)>

    constructor (data: EquivClassContainer)
      ensures this.data == data && cache == {} && callEdges == {}
    {
      this.data := data;
      cache, callEdges := {}, {};
    }

    /** All cached pairs are resolved, and their call edges are in the graph. */
    ghost predicate Valid()
      reads this, data
    {
      && data.Valid({}) && data.ProgramKnown()
      && Drained(data.Prog(), data.findMap, data.findMap, cache)
      && CallNames(cache, data.functionMap, data.callExprParentMap) <= callEdges
    }

    /** The program information is fixed; only the partition, the cache and the edges change. */
    twostate predicate OnlyPartitionChanged()
      reads this, data
    {
      && data.Prog() == old(data.Prog()) && data.callExprParentMap == old(data.callExprParentMap)
      && data.findMap.Keys == old(data.findMap.Keys)
      && Coarser(old(data.findMap), data.findMap)
      && old(cache) <= cache
      && callEdges == old(callEdges) + CallNames(cache, data.functionMap, data.callExprParentMap)
    }

    method AddCallToCallGraph(callingFunctionName: FuncName, calledFunctionName: FuncName)
      modifies this`callEdges
      ensures callEdges == old(callEdges) + {(callingFunctionName, calledFunctionName)}
    {
      callEdges := callEdges + {(callingFunctionName, calledFunctionName)};
    }

    /** Resolves one meeting and, recursively, everything it causes. */
    method MergeFunctionCall(calledObj: Obj, ce: CallId)
      requires Valid() && HasMeeting(data.Prog(), data.findMap, calledObj, ce)
      modifies this`cache, this`callEdges, data
      ensures Valid() && OnlyPartitionChanged() && (calledObj, ce) in cache
      ensures |data.store| <= old(|data.store|)
      ensures Drained(data.Prog(), old(data.findMap), data.findMap, cache)
      ensures ForcedByCalls(data.Prog(), old(data.findMap), data.findMap)
      decreases |data.store|, 1
    {
      hide Drained, Draining, HasMeeting, Resolved, Coarser, ForcedByCalls, Partition, Known, Complete, Sound,
        Distinct, CallNames;
      ghost var prog, findMap0, cache0 := data.Prog(), data.findMap, cache;
      if (calledObj, ce) in cache {
        Unchanged(prog, data.findMap, cache, data.callExprParentMap, callEdges);
        return;
      }
      MeetingNames(prog, findMap0, calledObj, ce);
      cache := cache + {(calledObj, ce)};
      var found, calling, called := data.MergeFunctionCall(calledObj, ce);
      CacheGrows(prog, findMap0, data.findMap, cache0, calledObj, ce, found);
      AddCallToCallGraph(calling, called);
      NewName(cache0, calledObj, ce, data.functionMap, data.callExprParentMap, callEdges);
      ghost var findMap1 := data.findMap;
      Drain(found, findMap0);
      CoarserChain(findMap0, findMap1, data.findMap);
    }

    /** Resolves all listed meetings, which are the only ones missing since `start`. */
    method Drain(todo: Meetings, ghost start: Labelling)
      requires data.Valid({}) && data.ProgramKnown()
      requires Draining(data.Prog(), start, data.findMap, cache, todo)
      requires Coarser(start, data.findMap) && ForcedByCalls(data.Prog(), start, data.findMap)
      requires CallNames(cache, data.functionMap, data.callExprParentMap) <= callEdges
      modifies this`cache, this`callEdges, data
      ensures Valid() && OnlyPartitionChanged()
      ensures |data.store| <= old(|data.store|)
      ensures Drained(data.Prog(), start, data.findMap, cache)
      ensures Coarser(start, data.findMap) && ForcedByCalls(data.Prog(), start, data.findMap)
      ensures forall m :: m in todo ==> m in cache
      decreases |data.store|, if todo == [] then 0 else 2, |todo|
    {
      hide Drained, Draining, HasMeeting, Resolved, Coarser, ForcedByCalls, Partition, Known, Complete, Sound,
        Distinct, CallNames;
      ghost var prog := data.Prog();
      DrainedRefl(prog, start, data.findMap, cache, todo);
      if todo == [] {
        DrainEnd(prog, start, data.findMap, cache, todo);
        Unchanged(prog, data.findMap, cache, data.callExprParentMap, callEdges);
        return;
      }
      ghost var findMap0, cache0, edges0 := data.findMap, cache, callEdges;
      HeadMeets(prog, start, data.findMap, cache, todo);
      MergeFunctionCall(todo[0].0, todo[0].1);
      DrainStep(prog, start, findMap0, cache0, todo, data.findMap, cache);
      assert cache0 + cache == cache;
      ghost var findMap1, cache1 := data.findMap, cache;
      Drain(todo[1..], start);
      NamesGrow(cache1, cache, data.functionMap, data.callExprParentMap);
      CoarserChain(findMap0, findMap1, data.findMap);
    }

    /** Merges two classes and resolves every meeting this causes, however indirectly.  If no
        meeting was missing before, none is missing now and the partition is closed. */
    method Merge(e1: ClassId, e2: ClassId, ghost a: Obj, ghost b: Obj)
      requires Valid() && e1 in data.store && e2 in data.store && e1 != e2
      requires a in data.store[e1].objects && b in data.store[e2].objects
      modifies this`cache, this`callEdges, data
      ensures Valid() && OnlyPartitionChanged()
      ensures Joins(data.findMap, {(a, b)})
      ensures Drained(data.Prog(), old(data.findMap), data.findMap, cache)
      ensures ForcedJoining(data.Prog(), old(data.findMap), {(a, b)}, data.findMap)
      ensures old(Saturated(data.Prog(), data.findMap, cache)) ==>
                Saturated(data.Prog(), data.findMap, cache) && Closed(data.Prog(), data.findMap)
    {
      hide Drained, Draining, HasMeeting, Resolved, Coarser, Forced, ForcedByCalls, ForcedJoining, Partition, Known,
        Complete, Sound, Distinct, CallNames, Saturated, Joins, Congruent, Closed, OnlyMeetings, AllNewMeetings;
      ghost var prog, findMap0, cache0 := data.Prog(), data.findMap, cache;
      var found := data.MergeRecursive(e1, e2, {}, a, b);
      ghost var findMap1 := data.findMap;
      CacheStart(prog, findMap0, findMap1, cache, found);
      RestartDrain(prog, findMap0, findMap1, cache, found);
      assert CallNames(cache, data.functionMap, data.callExprParentMap) <= callEdges;
      Drain(found, findMap1);
      DrainBoth(prog, findMap0, findMap1, data.findMap, found, cache);
      MergeForced(prog, findMap0, {(a, b)}, findMap1, data.findMap);
      CompleteIsCongruent(data.store, data.findMap, data.edges);
      CoarserChain(findMap0, findMap1, data.findMap);
      JoinKept(findMap1, data.findMap, a, b);
      if Saturated(prog, findMap0, cache0) {
        DrainedIsClosed(prog, findMap0, data.findMap, cache0, cache);
      }
    }

    /** The loops that merge a list of object pairs, for overrides, methods and parameters. */
    method HandleMerges(pairs: seq<(Obj, Obj)>)
      requires Valid() && forall p :: p in pairs ==> p.0 in data.findMap && p.1 in data.findMap
      modifies this`cache, this`callEdges, data
      ensures Valid() && Joins(data.findMap, PairSet(pairs))
      ensures data.Prog() == old(data.Prog()) && Coarser(old(data.findMap), data.findMap)
      ensures ForcedJoining(data.Prog(), old(data.findMap), PairSet(pairs), data.findMap)
      ensures forall p | p in pairs :: Same(data.findMap, p.0, p.1)
      ensures forall l | Closed(data.Prog(), l) && Coarser(old(data.findMap), l)
                         && (forall p | p in pairs :: Same(l, p.0, p.1)) ::
                Coarser(data.findMap, l)
      ensures old(Saturated(data.Prog(), data.findMap, cache)) ==> Saturated(data.Prog(), data.findMap, cache)
      ensures old(Saturated(data.Prog(), data.findMap, cache)) && old(Closed(data.Prog(), data.findMap)) ==>
                Closed(data.Prog(), data.findMap)
    {
      hide Drained, HasMeeting, Coarser, Closed, ForcedJoining, Partition, Known, Complete, Sound, Distinct,
        CallNames, Saturated, Joins;
      ghost var prog, findMap0 := data.Prog(), data.findMap;
      StartJoining(prog, findMap0);
      for i := 0 to |pairs|
        invariant Valid() && data.findMap.Keys == findMap0.Keys && data.Prog() == prog
        invariant Coarser(findMap0, data.findMap) && Joins(data.findMap, PairSet(pairs[..i]))
        invariant ForcedJoining(prog, findMap0, PairSet(pairs[..i]), data.findMap)
        invariant old(Saturated(data.Prog(), data.findMap, cache)) ==> Saturated(prog, data.findMap, cache)
        invariant old(Saturated(data.Prog(), data.findMap, cache)) && old(Closed(data.Prog(), data.findMap))
                  ==> Closed(prog, data.findMap)
      {
        var (a, b) := pairs[i];
        assert pairs[i] in pairs;
        ghost var findMap1 := data.findMap;
        if data.findMap[a] != data.findMap[b] {
          ClassOf(data.store, data.findMap, a);
          ClassOf(data.store, data.findMap, b);
          Merge(data.findMap[a], data.findMap[b], a, b);
          CoarserChain(findMap0, findMap1, data.findMap);
        } else {
          AlreadyJoined(prog, findMap1, a, b);
        }
        JoinMore(findMap1, data.findMap, PairSet(pairs[..i]), {(a, b)});
        JoiningChain(prog, findMap0, PairSet(pairs[..i]), findMap1, {(a, b)}, data.findMap);
        assert pairs[..i + 1] == pairs[..i] + [pairs[i]];
        assert PairSet(pairs[..i + 1]) == PairSet(pairs[..i]) + {(a, b)};
      }
      assert pairs[..|pairs|] == pairs;
      JoiningMeans(prog, findMap0, pairs, data.findMap);
    }
  }
}
