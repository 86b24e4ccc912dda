/**
 The global loop depth (cgcollector/lib/src/GlobalCallDepth.cpp): how deep in loops a function
 and all it calls can be, along paths that visit no function twice.
 */
module GlobalCallDepth {
  type LoopDepths = map<string, int>

  /** For each function its callees, each with the loop depth of the call. */
  type Calls = map<string, LoopDepths>

  /** A function of the file: its callees, its own loop depth, and the depths of its calls. */
  datatype FunctionEntry = FunctionEntry(callees: seq<string>, loopDepth: int, loopCallDepth: LoopDepths)

  function Max(a: int, b: int): int {
    if a < b then b else a
  }

  function LookUp(m: LoopDepths, key: string): int {
    if key in m then m[key] else 0
  }

  ghost predicate Closed(calls: Calls) {
    forall f, g :: f in calls && g in calls[f] ==> g in calls
  }

  // ---------------------------------------------------------------- paths

  /** A path that begins with a function and uses no function twice, and none of the visited. */
  ghost predicate From(calls: Calls, p: seq<string>, entry: string, visited: set<string>) {
    && p != [] && p[0] == entry && entry in calls && entry !in visited
    && (|p| > 1 ==> p[1] in calls[entry] && From(calls, p[1..], p[1], visited + {entry}))
  }

  ghost predicate SimplePath(calls: Calls, p: seq<string>) {
    && p != [] && (forall i :: 0 <= i < |p| ==> p[i] in calls)
    && (forall i :: 0 <= i < |p| - 1 ==> p[i + 1] in calls[p[i]])
    && (forall i, j :: 0 <= i < j < |p| ==> p[i] != p[j])
  }

  /** The loop depths of all calls on the path, and the last function's own. */
  ghost function Value(calls: Calls, local: LoopDepths, p: seq<string>): int {
    if p == [] then 0
    else if |p| == 1 then Max(0, LookUp(local, p[0]))
    else (if p[0] in calls then LookUp(calls[p[0]], p[1]) else 0) + Value(calls, local, p[1..])
  }

  lemma {:induction false} FromIsSimplePath(calls: Calls, p: seq<string>, entry: string, visited: set<string>)
    ensures From(calls, p, entry, visited)
       <==> SimplePath(calls, p) && p[0] == entry && forall i :: 0 <= i < |p| ==> p[i] !in visited
  {
    if |p| > 1 {
      var rest := p[1..];
      FromIsSimplePath(calls, rest, p[1], visited + {entry});
      if From(calls, p, entry, visited) {
        assert forall i :: 1 <= i < |p| ==> p[i] == rest[i - 1];
        assert SimplePath(calls, p) && forall i :: 0 <= i < |p| ==> p[i] !in visited;
      }
      if SimplePath(calls, p) && p[0] == entry && forall i :: 0 <= i < |p| ==> p[i] !in visited {
        assert forall i :: 0 <= i < |rest| ==> rest[i] == p[i + 1];
        forall i | 0 <= i < |rest| - 1
          ensures rest[i + 1] in calls[rest[i]]
        {
          assert p[i + 1 + 1] in calls[p[i + 1]];
        }
        assert SimplePath(calls, rest) && forall i :: 0 <= i < |rest| ==> rest[i] !in visited + {entry};
      }
    }
  }

  /** What paths from a function can be worth. */
  ghost function ValuesFrom(calls: Calls, local: LoopDepths, entry: string, visited: set<string>): iset<int> {
    iset p | From(calls, p, entry, visited) :: Value(calls, local, p)
  }

  ghost function ChildValues(calls: Calls, local: LoopDepths, entry: string, visited: set<string>,
                             children: set<string>): iset<int>
  {
    iset c, v | c in children && entry in calls && c in calls[entry]
                && v in ValuesFrom(calls, local, c, visited + {entry}) :: calls[entry][c] + v
  }

  /** The pairs of a function on a path from the entry, and what the rest of the path is worth. */
  ghost function SeenFrom(calls: Calls, local: LoopDepths, entry: string, visited: set<string>): iset<(string, int)> {
    iset p, i | From(calls, p, entry, visited) && 0 <= i < |p| :: (p[i], Value(calls, local, p[i..]))
  }

  ghost function ChildrenSeen(calls: Calls, local: LoopDepths, entry: string, visited: set<string>,
                              children: set<string>): iset<(string, int)>
  {
    iset c, e | c in children && e in SeenFrom(calls, local, c, visited + {entry}) :: e
  }

  ghost function Tagged(entry: string, values: iset<int>): iset<(string, int)> {
    iset v | v in values :: (entry, v)
  }

  /** A path stops at once or goes on at a child. */
  lemma ValuesUnfold(calls: Calls, local: LoopDepths, entry: string, visited: set<string>)
    requires entry in calls && entry !in visited
    ensures ValuesFrom(calls, local, entry, visited)
         == iset{Max(0, LookUp(local, entry))} + ChildValues(calls, local, entry, visited, calls[entry].Keys)
  {
    var left := ValuesFrom(calls, local, entry, visited);
    var children := ChildValues(calls, local, entry, visited, calls[entry].Keys);
    forall v | v in left
      ensures v == Max(0, LookUp(local, entry)) || v in children
    {
      var p :| From(calls, p, entry, visited) && Value(calls, local, p) == v;
      if |p| > 1 {
        assert Value(calls, local, p[1..]) in ValuesFrom(calls, local, p[1], visited + {entry});
      }
    }
    assert From(calls, [entry], entry, visited) && Value(calls, local, [entry]) == Max(0, LookUp(local, entry));
    forall w | w in children
      ensures w in left
    {
      var c, v :| c in calls[entry] && v in ValuesFrom(calls, local, c, visited + {entry}) && w == calls[entry][c] + v;
      var q :| From(calls, q, c, visited + {entry}) && Value(calls, local, q) == v;
      Longer(calls, local, entry, visited, q);
    }
  }

  lemma Longer(calls: Calls, local: LoopDepths, entry: string, visited: set<string>, q: seq<string>)
    requires entry in calls && entry !in visited && q != [] && q[0] in calls[entry]
    requires From(calls, q, q[0], visited + {entry})
    ensures From(calls, [entry] + q, entry, visited)
    ensures Value(calls, local, [entry] + q) == calls[entry][q[0]] + Value(calls, local, q)
  {
  }

  lemma SeenUnfold(calls: Calls, local: LoopDepths, entry: string, visited: set<string>)
    requires entry in calls && entry !in visited
    ensures SeenFrom(calls, local, entry, visited)
         == ChildrenSeen(calls, local, entry, visited, calls[entry].Keys)
            + Tagged(entry, ValuesFrom(calls, local, entry, visited))
  {
    var left := SeenFrom(calls, local, entry, visited);
    var children := ChildrenSeen(calls, local, entry, visited, calls[entry].Keys);
    var own := Tagged(entry, ValuesFrom(calls, local, entry, visited));
    forall e | e in left
      ensures e in children + own
    {
      var p, i :| From(calls, p, entry, visited) && 0 <= i < |p| && e == (p[i], Value(calls, local, p[i..]));
      if i == 0 {
        assert p[0..] == p;
      } else {
        assert p[1..][i - 1..] == p[i..];
        assert From(calls, p[1..], p[1], visited + {entry}) && p[1..][i - 1] == p[i];
        assert e in SeenFrom(calls, local, p[1], visited + {entry});
      }
    }
    forall e | e in children
      ensures e in left
    {
      var c :| c in calls[entry] && e in SeenFrom(calls, local, c, visited + {entry});
      var q, i :| From(calls, q, c, visited + {entry}) && 0 <= i < |q| && e == (q[i], Value(calls, local, q[i..]));
      Longer(calls, local, entry, visited, q);
      assert ([entry] + q)[i + 1..] == q[i..] && ([entry] + q)[i + 1] == q[i];
    }
    forall e | e in own
      ensures e in left
    {
      var p :| From(calls, p, entry, visited) && e == (entry, Value(calls, local, p));
      assert p[0..] == p && p[0] == entry;
    }
  }

  // ---------------------------------------------------------------- largest values

  ghost predicate Greatest(d: int, values: iset<int>) {
    d in values && forall v :: v in values ==> v <= d
  }

  /** The map afterwards holds for each function the largest of what it held and what was seen. */
  ghost predicate Raised(before: LoopDepths, after: LoopDepths, seen: iset<(string, int)>) {
    && (forall n :: n in before ==> n in after && before[n] <= after[n])
    && (forall n, v :: (n, v) in seen ==> n in after && v <= after[n])
    && (forall n :: n in after ==> (n in before && after[n] == before[n]) || (n, after[n]) in seen)
  }

  lemma RaisedTwice(a: LoopDepths, b: LoopDepths, c: LoopDepths, seen: iset<(string, int)>, more: iset<(string, int)>)
    requires Raised(a, b, seen) && Raised(b, c, more)
    ensures Raised(a, c, seen + more)
  {
  }

  lemma RaisedByNothing(a: LoopDepths)
    ensures Raised(a, a, iset{})
  {
  }

  lemma RaisedAtOne(a: LoopDepths, entry: string, depth: int, values: iset<int>)
    requires Greatest(depth, values)
    ensures Raised(a, a[entry := if entry in a then Max(a[entry], depth) else depth], Tagged(entry, values))
  {
  }

  lemma OneMoreChild(calls: Calls, local: LoopDepths, entry: string, visited: set<string>, done: set<string>, c: string)
    requires entry in calls && c in calls[entry]
    ensures ChildrenSeen(calls, local, entry, visited, done + {c})
         == ChildrenSeen(calls, local, entry, visited, done) + SeenFrom(calls, local, c, visited + {entry})
    ensures forall w ::
              w in ChildValues(calls, local, entry, visited, done + {c})
              <==> w in ChildValues(calls, local, entry, visited, done)
                   || w - calls[entry][c] in ValuesFrom(calls, local, c, visited + {entry})
  {
  }

  /** No path begins at a visited function. */
  lemma NothingFromVisited(calls: Calls, local: LoopDepths, c: string, visited: set<string>)
    requires c in visited
    ensures SeenFrom(calls, local, c, visited) == iset{} && ValuesFrom(calls, local, c, visited) == iset{}
  {
  }

  /** One more child explored: its best path raises the largest value so far. */
  lemma GreatestOfOneMore(calls: Calls, local: LoopDepths, entry: string, visited: set<string>, done: set<string>,
                          c: string, best: int, depth: int)
    requires entry in calls && c in calls[entry]
    requires Greatest(best, iset{0} + ChildValues(calls, local, entry, visited, done))
    requires Greatest(depth, ValuesFrom(calls, local, c, visited + {entry}))
    ensures Greatest(Max(best, calls[entry][c] + depth),
                     iset{0} + ChildValues(calls, local, entry, visited, done + {c}))
  {
    hide ChildValues, ValuesFrom;
    OneMoreChild(calls, local, entry, visited, done, c);
    var w := calls[entry][c] + depth;
    assert w - calls[entry][c] == depth;
  }

  // ---------------------------------------------------------------- the recursion

  /** The two maps that the recursion changes. */
  class DepthSearch {
    var globalLoopDepth: LoopDepths
    var visited: set<string>

    constructor ()
      ensures globalLoopDepth == map[] && visited == {}
    {
      globalLoopDepth, visited := map[], {};
    }

    /** Returns the largest value of a path from the function that avoids the visited ones, and
        records for every function on such paths what the rest of the path is worth at most. */
    method GetCallDepth(entry: string, callDepths: Calls, localLoopDepth: LoopDepths) returns (loopDepth: int)
      requires Closed(callDepths) && entry in callDepths && entry !in visited
      modifies this
      ensures visited == old(visited)
      ensures Greatest(loopDepth, ValuesFrom(callDepths, localLoopDepth, entry, visited))
      ensures Raised(old(globalLoopDepth), globalLoopDepth, SeenFrom(callDepths, localLoopDepth, entry, visited))
      decreases callDepths.Keys - visited
    {
      hide Raised, SeenFrom, ValuesFrom, ChildValues, ChildrenSeen, Tagged, Greatest, Max;
      ghost var v0, g0 := visited, globalLoopDepth;
      visited := visited + {entry};
      var maxChildDepth := 0;
      var children := callDepths[entry];
      var todo := children.Keys;
      NoChildYet(callDepths, localLoopDepth, entry, v0, g0);
      ghost var done: set<string> := {};
      while todo != {}
        invariant visited == v0 + {entry} && done == children.Keys - todo && todo <= children.Keys
        invariant Greatest(maxChildDepth, iset{0} + ChildValues(callDepths, localLoopDepth, entry, v0, done))
        invariant Raised(g0, globalLoopDepth, ChildrenSeen(callDepths, localLoopDepth, entry, v0, done))
      {
        var child :| child in todo;
        ghost var g := globalLoopDepth;
        if child !in visited {
          var depth := GetCallDepth(child, callDepths, localLoopDepth);
          GreatestOfOneMore(callDepths, localLoopDepth, entry, v0, done, child, maxChildDepth, depth);
          maxChildDepth := Max(maxChildDepth, children[child] + depth);
        } else {
          NothingFromVisited(callDepths, localLoopDepth, child, visited);
          RaisedByNothing(g);
          SkippedChild(callDepths, localLoopDepth, entry, v0, done, child);
        }
        OneMoreChild(callDepths, localLoopDepth, entry, v0, done, child);
        RaisedTwice(g0, g, globalLoopDepth, ChildrenSeen(callDepths, localLoopDepth, entry, v0, done),
                    SeenFrom(callDepths, localLoopDepth, child, visited));
        todo, done := todo - {child}, done + {child};
      }
      assert done == children.Keys;
      visited := visited - {entry};
      assert visited == v0;
      loopDepth := Max(maxChildDepth, LookUp(localLoopDepth, entry));
      ValuesUnfold(callDepths, localLoopDepth, entry, v0);
      SeenUnfold(callDepths, localLoopDepth, entry, v0);
      GreatestWithOwn(maxChildDepth, LookUp(localLoopDepth, entry),
                      ChildValues(callDepths, localLoopDepth, entry, v0, done));
      RaisedAtOne(globalLoopDepth, entry, loopDepth, ValuesFrom(callDepths, localLoopDepth, entry, v0));
      RaisedTwice(g0, globalLoopDepth,
                  globalLoopDepth[entry := if entry in globalLoopDepth then Max(globalLoopDepth[entry], loopDepth)
                                           else loopDepth],
                  ChildrenSeen(callDepths, localLoopDepth, entry, v0, done),
                  Tagged(entry, ValuesFrom(callDepths, localLoopDepth, entry, v0)));
      if entry !in globalLoopDepth {
        globalLoopDepth := globalLoopDepth[entry := loopDepth];
      } else {
        globalLoopDepth := globalLoopDepth[entry := Max(globalLoopDepth[entry], loopDepth)];
      }
    }
  }

  lemma NoChildYet(calls: Calls, local: LoopDepths, entry: string, visited: set<string>, g: LoopDepths)
    ensures Greatest(0, iset{0} + ChildValues(calls, local, entry, visited, {}))
    ensures Raised(g, g, ChildrenSeen(calls, local, entry, visited, {}))
  {
  }

  lemma SkippedChild(calls: Calls, local: LoopDepths, entry: string, visited: set<string>, done: set<string>, c: string)
    requires entry in calls && c in calls[entry] && c in visited + {entry}
    ensures ChildValues(calls, local, entry, visited, done + {c}) == ChildValues(calls, local, entry, visited, done)
  {
  }

  lemma GreatestWithOwn(best: int, own: int, values: iset<int>)
    requires Greatest(best, iset{0} + values)
    ensures Greatest(Max(best, own), iset{Max(0, own)} + values)
  {
  }

  // ---------------------------------------------------------------- the whole computation

  /** Entry points: the functions that only they themselves may call, or just the main function. */
  ghost predicate IsEntryPoint(calls: Calls, f: string, useOnlyMainEntry: bool) {
    && f in calls
    && (if useOnlyMainEntry then f == "main" else forall g :: g in calls && f in calls[g] ==> g == f)
  }

  ghost function AllSeen(calls: Calls, local: LoopDepths, entries: set<string>): iset<(string, int)> {
    iset f, e | f in entries && e in SeenFrom(calls, local, f, {}) :: e
  }

  /** The callees of a function: at depth zero, or at the depth the metadata says. */
  function Called(f: FunctionEntry): LoopDepths {
    (map c | c in f.callees :: 0) + f.loopCallDepth
  }

  function CallDepths(cg: map<string, FunctionEntry>): Calls {
    map f | f in cg :: Called(cg[f])
  }

  function LocalDepths(cg: map<string, FunctionEntry>): LoopDepths {
    map f | f in cg :: cg[f].loopDepth
  }

  /** Which calls a function makes, and at which depths: metadata overrules the zero. */
  lemma DepthsMean(cg: map<string, FunctionEntry>)
    ensures CallDepths(cg).Keys == cg.Keys && LocalDepths(cg).Keys == cg.Keys
    ensures forall f | f in cg :: LocalDepths(cg)[f] == cg[f].loopDepth
    ensures forall f, c | f in cg ::
              c in CallDepths(cg)[f] <==> c in cg[f].callees || c in cg[f].loopCallDepth
    ensures forall f, c | f in cg && c in CallDepths(cg)[f] ::
              CallDepths(cg)[f][c] == if c in cg[f].loopCallDepth then cg[f].loopCallDepth[c] else 0
  {
  }

  method CollectCalls(cg: map<string, FunctionEntry>) returns (callDepths: Calls, localLoopDepth: LoopDepths)
    ensures callDepths == CallDepths(cg) && localLoopDepth == LocalDepths(cg)
  {
    callDepths, localLoopDepth := map[], map[];
    var todo := cg.Keys;
    while todo != {}
      invariant todo <= cg.Keys
      invariant callDepths == map f | f in cg && f !in todo :: Called(cg[f])
      invariant localLoopDepth == map f | f in cg && f !in todo :: cg[f].loopDepth
    {
      var key :| key in todo;
      localLoopDepth := localLoopDepth[key := cg[key].loopDepth];
      var called := CollectCallees(cg[key]);
      callDepths := callDepths[key := called];
      todo := todo - {key};
    }
  }

  method CollectCallees(val: FunctionEntry) returns (called: LoopDepths)
    ensures called == Called(val)
  {
    called := map[];
    for i := 0 to |val.callees|
      invariant called == map c | c in val.callees[..i] :: 0
    {
      called := called[val.callees[i] := 0];
      assert val.callees[..i + 1] == val.callees[..i] + [val.callees[i]];
    }
    assert val.callees[..|val.callees|] == val.callees;
    var todo := val.loopCallDepth.Keys;
    ghost var done: set<string> := {};
    while todo != {}
      invariant todo <= val.loopCallDepth.Keys && done == val.loopCallDepth.Keys - todo
      invariant called == (map c | c in val.callees :: 0) + (map c | c in done :: val.loopCallDepth[c])
    {
      var f :| f in todo;
      called := called[f := val.loopCallDepth[f]];
      todo, done := todo - {f}, done + {f};
    }
    assert val.loopCallDepth == map c | c in done :: val.loopCallDepth[c];
  }

  /** Marks callees as called, without unmarking one when it comes up as a caller. */
  method FindEntryPoints(callDepths: Calls, useOnlyMainEntry: bool) returns (entryPoints: set<string>)
    ensures forall f :: f in entryPoints <==> IsEntryPoint(callDepths, f, useOnlyMainEntry)
  {
    if useOnlyMainEntry {
      return if "main" in callDepths then {"main"} else {};
    }
    var called: map<string, bool> := map[];
    var todo := callDepths.Keys;
    ghost var done: set<string> := {};
    while todo != {}
      invariant todo <= callDepths.Keys && done == callDepths.Keys - todo
      invariant forall f :: f in called ==> called[f] || f in done
      invariant forall f :: f in done ==> f in called
      invariant forall f :: f in called && called[f] <==> CalledByAnother(callDepths, done, f)
    {
      var caller :| caller in todo;
      if caller !in called {
        called := called[caller := false];
      }
      called := MarkCalled(called, caller, callDepths[caller].Keys);
      CalledByOneMore(callDepths, done, caller);
      todo, done := todo - {caller}, done + {caller};
    }
    entryPoints := set f | f in called && !called[f];
    assert done == callDepths.Keys;
  }

  method MarkCalled(called: map<string, bool>, caller: string, callees: set<string>) returns (marked: map<string, bool>)
    ensures marked.Keys == called.Keys + (callees - {caller})
    ensures forall f :: f in marked ==> (marked[f] <==> (f in callees && f != caller) || (f in called && called[f]))
  {
    marked := called;
    var todo := callees;
    while todo != {}
      invariant todo <= callees && marked.Keys == called.Keys + (callees - todo - {caller})
      invariant forall f :: f in marked ==>
                  (marked[f] <==> (f in callees - todo && f != caller) || (f in called && called[f]))
    {
      var callee :| callee in todo;
      if callee != caller {
        marked := marked[callee := true];
      }
      todo := todo - {callee};
    }
  }

  ghost predicate CalledByAnother(calls: Calls, callers: set<string>, f: string) {
    exists g :: g in callers && g in calls && g != f && f in calls[g]
  }

  lemma CalledByOneMore(calls: Calls, callers: set<string>, g: string)
    requires g in calls
    ensures forall f :: CalledByAnother(calls, callers + {g}, f)
              <==> CalledByAnother(calls, callers, f) || (g != f && f in calls[g])
  {
  }

  lemma CallBefore(calls: Calls, p: seq<string>, i: nat)
    requires SimplePath(calls, p) && 0 < i < |p|
    ensures p[i - 1] in calls && p[i] in calls[p[i - 1]] && p[i - 1] != p[i]
  {
  }

  /** No path from one entry point reaches another. */
  lemma EntriesApart(calls: Calls, local: LoopDepths, e: string, f: string, v: int, useOnlyMainEntry: bool)
    requires IsEntryPoint(calls, e, useOnlyMainEntry) && IsEntryPoint(calls, f, useOnlyMainEntry) && e != f
    ensures (f, v) !in SeenFrom(calls, local, e, {})
  {
    if (f, v) in SeenFrom(calls, local, e, {}) {
      var p, i :| From(calls, p, e, {}) && 0 <= i < |p| && (f, v) == (p[i], Value(calls, local, p[i..]));
      FromIsSimplePath(calls, p, e, {});
      CallBefore(calls, p, i);
      assert false;
    }
  }

  /** Whoever is seen is also seen at the end of a path, where nothing negative can be recorded. */
  lemma SeenNonNegative(calls: Calls, local: LoopDepths, f: string, n: string, v: int)
    requires (n, v) in SeenFrom(calls, local, f, {})
    ensures (n, Max(0, LookUp(local, n))) in SeenFrom(calls, local, f, {})
  {
    var p, i :| From(calls, p, f, {}) && 0 <= i < |p| && (n, v) == (p[i], Value(calls, local, p[i..]));
    var q := p[..i + 1];
    FromIsSimplePath(calls, p, f, {});
    FromIsSimplePath(calls, q, f, {});
    forall j | 0 <= j < |q| - 1
      ensures q[j + 1] in calls[q[j]]
    {
      assert p[j + 1] in calls[p[j]];
    }
    assert SimplePath(calls, q);
    assert q[i..] == [n];
  }

  lemma OneMoreEntry(calls: Calls, local: LoopDepths, done: set<string>, f: string)
    ensures AllSeen(calls, local, done + {f}) == AllSeen(calls, local, done) + SeenFrom(calls, local, f, {})
  {
  }

  /** Everything the depth of a function is the largest of: its own loop depth, and what follows
      it on the simple paths that start at an entry point. */
  ghost function Contributions(calls: Calls, local: LoopDepths, key: string, useOnlyMainEntry: bool): iset<int> {
    iset{0, LookUp(local, key)}
    + iset f, v | IsEntryPoint(calls, f, useOnlyMainEntry) && (key, v) in SeenFrom(calls, local, f, {}) :: v
  }

  /** What each rest of a path is worth. */
  ghost predicate Along(calls: Calls, local: LoopDepths, p: seq<string>, vs: seq<int>) {
    && |vs| == |p| && SimplePath(calls, p)
    && vs[|p| - 1] == Max(0, LookUp(local, p[|p| - 1]))
    && forall k | 0 <= k < |p| - 1 :: vs[k] == LookUp(calls[p[k]], p[k + 1]) + vs[k + 1]
  }

  lemma {:induction false} AlongIsValue(calls: Calls, local: LoopDepths, p: seq<string>, vs: seq<int>, k: nat)
    requires Along(calls, local, p, vs) && k < |p|
    ensures vs[k] == Value(calls, local, p[k..])
    decreases |p| - k
  {
    if k < |p| - 1 {
      AlongIsValue(calls, local, p, vs, k + 1);
      assert p[k..][1..] == p[k + 1..];
    }
  }

  lemma ValuesAlong(calls: Calls, local: LoopDepths, p: seq<string>) returns (vs: seq<int>)
    requires SimplePath(calls, p)
    ensures Along(calls, local, p, vs)
  {
    vs := seq(|p|, k requires 0 <= k < |p| => Value(calls, local, p[k..]));
    forall k | 0 <= k < |p| - 1
      ensures vs[k] == LookUp(calls[p[k]], p[k + 1]) + vs[k + 1]
    {
      assert p[k..][1..] == p[k + 1..];
    }
  }

  /** Told by paths: a contribution is zero, the function's own loop depth, or what is seen of it on
      a simple path from an entry point. */
  lemma ContributionAlong(calls: Calls, local: LoopDepths, key: string, useOnlyMainEntry: bool, v: int)
    ensures v in Contributions(calls, local, key, useOnlyMainEntry)
            <==> v == 0 || v == LookUp(local, key)
                 || exists p, vs, i :: Along(calls, local, p, vs) && IsEntryPoint(calls, p[0], useOnlyMainEntry)
                                       && 0 <= i < |p| && p[i] == key && vs[i] == v
  {
    hide IsEntryPoint, From, Value, Along;
    forall p, vs | Along(calls, local, p, vs)
      ensures SimplePath(calls, p) && |vs| == |p| > 0
    {
      AlongIsPath(calls, local, p, vs);
    }
    if p, vs, i :| Along(calls, local, p, vs) && IsEntryPoint(calls, p[0], useOnlyMainEntry)
                   && 0 <= i < |p| && p[i] == key && vs[i] == v {
      FromIsSimplePath(calls, p, p[0], {});
      AlongIsValue(calls, local, p, vs, i);
      assert (p[i], Value(calls, local, p[i..])) in SeenFrom(calls, local, p[0], {});
    }
    if f :| IsEntryPoint(calls, f, useOnlyMainEntry) && (key, v) in SeenFrom(calls, local, f, {}) {
      var p, i :| From(calls, p, f, {}) && 0 <= i < |p| && (key, v) == (p[i], Value(calls, local, p[i..]));
      FromIsSimplePath(calls, p, f, {});
      var vs := ValuesAlong(calls, local, p);
      AlongIsValue(calls, local, p, vs, i);
      assert vs[i] == v;
    }
  }

  lemma AlongIsPath(calls: Calls, local: LoopDepths, p: seq<string>, vs: seq<int>)
    requires Along(calls, local, p, vs)
    ensures SimplePath(calls, p) && |vs| == |p| > 0
  {
  }

  /** By the functions' own fields: on a path from an entry point that repeats no function, each
      function is worth the loop depths of the calls behind it and the last function's own ... */
  lemma PathContributes(cg: map<string, FunctionEntry>, useOnlyMainEntry: bool, p: seq<string>, vs: seq<int>, i: nat)
    requires |vs| == |p| && i < |p| && (forall k | 0 <= k < |p| :: p[k] in cg)
    requires forall j, k | 0 <= j < k < |p| :: p[j] != p[k]
    requires forall j, k | 0 <= j && j + 1 == k < |p| :: p[k] in cg[p[j]].callees || p[k] in cg[p[j]].loopCallDepth
    requires if useOnlyMainEntry then p[0] == "main"
             else forall g | g in cg && (p[0] in cg[g].callees || p[0] in cg[g].loopCallDepth) :: g == p[0]
    requires vs[|p| - 1] == if cg[p[|p| - 1]].loopDepth > 0 then cg[p[|p| - 1]].loopDepth else 0
    requires forall j, k | 0 <= j && j + 1 == k < |p| ::
               vs[j] == vs[k] + if p[k] in cg[p[j]].loopCallDepth then cg[p[j]].loopCallDepth[p[k]] else 0
    ensures vs[i] in Contributions(CallDepths(cg), LocalDepths(cg), p[i], useOnlyMainEntry)
  {
    var calls, local := CallDepths(cg), LocalDepths(cg);
    DepthsMean(cg);
    hide CallDepths, LocalDepths, Contributions;
    assert forall k | 0 <= k < |p| - 1 :: p[k + 1] in calls[p[k]];
    assert forall k | 0 <= k < |p| - 1 :: vs[k] == LookUp(calls[p[k]], p[k + 1]) + vs[k + 1];
    assert Along(calls, local, p, vs);
    ContributionAlong(calls, local, p[i], useOnlyMainEntry, vs[i]);
  }

  /** ... and nothing else contributes but zero and the function's own loop depth. */
  lemma ContributingPath(cg: map<string, FunctionEntry>, useOnlyMainEntry: bool, key: string, v: int)
    returns (p: seq<string>, vs: seq<int>, i: nat)
    requires key in cg && v in Contributions(CallDepths(cg), LocalDepths(cg), key, useOnlyMainEntry)
    requires v != 0 && v != cg[key].loopDepth
    ensures |vs| == |p| && i < |p| && p[i] == key && vs[i] == v && (forall k | 0 <= k < |p| :: p[k] in cg)
    ensures forall j, k | 0 <= j < k < |p| :: p[j] != p[k]
    ensures forall j, k | 0 <= j && j + 1 == k < |p| :: p[k] in cg[p[j]].callees || p[k] in cg[p[j]].loopCallDepth
    ensures if useOnlyMainEntry then p[0] == "main"
            else forall g | g in cg && (p[0] in cg[g].callees || p[0] in cg[g].loopCallDepth) :: g == p[0]
    ensures vs[|p| - 1] == if cg[p[|p| - 1]].loopDepth > 0 then cg[p[|p| - 1]].loopDepth else 0
    ensures forall j, k | 0 <= j && j + 1 == k < |p| ::
               vs[j] == vs[k] + if p[k] in cg[p[j]].loopCallDepth then cg[p[j]].loopCallDepth[p[k]] else 0
  {
    var calls, local := CallDepths(cg), LocalDepths(cg);
    DepthsMean(cg);
    hide CallDepths, LocalDepths, Contributions;
    ContributionAlong(calls, local, key, useOnlyMainEntry, v);
    p, vs, i :| Along(calls, local, p, vs) && IsEntryPoint(calls, p[0], useOnlyMainEntry)
                && i < |p| && p[i] == key && vs[i] == v;
    assert forall j | 0 <= j < |p| - 1 :: p[j + 1] in calls[p[j]];
    assert forall j | 0 <= j < |p| - 1 :: vs[j] == LookUp(calls[p[j]], p[j + 1]) + vs[j + 1];
  }

  lemma LargestContribution(calls: Calls, local: LoopDepths, entries: set<string>, useOnlyMainEntry: bool,
                            g: LoopDepths, key: string)
    requires forall f :: f in entries <==> IsEntryPoint(calls, f, useOnlyMainEntry)
    requires Raised(map[], g, AllSeen(calls, local, entries)) && key in local
    ensures Greatest(Max(LookUp(g, key), local[key]), Contributions(calls, local, key, useOnlyMainEntry))
  {
    hide SeenFrom;
    var all := Contributions(calls, local, key, useOnlyMainEntry);
    forall f, v | IsEntryPoint(calls, f, useOnlyMainEntry) && (key, v) in SeenFrom(calls, local, f, {})
      ensures key in g && v <= g[key] && 0 <= g[key]
    {
      SeenNonNegative(calls, local, f, key, v);
      assert (key, v) in AllSeen(calls, local, entries);
      assert (key, Max(0, LookUp(local, key))) in AllSeen(calls, local, entries);
    }
    if key in g {
      assert (key, g[key]) in AllSeen(calls, local, entries);
      var f :| f in entries && (key, g[key]) in SeenFrom(calls, local, f, {});
      assert g[key] in all;
    }
  }

  /** Every function's loop depth.  Storing what the search returns for an entry point never
      lowers what the search has recorded for it. */
  method CalculateGlobalCallDepth(cg: map<string, FunctionEntry>, useOnlyMainEntry: bool) returns (result: LoopDepths)
    requires Closed(CallDepths(cg))
    ensures result.Keys == cg.Keys
    ensures forall key :: key in cg ==>
              Greatest(result[key], Contributions(CallDepths(cg), LocalDepths(cg), key, useOnlyMainEntry))
    ensures forall key | key in cg ::
              && 0 <= result[key] && cg[key].loopDepth <= result[key]
              && result[key] in Contributions(CallDepths(cg), LocalDepths(cg), key, useOnlyMainEntry)
              && forall v | v in Contributions(CallDepths(cg), LocalDepths(cg), key, useOnlyMainEntry) ::
                   v <= result[key]
  {
    hide Raised, SeenFrom, ValuesFrom, AllSeen, Greatest, Contributions, IsEntryPoint;
    var callDepths, localLoopDepth := CollectCalls(cg);
    var entryPoints := FindEntryPoints(callDepths, useOnlyMainEntry);
    var search := new DepthSearch();
    var todo := entryPoints;
    ghost var done: set<string> := {};
    NoEntryYet(callDepths, localLoopDepth);
    while todo != {}
      invariant todo <= entryPoints && done == entryPoints - todo && search.visited == {} && fresh(search)
      invariant Raised(map[], search.globalLoopDepth, AllSeen(callDepths, localLoopDepth, done))
    {
      var entry :| entry in todo;
      ghost var before := search.globalLoopDepth;
      EntryIsFunction(callDepths, entry, useOnlyMainEntry);
      NotSeenBefore(callDepths, localLoopDepth, entryPoints, done, entry, useOnlyMainEntry, before);
      var depth := search.GetCallDepth(entry, callDepths, localLoopDepth);
      AssigningLowersNothing(callDepths, localLoopDepth, entry, before, search.globalLoopDepth, depth);
      search.globalLoopDepth := search.globalLoopDepth[entry := depth];
      RaisedTwice(map[], before, search.globalLoopDepth, AllSeen(callDepths, localLoopDepth, done),
                  SeenFrom(callDepths, localLoopDepth, entry, {}));
      OneMoreEntry(callDepths, localLoopDepth, done, entry);
      todo, done := todo - {entry}, done + {entry};
    }
    assert done == entryPoints;
    var globalLoopDepth := search.globalLoopDepth;
    var keys := cg.Keys;
    result := map[];
    while keys != {}
      invariant keys <= cg.Keys && result.Keys == cg.Keys - keys
      invariant forall key :: key in result ==>
                  Greatest(result[key], Contributions(callDepths, localLoopDepth, key, useOnlyMainEntry))
    {
      var key :| key in keys;
      LargestContribution(callDepths, localLoopDepth, entryPoints, useOnlyMainEntry, globalLoopDepth, key);
      result := result[key := Max(LookUp(globalLoopDepth, key), cg[key].loopDepth)];
      keys := keys - {key};
    }
    forall key | key in cg
      ensures && 0 <= result[key] && cg[key].loopDepth <= result[key]
              && result[key] in Contributions(callDepths, localLoopDepth, key, useOnlyMainEntry)
              && forall v | v in Contributions(callDepths, localLoopDepth, key, useOnlyMainEntry) :: v <= result[key]
    {
      OwnContributions(callDepths, localLoopDepth, key, useOnlyMainEntry, result[key]);
    }
  }

  lemma OwnContributions(calls: Calls, local: LoopDepths, key: string, useOnlyMainEntry: bool, d: int)
    requires Greatest(d, Contributions(calls, local, key, useOnlyMainEntry))
    ensures 0 <= d && LookUp(local, key) <= d && d in Contributions(calls, local, key, useOnlyMainEntry)
    ensures forall v | v in Contributions(calls, local, key, useOnlyMainEntry) :: v <= d
  {
    assert 0 in Contributions(calls, local, key, useOnlyMainEntry);
    assert LookUp(local, key) in Contributions(calls, local, key, useOnlyMainEntry);
  }

  lemma NoEntryYet(calls: Calls, local: LoopDepths)
    ensures Raised(map[], map[], AllSeen(calls, local, {}))
  {
  }

  lemma EntryIsFunction(calls: Calls, f: string, useOnlyMainEntry: bool)
    requires IsEntryPoint(calls, f, useOnlyMainEntry)
    ensures f in calls
  {
  }

  lemma NotSeenBefore(calls: Calls, local: LoopDepths, entries: set<string>, done: set<string>, entry: string,
                      useOnlyMainEntry: bool, g: LoopDepths)
    requires forall f :: f in entries <==> IsEntryPoint(calls, f, useOnlyMainEntry)
    requires done <= entries && entry in entries && entry !in done
    requires Raised(map[], g, AllSeen(calls, local, done))
    ensures entry !in g
  {
    hide SeenFrom, IsEntryPoint;
    if entry in g {
      assert (entry, g[entry]) in AllSeen(calls, local, done);
      var f :| f in done && (entry, g[entry]) in SeenFrom(calls, local, f, {});
      EntriesApart(calls, local, f, entry, g[entry], useOnlyMainEntry);
      assert false;
    }
  }

  /** A value of a path from the entry is seen at the entry ... */
  lemma StartIsSeen(calls: Calls, local: LoopDepths, entry: string, v: int)
    requires v in ValuesFrom(calls, local, entry, {})
    ensures (entry, v) in SeenFrom(calls, local, entry, {})
  {
    var p :| From(calls, p, entry, {}) && Value(calls, local, p) == v;
    assert p[0..] == p && p[0] == entry;
  }

  /** ... and nothing else is, because no path comes back. */
  lemma SeenAtStart(calls: Calls, local: LoopDepths, entry: string, v: int)
    requires (entry, v) in SeenFrom(calls, local, entry, {})
    ensures v in ValuesFrom(calls, local, entry, {})
  {
    var p, i :| From(calls, p, entry, {}) && 0 <= i < |p| && (entry, v) == (p[i], Value(calls, local, p[i..]));
    FromIsSimplePath(calls, p, entry, {});
    assert i == 0 && p[0..] == p;
  }

  lemma AssigningLowersNothing(calls: Calls, local: LoopDepths, entry: string, before: LoopDepths, g: LoopDepths,
                               depth: int)
    requires entry in calls && entry !in before && Raised(before, g, SeenFrom(calls, local, entry, {}))
    requires Greatest(depth, ValuesFrom(calls, local, entry, {}))
    ensures g[entry := depth] == g
  {
    hide SeenFrom, ValuesFrom;
    StartIsSeen(calls, local, entry, depth);
    assert (entry, g[entry]) in SeenFrom(calls, local, entry, {});
    SeenAtStart(calls, local, entry, g[entry]);
  }
}
