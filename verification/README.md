# Verified model of the MetaCG call-graph algorithms

This project models the parts of MetaCG that change whole-program state, and proves what
they are for.  `dafny verify dfyconfig.toml` checks everything.

* **Alias analysis** (`Lists`, `Labellings`, `ObjectNames`, `AliasAnalysis`, `Extractor`).
  Objects are kept in equivalence classes, and each class stores prefixes: the object one
  dereference or one member selection away.  Merging two classes throws a conflicting prefix
  away and queues its target.  The central invariant (`Complete`) says that every prefix edge
  ever known is still represented *up to the pairs that are pending*, so that it holds inside
  nested merges as well.  With nothing pending the partition is a congruence, and it is the
  least one.
* **Whole-program merge** (`Absorb`, `CGMerge`, `AliasFile`, `ManyFiles`, `ManyEntries`,
  `WholeProgram`, `LateEntry`, `FileOrder`, `LeastExists`, `ManyOrders`).
  Files are absorbed one after the other; the result is the least solution of all their
  constraints, and the call graph gains exactly the edges of calls that meet a function.  What
  the files demand together is also stated without any order (`ManyOrders.Ideal`), which is
  what shows when the order of the files is immaterial.
* **Dominators** (`Dominators`, `SharedCallers`, `RecursiveEntry`, `CallgraphDominators`), compared
  with the definition by paths.
* **The call graph** (`Optional`, `Callgraph`, `CallgraphMerge`, `GraphManager`): five redundant indexes,
  merging by name, and merging all managed graphs in any order.
* **Analyses on the graph** (`GlobalCallDepth`, `CallPaths`, `ReachabilityAnalysis`,
  `Instrumentation`, `GapFilling`, `ExplorationBudget`).
* **Files** (`NodeIds`, `V4Format`, `V4Reader`, `RoundTrip`, `V2Format`, `V2RoundTrip`).

Classes of the source are classes here, with their fields; list iterators are class ids in a
store; pointers to graph nodes are node ids; JSON values are records and maps.  Where the
source walks an unordered container, the model takes the elements in an arbitrary order, and
what is proved holds for every order.  Preconditions are the source's assertions and look-ups
that would throw: for instance every object that a program refers to has a class
(`InformationKnown`), and no slot of a merged graph has been erased.

## What turned out otherwise than its documentation suggests

* **File order matters** for `mergeEquivalenceClasses`.  cgcollector/tools/CGMerge.cpp:291
  expects a declaration to list no returned objects, but every function lists at least its
  symbolic result (cgcollector/lib/include/AliasAnalysis.h:277-281), so a declaring file that
  comes first drops the returned objects of the defining one.  The two orders give one
  partition if and only if neither result has lost a returned object
  (`FileOrder.FileOrderExact`).  For any number of files, all orders give one partition if and
  only if none of them loses a returned object (`ManyOrders.OrderExact`).  Before the merge one
  can tell: the order is immaterial if the lists agree up to what is equivalent without
  resolving any call (`FileOrder.FileOrderImmaterial`; for any list of files, call edges
  included, `ManyOrders.ManyFilesImmaterial`), and it matters whenever nothing but a dropped
  list relates some object to a call that meets the function within one file
  (`FileOrder.LostObject`).  `FileOrder.FileOrderMatters` gives two such files and both results.
* **An entry can come too late for its callers.**  Call edges are added when alias data are
  merged.  A function whose first entry is in a file behind the last one with alias data never
  lists the callers found by alias analysis, although they list it
  (cgcollector/tools/CGMerge.cpp:237-240 warns).  The call graph has all edges that were found
  if and only if each such function lists its own already (`ManyEntries.EdgesComplete`);
  `LateEntry.CallerIsMissing` is a run of two files for which it does not.
* **Dominators of a recursive entry.**  The start node's own callers are intersected too
  (graph/include/DominatorAnalysis.h:99-107).  A run that ends is exact if and only if no other
  node dominates all reachable callers of the start node (`SharedCallers.EveryRun`, for every
  graph and direction).  Two functions that call each other are enough for a run that ends
  wrongly (`RecursiveEntry.EndsWrongly`).  It need not end: with the calls 0 -> {1, 2}, 1 -> 0, 2 -> 3 -> 0 it
  goes on for ever if the callees of 0 are enumerated as 1, 2 (`RecursiveEntry.NeverEnds`),
  and ends with the exact sets if they are enumerated as 2, 1
  (`RecursiveEntry.EndsInOtherOrder`); the source enumerates an unordered set.
  `Dominators.ComputeDominators` is proved to end and to be exact for start nodes that no
  reachable node calls, and for all that call themselves.
* **A graph kept under the empty name is never merged**: graph/src/MCGManager.cpp:51-53
  answers the empty name with the active graph, which is then merged into itself
  (`GraphManager.MCGManager.MergeIntoActiveGraph`; `GraphManager.EmptyNameIsLeftOut` builds such
  a manager).
* **Origins depend on the merge order** unless just one graph defines the function or the
  origins agree (`GraphManager.OriginOrder`; two such graphs: `GraphManager.OriginsDiffer`).
* **Gap filling can leave a gap**, in two cases and no others (`GapFilling.GapsClosed`, an
  if-and-only-if for every graph and every choice the phase may make).  Either main itself is
  newly instrumented because of nodes that main does not reach, and main can be called again
  (`GapFilling.GapThatIsLeft` builds such a graph).  Or a wanted node was left out, because the
  nodes to fill are kept under their names and another wanted node has the same one.  Before
  the phase one can tell (`GapFilling.GapsForeseen`): two wanted nodes of one name that could
  both be instrumented leave a gap whichever is chosen (`GapFilling.TwinLeftOut` gives such a
  graph); and if no wanted node that could be instrumented shares its name with another wanted
  one, as when names are unique, only the first case remains.  In between the choice decides
  (`GapFilling.ForesightIsSharp`).
* **Names as ids can clash**: a function that is itself named like `f#0` collides with one of
  two functions `f`.  Different nodes get different strings if and only if there is no such
  name (`NodeIds.NameIdsDiffer`), and only then does a graph survive (`RoundTrip.WriteAndRead`;
  `RoundTrip.NamesThatClash` builds one that does not).
* **Version 2 keeps a graph** if and only if its names are unique and no origin is the empty
  string (`V2RoundTrip.WriteAndReadV2`; `V2RoundTrip.OriginThatIsLost` and
  `V2RoundTrip.NamesThatAreLost` build one of each kind); the writer only warns about several
  nodes of one name.

## Model

| member | source | states |
|---|---|---|
| ObjectNames.PrefixEdgesFunctional | cgcollector/lib/src/AliasAnalysis.cpp:411-440 | under one member (or dereference) an object has one target only |
| ObjectNames.ReprMeans | cgcollector/lib/src/AliasAnalysis.cpp:1097-1153 | a declaration is written as its name, a member as base, dot and member name, and every dereference or address-of adds one character in front |
| ObjectNames.PrefixEdgeMeans | cgcollector/lib/src/AliasAnalysis.cpp:411-440 | told by name and level: the edges lead from a known name to the same name dereferenced once more, and from a known object to each known member of it |
| ObjectNames.FunctionsMean | cgcollector/lib/src/AliasAnalysis.cpp:400-409 | exactly function declarations at level zero and their addresses count as functions, and members never do |
| ObjectNames.InitEquivClasses | cgcollector/lib/src/AliasAnalysis.cpp:400-409 | every object starts alone in its class; functions and their addresses, and nothing else, are recorded as functions |
| ObjectNames.InitPrefixClasses | cgcollector/lib/src/AliasAnalysis.cpp:411-440 | the stored prefixes are exactly the dereference and member edges among the known objects |
| ObjectNames.SingletonsComplete | cgcollector/lib/src/AliasAnalysis.cpp:400-440 | the initial classes satisfy all invariants: one partition, every prefix edge represented, nothing joined |
| ObjectNames.InitContainer | cgcollector/lib/src/AliasAnalysis.cpp:442-446 | the analysis starts from a valid container in which no two objects are equivalent |
| Labellings.RelabelIsLeast | cgcollector/lib/src/AliasAnalysis.cpp:1430-1436 | giving two classes one new label yields the least equivalence that joins them |
| AliasAnalysis.CompleteIsCongruent | cgcollector/lib/src/AliasAnalysis.cpp:1449-1467 | with nothing pending, equal objects have equal targets under every member, over all original prefix edges, although conflicting prefixes were thrown away |
| AliasAnalysis.GetPrefixesToMerge | cgcollector/lib/src/AliasAnalysis.cpp:1449-1467 | prefixes stay functional per member; each added prefix is stored, or the pair of its target and the stored target of that member is queued; nothing else is queued |
| AliasAnalysis.MergeStep | cgcollector/lib/src/AliasAnalysis.cpp:1415-1447 | one merge keeps partition, soundness and completeness with the queued pairs pending, and joins nothing that is not forced |
| AliasAnalysis.MergeKeepsComplete | cgcollector/lib/src/AliasAnalysis.cpp:1426-1439 | every original prefix edge is still represented up to any equivalence that joins the pending pairs and the newly queued ones |
| AliasAnalysis.QueuedPairsForced | cgcollector/lib/src/AliasAnalysis.cpp:1458-1460 | every congruence that joins two classes also joins each pair queued for them |
| AliasAnalysis.EquivClassContainer.InitReferencedInCalls | cgcollector/lib/src/AliasAnalysis.cpp:1293-1301 | the index lists for each object exactly the calls that name it as called |
| AliasAnalysis.EquivClassContainer.Splice | cgcollector/lib/src/AliasAnalysis.cpp:1430-1446 | class list, classes and index after a merge: the two classes replaced by one, every object of both relabelled, the stored prefixes possibly duplicated |
| AliasAnalysis.EquivClassContainer.Merge | cgcollector/lib/src/AliasAnalysis.cpp:1415-1447 | the container stays valid with the queued pairs pending; the class count drops by one; the least equivalence above the old one and the merged pair |
| AliasAnalysis.EquivClassContainer.GetFunctionsToMerge | cgcollector/lib/src/AliasAnalysis.cpp:1395-1413 | lists every function and call of the class, and only pairs that share a class |
| AliasAnalysis.EquivClassContainer.MergeRecursive | cgcollector/lib/src/AliasAnalysis.cpp:1305-1325 | terminates; joins the two objects and only what every congruence above the old partition joins with them; a congruence if nothing was pending; the returned list holds every function and call that became equivalent, and no others |
| AliasAnalysis.EquivClassContainer.Unify | cgcollector/lib/src/AliasAnalysis.cpp:1366-1370 | looking up, comparing and merging two objects: a nonempty list of follow-ups means that the number of classes dropped |
| AliasAnalysis.EquivClassContainer.MergeFunctionCallImpl | cgcollector/lib/src/AliasAnalysis.cpp:1341-1393 | the formal at each position becomes equivalent to all objects of the actual at that position, the call to everything returned, and every congruence above the old partition with just these equalities is above the new one |
| AliasAnalysis.CallPairsJoined | cgcollector/lib/src/AliasAnalysis.cpp:1352-1378 | an equivalence agrees with a call of a function if and only if it joins each formal with the actuals at its position and the call with everything returned |
| AliasAnalysis.ClosedMeans | cgcollector/lib/src/AliasAnalysis.cpp:1341-1413 | closed means, told by positions: equivalent objects have equivalent targets, and wherever a called object is equivalent to a function, formals, actuals and results are joined |
| AliasAnalysis.EquivClassContainer.MergeFunctionCall | cgcollector/lib/src/AliasAnalysis.cpp:1327-1339 | the same for the function behind an object, with the names of caller and callee |
| AliasAnalysis.DrainedIsClosed | cgcollector/lib/src/AliasAnalysis.cpp:1341-1413 | when all meetings have been resolved, every function and call in one class agree in arguments and results |
| AliasAnalysis.DrainStep | cgcollector/lib/src/AliasAnalysis.cpp:582-588 | resolving one listed meeting and then its follow-ups leaves no meeting unlisted |
| Extractor.ASTInformationExtractor.MergeFunctionCall | cgcollector/lib/src/AliasAnalysis.cpp:578-590 | terminates despite the recursion; a cached pair changes nothing; on return every pair in the cache is resolved, and the call edges are those of the pairs handled |
| Extractor.ASTInformationExtractor.Drain | cgcollector/lib/src/AliasAnalysis.cpp:586-588 | all listed meetings and all that they cause are resolved, although the cache skips pairs still in progress |
| Extractor.ASTInformationExtractor.Merge | cgcollector/lib/src/AliasAnalysis.cpp:459-464 | if all cached pairs were resolved on entry, every pair that became equivalent by the merge is resolved on return, and only forced objects are joined |
| Extractor.ASTInformationExtractor.HandleMerges | cgcollector/lib/src/AliasAnalysis.cpp:466-483 | all given pairs end up joined, with every new meeting resolved (the same loop serves assignments, members and overrides) |
| Extractor.CacheGrows | cgcollector/lib/src/AliasAnalysis.cpp:578-583 | pairs resolved earlier stay resolved while one more call is merged |
| Extractor.CallNameMeans | cgcollector/lib/src/AliasAnalysis.cpp:584-585 | the call edges of resolved pairs lead from the function that contains the call to the function it meets, and there are no others |
| Absorb.SortUnique | cgcollector/lib/src/AliasAnalysis.cpp:1442-1443 | sorting and removing duplicates keeps exactly the elements |
| Absorb.SortUniqueAscending | cgcollector/lib/src/AliasAnalysis.cpp:1442-1443 | under a total order every element of the result comes strictly before all later ones |
| Absorb.StringOrderIsTotal | cgcollector/tools/CGMerge.cpp:376-378 | objects are compared by a total order |
| Absorb.StringLessMeans | cgcollector/tools/CGMerge.cpp:376-378 | strings are compared at the first character where they differ, and a prefix comes first |
| Absorb.PrefixOrderIsTotal | cgcollector/lib/src/AliasAnalysis.cpp:1231-1239 | so are prefixes, although a missing member is compared last |
| Absorb.ExtendStep | cgcollector/tools/CGMerge.cpp:373-387 | adding a class to the one class it overlaps keeps every invariant with the queued pairs pending, and joins exactly what the class forces |
| Absorb.Insert | cgcollector/tools/CGMerge.cpp:331-335 | a class of new objects is taken over with all its prefix edges |
| Absorb.Extend | cgcollector/tools/CGMerge.cpp:323-330 | a class that overlaps one known class is added to it |
| Absorb.JoinOverlapping | cgcollector/tools/CGMerge.cpp:337-365 | all known classes that a class overlaps are joined into one, and nothing else that this does not force |
| Absorb.AbsorbClass | cgcollector/tools/CGMerge.cpp:323-389 | whichever of the three cases applies, the objects of the class end up together and its prefix edges are represented up to the queued pairs |
| Absorb.StoredPrefixesSuffice | cgcollector/tools/CGMerge.cpp:314-390 | a congruence above a file's partition for its stored prefixes is one for all its original prefix edges, and conversely |
| Absorb.AbsorbAll | cgcollector/tools/CGMerge.cpp:310-390 | after all classes of the second file, both partitions are contained, both files' prefix edges are represented up to the queued pairs, and nothing more is joined than these force |
| CGMerge.CallGraphJson.AddCaller | cgcollector/tools/CGMerge.cpp:220-244 | one caller name gains all callee names, and each callee with an entry gains the caller |
| CGMerge.AddCallToCallGraph | cgcollector/tools/CGMerge.cpp:212-245 | exactly the edges between all mangled names of caller and callee are added, at both ends, told name by name |
| CGMerge.CallGraphJson.MergeEntries | cgcollector/tools/CGMerge.cpp:70-174 | the entries of one more file are merged name by name: callers always, callees of a new name or a definition only, a body if either has one |
| CGMerge.MeetingEdge | cgcollector/tools/CGMerge.cpp:247-256 | an edge belongs to some resolved meetings if and only if one of them has a call in a function of the first name and a function of the second, the same function included |
| CGMerge.CallsAreEdges | cgcollector/tools/CGMerge.cpp:212-245 | with all meetings resolved, a name is among the callees of an entry if and only if it was or some call in a function of the entry's name has a called object equivalent to a function of that name; likewise the callers |
| CGMerge.EdgesBehindEntries | cgcollector/tools/CGMerge.cpp:70-180 | edges added before a file's entries were merged are as if added afterwards, once they are found again |
| CGMerge.MergeFunctionCall | cgcollector/tools/CGMerge.cpp:247-256 | terminates without a cache; the call and everything that its resolution makes meet are resolved; callees and callers gain exactly the names at the two ends of these meetings |
| CGMerge.MergeFunctionInfos | cgcollector/tools/CGMerge.cpp:275-296 | what is known of a function is kept, returned objects are taken over only if none were known, and exactly the differing formals are queued |
| CGMerge.MergedValues | cgcollector/tools/CGMerge.cpp:268-308 | what the first file says of a name goes first, and the second file's returned objects count only if the first lists none |
| CGMerge.FormalsArePairs | cgcollector/tools/CGMerge.cpp:284-290 | joining the queued formals means that the formals of every shared function are equivalent, position by position |
| CGMerge.MergeProgramData | cgcollector/tools/CGMerge.cpp:268-308 | functions, calls and parents of both files, the first file's entries kept, and the call index up to date |
| CGMerge.MergeQueued | cgcollector/tools/CGMerge.cpp:392-398 | all queued targets are joined and nothing is pending any more |
| CGMerge.MergeParams | cgcollector/tools/CGMerge.cpp:400-407 | the formals of shared functions are joined position by position |
| CGMerge.SeedMeetings | cgcollector/tools/CGMerge.cpp:409-411 | every function and call in one class is on the work list |
| CGMerge.MergeEquivalenceClasses | cgcollector/tools/CGMerge.cpp:264-416 | the partition is the least one that contains both files' partitions, is closed under both files' prefix edges, joins the formals of shared functions and is closed under call resolution; a callee or caller is in an entry if and only if it was, or if some call in a function of the one name has a called object equivalent to a function of the other |
| CGMerge.SolutionMeans | cgcollector/tools/CGMerge.cpp:264-416 | a solution contains both partitions, joins shared formals position by position and is closed; the least one joins only what every solution joins |
| CGMerge.LeastSolutionUnique | cgcollector/tools/CGMerge.cpp:264-416 | so the partition does not depend on the order of any list |
| AliasFile.FromJson | cgcollector/lib/include/AliasAnalysis.h:657-671 | rebuilding the index from the class list gives a valid container |
| AliasFile.WriteReadBack | cgcollector/lib/include/AliasAnalysis.h:650-671 | writing and reading keeps the partition, and a partition above it is congruent for the edges read back if and only if it is for the original ones |
| ManyFiles.NextFile | cgcollector/tools/CGMerge.cpp:176-180 | the least solution for the files so far, merged with one more file, is the least solution for all of them |
| WholeProgram.EdgesFoundAgain | cgcollector/tools/CGMerge.cpp:409-415 | no call edge found for earlier files is lost or renamed by a later one |
| WholeProgram.MergeFile | cgcollector/tools/CGMerge.cpp:176-180 | the alias data of one more file: least solution and meetings of all files so far, and all edges found so far also reach the entries that have come since |
| WholeProgram.MergeNext | cgcollector/tools/CGMerge.cpp:64-181 | one more file, with or without alias data: its entries first |
| WholeProgram.MergeFiles | cgcollector/tools/CGMerge.cpp:61-181 | over any list of files, with and without alias data, the partition is the least solution for those that have some; a name is among an entry's callees or callers if and only if the files say so, or some call may connect the two functions and the entry was there by the last file with alias data |
| ManyEntries.EdgesBehindAll | cgcollector/tools/CGMerge.cpp:70-180 | edges added before the entries of any number of further files are as if added behind them, once they are found again |
| ManyEntries.EntriesSay | cgcollector/tools/CGMerge.cpp:64-174 | over any list of files an entry has all callers that some file lists, and the callees of the first entry of its name and of every entry with a body |
| ManyEntries.LateEntries | cgcollector/tools/CGMerge.cpp:234-242 | an entry has all the edges if it was there when they were added, and what its files say otherwise |
| ManyEntries.EdgesComplete | cgcollector/tools/CGMerge.cpp:234-242 | the call graph has all edges found if and only if every function whose first entry comes behind the last alias data lists its own already |
| LateEntry.CallerIsMissing | cgcollector/tools/CGMerge.cpp:234-242 | a run in which the caller lists the callee, and the callee does not list the caller |
| FileOrder.FileOrderExact | cgcollector/tools/CGMerge.cpp:264-416 | the two orders of two files give one partition if and only if in neither result a call that meets a function has lost an object that one of the files says is returned |
| FileOrder.FileOrderImmaterial | cgcollector/tools/CGMerge.cpp:291-294 | files whose returned objects agree up to every equivalence that holds both partitions, both files' prefix edges and the shared formals, give one partition in either order |
| FileOrder.SecondListIgnored | cgcollector/tools/CGMerge.cpp:291-294 | behind a nonempty list the result is the same whatever the second file says is returned |
| FileOrder.LostObject | cgcollector/tools/CGMerge.cpp:291-294 | whenever nothing but the dropped list relates an object to a call that meets the function within one of the files, the orders differ: one finds the object, the other loses it |
| FileOrder.ExampleIsKnown | cgcollector/lib/include/AliasAnalysis.h:277-281 | a file that declares and calls a function and a file that defines it are as the merge demands |
| FileOrder.ExampleIsApart | cgcollector/tools/CGMerge.cpp:291-294 | only the dropped list relates the defined function's result to anything |
| FileOrder.ExampleLosesX | cgcollector/tools/CGMerge.cpp:291-294 | so whatever the two results are, one has the call equivalent to what the function returns and the other has not |
| FileOrder.FileOrderMatters | cgcollector/tools/CGMerge.cpp:291-294 | both results for these two files, and that they differ |
| ManyOrders.FoldedDescribes | cgcollector/tools/CGMerge.cpp:268-308 | which functions, calls, parents and descriptions the merged program has does not depend on the order, but for the file that returned objects are taken from |
| ManyOrders.SolvesIdeal | cgcollector/tools/CGMerge.cpp:264-416 | the equivalences that respect all that any file says, stated without an order, are for every order the solutions that lose no returned object |
| ManyOrders.ContainsMeans | cgcollector/tools/CGMerge.cpp:310-407 | by the files' own fields: every partition, the prefix edges of any two files together, and the formals that any two files give a function |
| ManyOrders.IdealMeans | cgcollector/tools/CGMerge.cpp:409-415 | by the files' own fields: any call of any file that may reach a function of any file agrees with what any file says of that function |
| ManyOrders.OrdersAgree | cgcollector/tools/CGMerge.cpp:264-416 | two orders of the same files that lose nothing have one partition |
| ManyOrders.OrderExact | cgcollector/tools/CGMerge.cpp:264-416 | all orders of any list of files, repetitions included, have one partition if and only if no order loses an object that one of the files says is returned |
| ManyOrders.ManyFilesImmaterial | cgcollector/tools/CGMerge.cpp:264-416 | files whose returned objects agree before any call is resolved give one partition and one set of call edges in any order and however often each is merged |
| LeastExists.SolutionExists | cgcollector/tools/CGMerge.cpp:264-416 | every list of files has a least solution, whatever the files say |
| LeastExists.IntersectionIsForced | cgcollector/tools/CGMerge.cpp:264-416 | finitely many labels suffice for the equivalence of all objects that are equivalent in every solution |
| Dominators.UnorderedIntersection | graph/include/DominatorAnalysis.h:33-42 | the common elements, in any order of enumeration |
| Dominators.Intersection | graph/include/DominatorAnalysis.h:45-64 | the elements common to all listed nodes' sets; none for an empty list |
| Dominators.NewDomsContains | graph/include/DominatorAnalysis.h:99-107 | the recomputed set holds the node itself and what all initialised predecessors share |
| Dominators.StepKeepsInv | graph/include/DominatorAnalysis.h:95-122 | every iteration keeps: only reached nodes are touched, the equations hold wherever nothing is queued, and no dominator is missing |
| Dominators.RunKeepsInv | graph/include/DominatorAnalysis.h:95-122 | the invariant holds after any number of iterations, on any graph |
| Dominators.EndIsExact | graph/include/DominatorAnalysis.h:66-125 | a step towards SharedCallers.EveryRun: when the queue is empty, exactly the reached nodes are initialised, and the sets are exact once the start node has come out alone in its own |
| SharedCallers.SharedCallerDominator | graph/include/DominatorAnalysis.h:99-107 | a node that dominates all reachable callers of the start node is reported as a dominator of the start node |
| SharedCallers.StepPassesOn | graph/include/DominatorAnalysis.h:89-122 | because the queue is served in order, a node whose set lacks d has passed this on to its callees, or will before it can be recomputed |
| SharedCallers.RunLeavesSome | graph/include/DominatorAnalysis.h:95-122 | on every cycle through the start node that avoids d, after every number of iterations, some node's set lacks d |
| SharedCallers.EveryRun | graph/include/DominatorAnalysis.h:66-125 | for every graph, direction and start node, a run that ends is exact if and only if no other node dominates all reachable callers of the start node |
| Dominators.StepDecreases | graph/include/DominatorAnalysis.h:109-122 | with a start node that is not entered again, an iteration removes something from the sets or leaves them and shortens the queue |
| Dominators.ComputeDominators | graph/include/DominatorAnalysis.h:66-125 | for a start node that calls itself or that no reachable node calls: terminates; the initialised nodes are exactly those reached, and d is in the set of n if and only if d is on every path from the start to n |
| CallgraphDominators.SameEdges | graph/include/DominatorAnalysis.h:70-82 | the analysis walks exactly along the edges of the call graph, or against them |
| CallgraphDominators.DominatorsOf | graph/include/DominatorAnalysis.h:66-125 | the same result told by the paths of the call graph |
| RecursiveEntry.NeverEnds | graph/include/DominatorAnalysis.h:95-122 | on one valid graph with two cycles through the start node, for one order of enumeration, the queue never becomes empty |
| RecursiveEntry.EndsInOtherOrder | graph/include/DominatorAnalysis.h:95-122 | with the other order the same calls are done after five iterations, with exactly the dominators |
| RecursiveEntry.EndsWrongly | graph/include/DominatorAnalysis.h:95-122 | for two functions that call each other the run ends after four iterations and reports that the start node is dominated by the other one |
| CallgraphModel.Callgraph.GetNode | graph/src/Callgraph.cpp:242-247 | live ids give the node in their slot; the id just behind the last one is out of range, all later ones give nothing |
| CallgraphModel.Callgraph.GetFirstNode | graph/src/Callgraph.cpp:216-224 | the live node of a name with the smallest id, if there is one |
| CallgraphModel.Callgraph.GetNodeCount | graph/src/Callgraph.cpp:251 | the number of live nodes |
| CallgraphModel.Callgraph.GetCallees | graph/src/Callgraph.cpp:383-393 | exactly the targets of edges from the node |
| CallgraphModel.Callgraph.GetCallers | graph/src/Callgraph.cpp:402-412 | exactly the sources of edges to the node |
| CallgraphModel.Callgraph.GetMain | graph/src/Callgraph.cpp:18-40 | the cached node unless recomputation is forced, else the first node of the first known name for an entry function |
| CallgraphModel.FirstOfMeans | graph/src/Callgraph.cpp:33-39 | either no node has any of the names, or the oldest node of the first name that any node has is found |
| CallgraphModel.Callgraph.Insert | graph/src/Callgraph.cpp:42-54 | a new node with the next id; all indexes stay consistent, and duplicates are noted |
| CallgraphModel.Callgraph.GetOrInsertNode | graph/src/Callgraph.cpp:96-103 | the first node of the name; inserted only if the name had none |
| CallgraphModel.Callgraph.AddEdge | graph/src/Callgraph.cpp:136-148 | the edge is added if and only if both ends are live and it is new; when it throws; all indexes stay consistent |
| CallgraphModel.Callgraph.AddEdgeByName | graph/src/Callgraph.cpp:150-157 | added only if each name has exactly one node |
| CallgraphModel.Callgraph.RemoveEdge | graph/src/Callgraph.cpp:159-170 | the edge goes from the edge set and both lists, and nothing else |
| CallgraphModel.Callgraph.EraseOutgoing | graph/src/Callgraph.cpp:61-66 | first phase: all edges from the node go, from the caller lists as well, a self-loop included |
| CallgraphModel.Callgraph.EraseIncoming | graph/src/Callgraph.cpp:67-72 | second phase: all edges to the node go, the node's own callee list being gone already |
| CallgraphModel.Callgraph.EraseNode | graph/src/Callgraph.cpp:56-94 | the slot is emptied, an edge is left if and only if it was there and does not touch the node, the cached main node is forgotten only if it is this one, and all five indexes stay consistent |
| CallgraphModel.Callgraph.Clear | graph/src/Callgraph.cpp:105-114 | an empty, valid graph |
| CallgraphModel.IdsOfErased | graph/src/Callgraph.cpp:89-90 | erasing a node takes its id out of the list of its own name and leaves every other list |
| CallgraphMerge.FindMatchingNode | graph/src/MergePolicy.cpp:13-34 | the first node of the same name, to be replaced if and only if only the source has a body |
| CallgraphMerge.WinnerIsFirstDefinition | graph/src/MergePolicy.cpp:27-33 | of all nodes merged into one, the first with a body wins, or the first of all if none has one; so the body flag is the OR of all |
| CallgraphMerge.MergedNode | graph/src/Callgraph.cpp:260-281 | the node of each name after the merge is the winner among the target's first node and all sources of the name, under the id it had |
| CallgraphMerge.MergedIds | graph/src/Callgraph.cpp:260-281 | names that were known keep exactly their ids, and a new name gets exactly one new id |
| CallgraphMerge.OtherNodesKept | graph/src/Callgraph.cpp:260-281 | no id or name of an old node changes, and no node that is not the first of its name changes at all |
| CallgraphMerge.KnownStays | graph/src/MergePolicy.cpp:13-34 | the oldest node of a name stays as it is if it has a body or no source of the name has one |
| CallgraphMerge.KnownIsDefined | graph/src/MergePolicy.cpp:13-34 | otherwise it takes over body and origin from the first source of the name that has a body |
| CallgraphMerge.NewIsDefined | graph/src/Callgraph.cpp:260-281 | a name that had no node gets exactly one behind all others: the first source of the name with a body, or the first of all if none has one |
| CallgraphMerge.YoungerStays | graph/src/MergePolicy.cpp:13-26 | a node that is not the oldest of its name does not change |
| CallgraphMerge.MergeAllNodes | graph/src/Callgraph.cpp:260-281 | the mapping is total and sends each source to the first node of its name; an action is recorded exactly for sources that were not the first candidate, and replaces exactly for the first definition |
| CallgraphMerge.ActionsMean | graph/src/Callgraph.cpp:260-281 | an action is recorded for a source if and only if its name had a node in the target or an earlier source, and it replaces if and only if the source has a body and none of these has |
| CallgraphMerge.MergeEdges | graph/src/Callgraph.cpp:288-298 | an edge is there afterwards if and only if it was, or if it joins the nodes that the ends of some source edge are mapped to |
| CallgraphMerge.Merge | graph/src/Callgraph.cpp:255-351 | the whole merge on nodes and edges, the graph merged into itself included: every source is mapped to the oldest node of its name, edges follow the mapping, and the cached main node is reset |
| GraphManager.MergeIsUnion | graph/src/Callgraph.cpp:255-298 | names, defined names and name-to-name edges of the merged graph are the unions of those of both graphs |
| GraphManager.NamesMean | graph/src/Callgraph.cpp:255-298 | what these sets are in terms of nodes: a node has the name, a node with a body has it, an edge leads from a node of the one name to one of the other |
| GraphManager.NamesStayUnique | graph/src/Callgraph.cpp:260-281 | a target with unique names keeps them unique, whatever is merged into it |
| GraphManager.MergeIsIdempotent | graph/src/Callgraph.cpp:255-298 | merging the same graph again changes neither a node nor an edge |
| GraphManager.OriginOrder | graph/src/MergePolicy.cpp:27-33 | two graphs give a function the same origin in both orders if and only if exactly one defines it or the origins agree |
| GraphManager.OriginsDiffer | graph/src/MergePolicy.cpp:27-33 | two one-node graphs for which the order decides |
| GraphManager.MCGManager.AddToManagedGraphs | graph/src/MCGManager.cpp:88-95 | the graph is kept under its name and becomes active if asked for |
| GraphManager.MCGManager.MergeIntoActiveGraph | graph/src/MCGManager.cpp:97-111 | in any order of the names: a name, a definition or a call between names is in the active graph if and only if it was, or if it is in some graph kept under a nonempty name; the other graphs are untouched |
| GraphManager.EmptyNameIsLeftOut | graph/src/MCGManager.cpp:51-53 | a manager whose graph under the empty name does not get into the merged one |
| GlobalCallDepth.FromIsSimplePath | cgcollector/lib/src/GlobalCallDepth.cpp:11-25 | the paths that the recursion follows are exactly the simple paths that avoid the visited functions |
| GlobalCallDepth.DepthSearch.GetCallDepth | cgcollector/lib/src/GlobalCallDepth.cpp:8-34 | terminates and restores the visited set; returns the largest value of a simple path, and raises each function on such paths to the largest value of what follows it |
| GlobalCallDepth.FindEntryPoints | cgcollector/lib/src/GlobalCallDepth.cpp:64-86 | exactly the functions that nobody but themselves calls, or just the main function |
| GlobalCallDepth.DepthsMean | cgcollector/lib/src/GlobalCallDepth.cpp:48-62 | a function calls its callees and all functions that its metadata names, at the depth the metadata gives or else at zero |
| GlobalCallDepth.AssigningLowersNothing | cgcollector/lib/src/GlobalCallDepth.cpp:88-90 | storing what the search returns for an entry point changes nothing |
| GlobalCallDepth.EntriesApart | cgcollector/lib/src/GlobalCallDepth.cpp:64-90 | no path from one entry point reaches another |
| GlobalCallDepth.CalculateGlobalCallDepth | cgcollector/lib/src/GlobalCallDepth.cpp:36-96 | every function's depth is the largest of zero, its own loop depth, and the values of what follows it on simple paths from entry points |
| GlobalCallDepth.PathContributes | cgcollector/lib/src/GlobalCallDepth.cpp:11-33 | by the functions' own fields: on every path from an entry point without repetition, the call depths behind a function and the last function's own loop depth contribute to it |
| GlobalCallDepth.ContributingPath | cgcollector/lib/src/GlobalCallDepth.cpp:11-33 | conversely every contribution but zero and the own loop depth comes from such a path |
| Reachability.ReachabilityAnalysis.RunForNode | graph/src/ReachabilityAnalysis.cpp:13-39 | the cached set is exactly what the node reaches; terminates although visited nodes leave the queue again |
| Reachability.ReachabilityAnalysis.ExistsPathBetween | graph/src/ReachabilityAnalysis.cpp:55-66 | the answer is that of the graph as it is unless an outdated cache entry is used without force; on an unchanged graph no query spoils another |
| Reachability.ReachabilityAnalysis.GetReachableNodesFrom | graph/src/ReachabilityAnalysis.cpp:69-77 | the same for the whole set |
| Reachability.ReachabilityAnalysis.ComputeReachableFromMain | graph/src/ReachabilityAnalysis.cpp:41-45 | the set of the entry function is computed and cached |
| Reachability.ReachabilityAnalysis.IsReachableFromMain | graph/src/ReachabilityAnalysis.cpp:47-53 | the same for paths from the entry function |
| GapFilling.AllNodesToMain | pgis/lib/src/CgHelper.cpp:93-132 | the main node and exactly the nodes between the entry function and the start node, although nodes that main does not reach are not looked behind |
| GapFilling.FillInstrumentationGapsPhase.CollectNodesToFill | pgis/lib/src/IPCGEstimatorPhase.cpp:1391-1407 | one node for each name of the wanted nodes, and only wanted nodes |
| GapFilling.FillInstrumentationGapsPhase.FillAll | pgis/lib/src/IPCGEstimatorPhase.cpp:1408-1431 | exactly the collected nodes that can be instrumented are: as functions if they have a body, are MPI functions or no restriction is set, and else at their call sites; no other state changes |
| GapFilling.FillInstrumentationGapsPhase.ModifyGraph | pgis/lib/src/IPCGEstimatorPhase.cpp:1390-1432 | one wanted node of each name is chosen, and exactly the fillable ones among them are added; a gap is left if and only if main alone was added or a fillable wanted node was left out, which is foreseen as in GapsForeseen; with unique names all fillable wanted nodes are added |
| GapFilling.TriggerOnPath | pgis/lib/src/IPCGEstimatorPhase.cpp:1394-1398 | every path from a node not instrumented to an instrumented one passes an instrumented node with a parent that is not: the local test suffices |
| GapFilling.GapsClosed | pgis/lib/src/IPCGEstimatorPhase.cpp:1390-1432 | for every graph and every choice of one wanted node per name: a fillable node between main and an instrumented node is left uninstrumented if and only if main alone was added or a fillable wanted node was left out |
| GapFilling.GapsForeseen | pgis/lib/include/IPCGEstimatorPhase.h:55-60 | told before the phase: two fillable wanted nodes of one name always leave a gap; if no fillable wanted node shares its name with a wanted one, a gap is left if and only if main alone is added |
| GapFilling.ForesightIsSharp | pgis/lib/include/IPCGEstimatorPhase.h:55-60 | there is a choice that leaves nobody out if and only if no two fillable wanted nodes share a name, and one that leaves somebody out if and only if some fillable wanted node has a rival |
| GapFilling.GapThatIsLeft | pgis/lib/src/IPCGEstimatorPhase.cpp:1390-1432 | a graph as the phase demands, on which it leaves a gap |
| GapFilling.TwinLeftOut | pgis/lib/include/IPCGEstimatorPhase.h:55-60 | on a graph with two fillable wanted nodes of one name only the second case applies, and a gap is left whichever is chosen |
| Instrumentation.Marks.InstrumentNode | pgis/lib/include/MetaData/PGISMetaData.h:73-76 | one more instrumented node |
| ExplorationBudget.GreedyIsMaximal | pgis/lib/src/IPCGEstimatorPhase.cpp:621-628 | the greedy choice stays within the limit, and no affordable candidate left out would have fitted as well |
| ExplorationBudget.SelectionIsGood | pgis/lib/src/IPCGEstimatorPhase.cpp:617-645 | a selection is affordable, holds the most valuable affordable candidate, and is empty only if nothing is affordable |
| ExplorationBudget.GetNodesToInstrumentGreedyKnapsackOverhead | pgis/lib/src/IPCGEstimatorPhase.cpp:594-646 | the loop computes that selection and its total cost |
| ExplorationBudget.RuntimeEstimatorPhase.FilterEligible | pgis/lib/src/IPCGEstimatorPhase.cpp:481-502 | the candidates gain exactly the collected nodes that were not measured as never called, are called by their parents and can be instrumented, told by their facts |
| ExplorationBudget.RuntimeEstimatorPhase.InstrumentSelection | pgis/lib/src/IPCGEstimatorPhase.cpp:520-532 | exactly the selected nodes are instrumented, each as a function or at its call sites; their callees not instrumented by then are noted, each with all its selected callers |
| ExplorationBudget.NotedCallees | pgis/lib/src/IPCGEstimatorPhase.cpp:527-531 | told by edges: which callees are noted and with which parents; none is instrumented, and none is missing |
| ExplorationBudget.RuntimeEstimatorPhase.Round | pgis/lib/src/IPCGEstimatorPhase.cpp:515-537 | a round instruments a new node or finds no affordable candidate, stays within the budget, leaves no instrumented node among the candidates, and chooses in profit order as ProfitOrderMeans says |
| ExplorationBudget.InOrderKeepsOrder | pgis/lib/src/IPCGEstimatorPhase.cpp:518-519 | the candidates are listed as they stand in the profit order |
| ExplorationBudget.ChoiceFollowsOrder | pgis/lib/src/IPCGEstimatorPhase.cpp:617-645 | what the loop computes is a choice in profit order |
| ExplorationBudget.ProfitOrderMeans | pgis/lib/src/IPCGEstimatorPhase.cpp:617-645 | an affordable candidate is left out of the greedy choice only if it did not fit with those taken that stand before it; the most valuable one, the first among equals, is chosen alone if it was left out |
| ExplorationBudget.RuntimeEstimatorPhase.Explore | pgis/lib/src/IPCGEstimatorPhase.cpp:506-537 | terminates; the new nodes cost exactly what was used and no more than was available, and no remaining candidate is affordable |
| NodeIds.DecimalRoundTrip | graph/src/io/VersionFourMCGWriter.cpp:46 | a decimal id denotes its number and holds no hash mark |
| NodeIds.DecimalDigits | graph/src/io/VersionFourMCGWriter.cpp:46 | digit by digit, without leading zeros |
| NodeIds.IdStringMeans | graph/src/io/VersionFourMCGWriter.cpp:33-49 | the id in digits; or the name, and if another node has it, a hash mark and the number of older nodes of the name |
| NodeIds.NameIdsDiffer | graph/src/io/VersionFourMCGWriter.cpp:33-49 | names with numbers tell all nodes apart if and only if no name looks like a numbered one |
| NodeIds.HashFreeNames | graph/src/io/VersionFourMCGWriter.cpp:41-43 | which holds if no name has a hash mark |
| NodeIds.V4WriterMapping.GetStrFromNode | graph/src/io/VersionFourMCGWriter.cpp:23-30 | the memoised string is the one that conversion gives |
| V4Format.Write | graph/src/io/VersionFourMCGWriter.cpp:59-114 | the file has one entry for each string, that of the last node it stands for, and exactly the callees of the edges |
| V4Format.EntryMeans | graph/src/io/VersionFourMCGWriter.cpp:59-98 | the name, origin, body and metadata of an entry are those of the last node with its string |
| V4Format.EntriesMean | graph/src/io/VersionFourMCGWriter.cpp:59-114 | every node has an entry, and a string is among an entry's callees if and only if an edge leads from a node of the one string to one of the other |
| V4Reader.Read | graph/src/io/VersionFourMCGReader.cpp:131-172 | fails if and only if an entry is not well-formed or a callee has no entry; else a valid graph with exactly the entries' nodes and edges |
| V4Reader.ReadMeans | graph/src/io/VersionFourMCGReader.cpp:131-172 | one node for each entry, with the entry's name, origin and body, and an edge for each callee |
| RoundTrip.WrittenIsReadable | graph/src/io/VersionFourMCGWriter.cpp:59-114 | nothing that was written fails to be read |
| RoundTrip.V4RoundTrip | graph/src/io/VersionFourMCGReader.cpp:145-172 | what is read is isomorphic to what was written if and only if different nodes have different strings |
| RoundTrip.WriteAndRead | graph/src/io/VersionFourMCGWriter.cpp:59-114 | writing a graph and reading it never fails, and keeps it if and only if ids are used or no name looks like a numbered one |
| RoundTrip.NamesThatClash | graph/src/io/VersionFourMCGWriter.cpp:33-49 | a graph that does not survive with names as ids |
| V2Format.Downgrade | graph/src/io/VersionTwoMCGWriter.cpp:43-123 | every entry keeps its callees without duplicates, and its callers are exactly the inverse of the callees |
| V2Format.DowngradeNode | graph/src/io/VersionTwoMCGWriter.cpp:49-103 | erasing and adding fields one by one gives the node of version 2 that the round-trip lemmas speak of, with each callee listed once |
| V2Format.UpgradeNode | graph/src/io/VersionTwoMCGReader.cpp:80-127 | the same in the other direction; fails if and only if file properties lack an origin |
| V2Format.Upgrade | graph/src/io/VersionTwoMCGReader.cpp:76-130 | fails if and only if some node's file properties lack an origin; else every node is rewritten under its name |
| V2Format.NodeThereAndBack | graph/src/io/VersionTwoMCGWriter.cpp:49-103 | callees, body, override lists and other metadata of a node survive both conversions, and so does an origin unless it is empty |
| V2Format.FileThereAndBack | graph/src/io/VersionTwoMCGReader.cpp:80-127 | the same for all entries of a file, whose names become their keys |
| V2Format.LegacyFields | graph/src/io/VersionTwoMCGWriter.cpp:67-102 | each field of a version 2 node by the fields of the version 4 node: the override lists and the flags, the origin within the file properties, and null for empty metadata |
| V2Format.UpgradedFields | graph/src/io/VersionTwoMCGReader.cpp:80-127 | each field of the version 4 node by the fields of the version 2 node |
| V2Format.CallersTurnedRound | graph/src/io/VersionTwoMCGWriter.cpp:105-122 | a name is among the callers of an entry if and only if that entry is among its callees; nothing is listed twice |
| V2Format.LegacyThereAndBack | graph/src/io/VersionTwoMCGReader.cpp:80-127 | a node of a version 2 file comes back from version 4 unchanged if and only if its flags agree with its lists and its metadata is null when empty |
| V2RoundTrip.Write | graph/src/io/VersionTwoMCGWriter.cpp:15-41 | the written file is the downgrade of a version 4 file with names as ids |
| V2RoundTrip.Read | graph/src/io/VersionTwoMCGReader.cpp:65-74 | reading fails if and only if upgrading does or the upgraded file is not readable |
| V2RoundTrip.WrittenIsReadableAgain | graph/src/io/VersionTwoMCGWriter.cpp:15-41 | whatever graph was written in version 2 is read again without an error |
| V2RoundTrip.V2RoundTrip | graph/src/io/VersionTwoMCGWriter.cpp:15-41 | what is read back from version 2 is isomorphic to what was written if and only if names are unique and no origin is empty |
| V2RoundTrip.WriteAndReadV2 | graph/src/io/VersionTwoMCGWriter.cpp:15-41 | writing in version 2 and reading never fails, and keeps the graph under exactly that condition |
| V2RoundTrip.OriginThatIsLost | graph/src/io/VersionTwoMCGReader.cpp:98-104 | a graph with an empty origin does not survive |
| V2RoundTrip.NamesThatAreLost | graph/src/io/VersionTwoMCGWriter.cpp:17-23 | nor does one with two nodes of one name |

## Left out

- Clang, Flang and LLVM visitors, USR generation and mangling: extracted objects, assignments, calls and function descriptions are inputs.
- Metadata payloads, edge metadata and global metadata: they are dropped, except for origins and override lists in the file formats.
- The JSON merging of `mergeFileFormatOne`, and of anything but callees, callers and bodies in the entries of cgcollector/tools/CGMerge.cpp:70-174: `Callgraph::merge` covers the same ground.
- WholeProgram.MergeFiles: requires an entry for every caller named in alias data by the time these are merged, also for callers whose calls meet nothing, for which the source would not look one up.
- CallgraphModel.Callgraph.GetMain: looks for the entry function by name only, because the metadata that may name it is not modelled.
- Override closures in `JSONManager.cpp` and `LegacyMCGReader.cpp`, `getDescendants` and `getAncestors`: the same search as reachability, without anything harder.
- Kicking nodes, runtime estimation and the comparators' contents in `IPCGEstimatorPhase.cpp`: the profit order and the value of nodes are parameters, and so is eligibility for path instrumentation. Costs are real numbers, not floating-point ones.
- `filterEligible` before the exploration loop and instrumenting main after it: the loop starts from given candidates.
- Version headers, file properties other than the origin, sorting of written lists and null entries in files: they only add further error cases.
- Integer widths: depths, ids and counts are unbounded.
- Copy and move operations, iterators, logging, timing, configuration, command lines, Python bindings, and the tools cgdiff, cgformat and CGValidate.
- ExplorationBudget.RuntimeEstimatorPhase.Explore: requires call counts that are not negative, as counts are.
- Dominators.ComputeDominators: does not cover a start node that is called by a node it reaches and does not call itself, because the loop may then never end, depending on the order of enumeration; SharedCallers.EveryRun says for all runs that end whether they are exact.
- CallgraphDominators.DominatorsOf: leaves out the same start nodes.
- GraphManager.MCGManager.AddToManagedGraphs: requires that the active graph is not replaced under its name by one that does not become active, because the source would keep a pointer to the destroyed graph.
- FileOrder.FileOrderExact: its condition speaks of the two results, because what calls meet is itself a least solution; FileOrder.FileOrderImmaterial and FileOrder.LostObject speak of the files, and so does ManyOrders.ManyFilesImmaterial.
- Extractor.ASTInformationExtractor.Merge: says nothing of pairs that were equivalent from the start, because only the whole-program merge seeds those.
- CallgraphMerge.Merge: requires that no slot of the other graph has been erased, because the source looks into every slot; a graph merged into itself has to have unique names, because edges must not be added while they are enumerated.
