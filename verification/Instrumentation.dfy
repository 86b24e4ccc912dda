/**
 Which nodes are instrumented (pgis/lib/include/MetaData/PGISMetaData.h), and what the phases
 want to know about a node.
 */
module Instrumentation {
  import opened CallgraphModel
  import opened Optional

  datatype State = NotInstrumented | Instrumented | InstrumentedPath

  /** What an earlier measurement says about a node. */
  datatype Measured = Measured(callCount: real, isExclusiveRuntime: bool)

  datatype NodeFacts = NodeFacts(hasBody: bool, isMPIFunction: bool, measured: Option<Measured>, callsFromParents: real)
  {
    /** Measured exclusively, and never called. */
    predicate NeverCalled() {
      measured.Some? && measured.value.callCount == 0.0 && measured.value.isExclusiveRuntime
    }

    function Calls(): real {
      if measured.Some? then measured.value.callCount else callsFromParents
    }
  }

  datatype Options = Options(useCSInstrumentation: bool, onlyEligibleNodes: bool)
  {
    predicate AsFunction(f: NodeFacts) {
      f.hasBody || f.isMPIFunction || (!onlyEligibleNodes && !useCSInstrumentation)
    }
  }

  class Marks {
    var state: map<NodeId, State>

    constructor ()
      ensures state == map[]
    {
      state := map[];
    }

    predicate IsAnyInstrumented(n: NodeId)
      reads this
    {
      n in state && state[n] != NotInstrumented
    }

    function All(): (r: set<NodeId>)
      reads this
      ensures forall n :: n in r <==> IsAnyInstrumented(n)
    {
      set n | n in state && state[n] != NotInstrumented
    }

    method InstrumentNode(n: NodeId)
      modifies this
      ensures state == old(state)[n := Instrumented] && All() == old(All()) + {n}
    {
      state := state[n := Instrumented];
    }

    method InstrumentPathNode(n: NodeId)
      modifies this
      ensures state == old(state)[n := InstrumentedPath] && All() == old(All()) + {n}
    {
      state := state[n := InstrumentedPath];
    }
  }
}
