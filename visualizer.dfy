/**
 The visualizer component's effect, which runs again whenever its `states`
 change. Before each new run the previous run's cleanup stops that run's
 simulation, if that run registered a cleanup. The new run then either
 returns early (no drawing surface yet, or no states) or clears the surface,
 draws the new graph with drag handlers bound to a fresh simulation, and
 starts that simulation. Unmounting runs the last pending cleanup.

 An early return registers no cleanup and does not clear the surface. The
 previous drawing stays, and its drag handlers can restart the simulation
 the cleanup has just stopped; no later cleanup stops it again.
 `StatesChanged` is the effect as written and `LeakAfterEarlyReturn` shows
 that trace. `StatesChangedClearing` also clears the surface on an early
 return, and it keeps the invariant that only the current simulation runs.
 */
module Visualizer {
  import opened Wrappers
  import opened GraphBuilder
  import opened ForceSim

  class Visualizer {
    /** The simulation of the last run that did not return early, while its cleanup is pending. */
    var current: Simulation?
    /** The simulation whose drawing, with drag handlers bound to it, is on the surface. */
    var shown: Simulation?
    /** Every simulation the effect has started. */
    ghost var started: set<Simulation>

    /**
     Holds in every state the component reaches as written: the simulation
     with a pending cleanup is the one drawn, and the drawn one keeps the
     handlers' pin and reheat invariant.
     */
    ghost predicate Wellformed()
      reads this, shown, if shown != null then {shown.nodes} else {}
    {
      && (current != null ==> current in started && current == shown)
      && (shown != null ==> shown in started && shown.Valid())
    }

    /**
     The intended invariant: the surface shows the current simulation, if
     any, and of all simulations ever started only the current one may run.
     */
    ghost predicate Valid()
      reads this, started, shown, if shown != null then {shown.nodes} else {}
    {
      && Wellformed()
      && shown == current
      && forall s :: s in started && s != current ==> !s.running
    }

    constructor ()
      ensures Valid() && current == null && shown == null && started == {}
    {
      current := null;
      shown := null;
      started := {};
    }

    /**
     The effect re-run for new `states`, as written. `mounted` says whether
     the drawing surface exists; `seed` is the layout library's initial
     placement. Only the simulation with a pending cleanup is stopped, and
     every other simulation keeps its state. A new simulation is started, and
     drawn, exactly when the surface exists and `states` is non-empty. On an
     early return the drawing stays as it was.
     */
    method StatesChanged(mounted: bool, states: seq<ReasoningState>, seed: nat -> Point)
      requires Wellformed()
      modifies this, current
      ensures Wellformed()
      ensures old(current) != null ==> !old(current).running
      ensures forall s :: s in old(started) && s != old(current) ==> s.running == old(s.running)
      ensures forall s :: s in old(started) ==> s.alphaTarget == old(s.alphaTarget)
      ensures current == null <==> !mounted || |states| == 0
      ensures current == null ==> started == old(started) && shown == old(shown)
      ensures current != null ==>
                && fresh(current) && fresh(current.nodes)
                && started == old(started) + {current} && shown == current
                && current.Valid() && current.running && current.alphaTarget == 0.0
                && current.links == Links(states)
                && current.nodes.Length == |Nodes(states)|
                && (forall k :: 0 <= k < current.nodes.Length ==>
                      current.nodes[k] == Body(Nodes(states)[k], seed(k).x, seed(k).y, None, None))
      ensures old(Valid()) && current != null ==> Valid()
    {
      if current != null {
        current.Stop();
      }
      current := null;
      var g := BuildGraph(mounted, states);
      if g.Some? {
        var sim := new Simulation(g.value, seed);
        current := sim;
        shown := sim;
        started := started + {sim};
      }
    }

    /**
     The re-run with the surface cleared on an early return as well, so no
     drag handler of an earlier drawing remains. Afterwards no earlier
     simulation runs, and only the current one, if any, may run.
     */
    method StatesChangedClearing(mounted: bool, states: seq<ReasoningState>, seed: nat -> Point)
      requires Valid()
      modifies this, current
      ensures Valid()
      ensures forall s :: s in old(started) ==> !s.running && s.alphaTarget == old(s.alphaTarget)
      ensures current == null <==> !mounted || |states| == 0
      ensures current == null ==> started == old(started) && shown == null
      ensures current != null ==>
                && fresh(current) && fresh(current.nodes) && started == old(started) + {current}
                && current.Valid() && current.running && current.alphaTarget == 0.0
                && current.links == Links(states)
                && current.nodes.Length == |Nodes(states)|
                && (forall k :: 0 <= k < current.nodes.Length ==>
                      current.nodes[k] == Body(Nodes(states)[k], seed(k).x, seed(k).y, None, None))
    {
      StatesChanged(mounted, states, seed);
      if current == null {
        shown := null;
      }
    }

    /** Drag start on node k of the drawing on the surface, handled by that drawing's simulation. */
    method DragStartedOnSurface(k: nat, active: nat)
      requires Wellformed() && shown != null && k < shown.nodes.Length
      modifies shown, shown.nodes
      ensures Wellformed()
      ensures shown.running == (active == 0 || old(shown.running))
      ensures shown.alphaTarget == (if active == 0 then 0.3 else old(shown.alphaTarget))
      ensures shown.nodes[k] == old(shown.nodes[k]).(fx := Some(old(shown.nodes[k].x)), fy := Some(old(shown.nodes[k].y)))
      ensures forall q :: 0 <= q < shown.nodes.Length && q != k ==> shown.nodes[q] == old(shown.nodes[q])
      ensures forall s :: s in started && s != shown ==> s.running == old(s.running)
      ensures old(Valid()) ==> Valid()
    {
      shown.DragStarted(k, active);
    }

    /** Drag move on node k of the drawing on the surface. */
    method DraggedOnSurface(k: nat, dragPos: Point)
      requires Wellformed() && shown != null && k < shown.nodes.Length
      modifies shown.nodes
      ensures Wellformed()
      ensures shown.nodes[k] == old(shown.nodes[k]).(fx := Some(dragPos.x), fy := Some(dragPos.y))
      ensures forall q :: 0 <= q < shown.nodes.Length && q != k ==> shown.nodes[q] == old(shown.nodes[q])
      ensures old(Valid()) ==> Valid()
    {
      shown.Dragged(k, dragPos);
    }

    /** Drag end on node k of the drawing on the surface. */
    method DragEndedOnSurface(k: nat, active: nat)
      requires Wellformed() && shown != null && k < shown.nodes.Length
      modifies shown, shown.nodes
      ensures Wellformed()
      ensures shown.running == old(shown.running)
      ensures shown.alphaTarget == (if active == 0 then 0.0 else old(shown.alphaTarget))
      ensures shown.nodes[k] == old(shown.nodes[k]).(fx := None, fy := None)
      ensures forall q :: 0 <= q < shown.nodes.Length && q != k ==> shown.nodes[q] == old(shown.nodes[q])
      ensures old(Valid()) ==> Valid()
    {
      shown.DragEnded(k, active);
    }

    /**
     Unmounting runs the pending cleanup, which stops the current simulation
     and nothing else, and removes the drawing with the component, so no drag
     can start on it any more. From a state where only the current simulation
     may run, none runs afterwards, and none can be restarted.
     */
    method Unmount()
      requires Wellformed()
      modifies this, current
      ensures Wellformed() && current == null && shown == null
      ensures started == old(started)
      ensures old(current) != null ==> !old(current).running
      ensures forall s :: s in started && s != old(current) ==> s.running == old(s.running)
      ensures forall s :: s in started ==> s.alphaTarget == old(s.alphaTarget)
      ensures old(Valid()) ==> Valid() && forall s :: s in started ==> !s.running
    {
      if current != null {
        current.Stop();
      }
      current := null;
      shown := null;
    }
  }

  /**
   A trace of the effect as written that leaves a simulation running after
   unmount. One step with one neuron is drawn as simulation A. An empty step
   list stops A and returns early, leaving A's drawing on the surface. A drag
   started on that drawing, with no other drag active, restarts A. A new
   non-empty step list starts B without stopping A, and unmounting stops
   only B.
   */
  method LeakAfterEarlyReturn() returns (leaked: bool)
    ensures leaked
  {
    var seed := (k: nat) => Point(0.0, 0.0);
    var step := ReasoningState(0.5, ["N-1"], "");
    var v := new Visualizer();
    v.StatesChanged(true, [step], seed);
    var a := v.current;
    assert Offset([step], 1) == 1;
    assert |Nodes([step])| == 1;
    v.StatesChanged(true, [], seed);
    assert !a.running && v.shown == a;
    v.DragStartedOnSurface(0, 0);
    v.StatesChanged(true, [step], seed);
    assert v.current != a;
    v.Unmount();
    leaked := a.running;
  }
}
