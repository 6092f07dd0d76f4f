/**
 The force simulation as the visualizer's drag handlers see it. The forces,
 the ticks and the cooling belong to the layout library and are not modelled;
 what is modelled is the state the handlers change: each node's pin
 (`fx`, `fy`), the simulation's `alphaTarget`, and whether its timer runs.
 */
module ForceSim {
  import opened Wrappers
  import opened GraphBuilder

  datatype Point = Point(x: real, y: real)

  /**
   A node as the simulation holds it: the graph node, its current position
   (moved by the simulation's ticks) and its pin, `None` while `fx`/`fy` are
   unset or null.
   */
  datatype Body = Body(node: Node, x: real, y: real, fx: Option<real>, fy: Option<real>)

  /** The pin of a body, when both coordinates are set. */
  function Pin(b: Body): Option<Point> {
    if b.fx.Some? && b.fy.Some? then Some(Point(b.fx.value, b.fy.value)) else None
  }

  class Simulation {
    const nodes: array<Body>
    const links: seq<Link>
    var alphaTarget: real
    var running: bool

    /**
     The handlers set and clear both pin coordinates together, and they only
     ever write 0 or 0.3 into `alphaTarget`.
     */
    ghost predicate Valid()
      reads this, nodes
    {
      && (alphaTarget == 0.0 || alphaTarget == 0.3)
      && forall k :: 0 <= k < nodes.Length ==> (nodes[k].fx.Some? <==> nodes[k].fy.Some?)
    }

    /**
     A running simulation over the graph's nodes, none pinned. The layout
     library places node k at a position that depends only on k; `seed` is
     that placement.
     */
    constructor (g: Graph, seed: nat -> Point)
      ensures Valid() && fresh(nodes)
      ensures nodes.Length == |g.nodes|
      ensures forall k :: 0 <= k < nodes.Length ==> nodes[k] == Body(g.nodes[k], seed(k).x, seed(k).y, None, None)
      ensures links == g.links && alphaTarget == 0.0 && running
    {
      nodes := new Body[|g.nodes|](k requires 0 <= k < |g.nodes| => Body(g.nodes[k], seed(k).x, seed(k).y, None, None));
      links := g.links;
      alphaTarget := 0.0;
      running := true;
    }

    /** Halts the simulation's timer. Stopping a stopped simulation changes nothing. */
    method Stop()
      modifies this`running
      ensures !running
    {
      running := false;
    }

    /**
     Start of a drag on node k. When no other drag is active (`active == 0`)
     the simulation is reheated toward 0.3 and restarted; in every case node k
     is pinned where it currently is.
     */
    method DragStarted(k: nat, active: nat)
      requires Valid() && k < nodes.Length
      modifies this`alphaTarget, this`running, nodes
      ensures Valid()
      ensures alphaTarget == (if active == 0 then 0.3 else old(alphaTarget))
      ensures running == (active == 0 || old(running))
      ensures nodes[k] == old(nodes[k]).(fx := Some(old(nodes[k].x)), fy := Some(old(nodes[k].y)))
      ensures Pin(nodes[k]) == Some(Point(old(nodes[k].x), old(nodes[k].y)))
      ensures forall q :: 0 <= q < nodes.Length && q != k ==> nodes[q] == old(nodes[q])
    {
      if active == 0 {
        alphaTarget := 0.3;
        running := true;
      }
      var b := nodes[k];
      nodes[k] := b.(fx := Some(b.x), fy := Some(b.y));
    }

    /**
     A drag move: node k is pinned exactly at the drag event's position
     (the pointer, shifted by the offset taken when the drag started).
     */
    method Dragged(k: nat, dragPos: Point)
      requires Valid() && k < nodes.Length
      modifies nodes
      ensures Valid()
      ensures nodes[k] == old(nodes[k]).(fx := Some(dragPos.x), fy := Some(dragPos.y))
      ensures Pin(nodes[k]) == Some(dragPos)
      ensures forall q :: 0 <= q < nodes.Length && q != k ==> nodes[q] == old(nodes[q])
    {
      var b := nodes[k];
      nodes[k] := b.(fx := Some(dragPos.x), fy := Some(dragPos.y));
    }

    /**
     End of a drag on node k. When no other drag is active the reheat target
     drops back to 0; in every case node k is unpinned.
     */
    method DragEnded(k: nat, active: nat)
      requires Valid() && k < nodes.Length
      modifies this`alphaTarget, nodes
      ensures Valid()
      ensures alphaTarget == (if active == 0 then 0.0 else old(alphaTarget))
      ensures nodes[k] == old(nodes[k]).(fx := None, fy := None)
      ensures Pin(nodes[k]) == None
      ensures forall q :: 0 <= q < nodes.Length && q != k ==> nodes[q] == old(nodes[q])
    {
      if active == 0 {
        alphaTarget := 0.0;
      }
      var b := nodes[k];
      nodes[k] := b.(fx := None, fy := None);
    }
  }
}
