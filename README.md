# Neuron-activity graph: a verified model

The analysis screen of this application shows how the reasoning moved through
a run as a graph of "causal neurons". Its input is a sequence of reasoning
steps. Each step (`ReasoningState`) has a belief strength, a list of active
neuron labels and a descriptive note. The visualizer component turns that
sequence into a layered graph:

- every active-neuron entry of step `idx` becomes a node `{id: "<label>-<idx>", group: idx, label, val: beliefStrength}`;
- every neuron of step `i` is linked to every neuron of step `i + 1`.

It then hands the graph to a force-layout simulation. The user can drag
nodes: a drag pins the node and reheats the simulation. The component
rebuilds everything whenever its input changes. Before that it stops the
previous run's simulation, when that run got as far as starting one.

This project models that core in Dafny:

- `ids.dfy` (module `Ids`): how a node identifier is spelled. The step index
  is written in decimal. `SplitId` inverts `NodeId`, which proves that two
  identifiers are equal only when both label and step are equal.
- `graph_builder.dfy` (module `GraphBuilder`): the input and graph datatypes,
  and the node flattening as functions (`Nodes`). It also holds the
  link-building loops as methods: `BuildLinks` for the outer loop and one
  method per `forEach`. They are proved equal to the recursive specification
  `Links`. The empty-input and no-surface guard is `BuildGraph`. `Nodes` and
  `Links` state the exact node and link counts. Lemmas give the position of
  every node and link, their order, and the fact that links only join
  adjacent layers.
- `force_sim.dfy` (module `ForceSim`): a class `Simulation` with a node array,
  `alphaTarget` and a running flag. It has the three drag handlers and `Stop`.
- `visualizer.dfy` (module `Visualizer`): the component's effect. Each re-run
  first stops the simulation whose cleanup is pending. It then either returns
  early or draws the graph and starts a new simulation. A drag that starts on
  a circle acts on the simulation whose drawing the surface shows. Unmounting
  removes that drawing, so no drag can start afterwards. `StatesChanged` is the
  effect as written. `StatesChangedClearing` also clears the surface on an
  early return, and it keeps the invariant that at most the current
  simulation runs (see "## Findings").
- `wrappers.dfy`: the `Option` datatype.

In a few places the code behaves differently from what a reader of the
component might expect. The model follows the code in each case:

- **Empty input.** With an empty step list (or no drawing surface yet), the
  effect returns before it clears the surface. The previous drawing therefore
  stays on the surface, with its drag handlers bound to a simulation that the
  cleanup has just stopped. `Visualizer.Visualizer.StatesChanged` states that
  an early return leaves `shown` unchanged. A drag on that drawing restarts
  the stopped simulation (see "## Findings").
- **Where drag start pins.** Drag start pins the node at its own current
  position, not at the pointer. It reheats only when no other drag is active
  (`!event.active`).
- **Drag on a missing node.** The handlers never check that their node
  exists, because the layout library always gives them a node of this
  simulation. The model has the handlers require a valid node index.
- **Repeated labels.** A label repeated within a step gives several nodes
  that share one identifier. The node list keeps every one of them.
  `SameIdIffSameStepAndLabel` shows that this is the only way identifiers
  can collide.

## Model

| member | source | states |
|---|---|---|
| `Ids.Decimal` | components/BDHVisualizer.tsx:25 | The step index is spelled as a non-empty string of decimal digits, with no leading zero, and is one digit long exactly for indices below 10 |
| `Ids.ParseDecimalOfDecimal` | components/BDHVisualizer.tsx:25 | Reading back the decimal spelling of a step index gives the index |
| `Ids.SplitIdOfNodeId` | components/BDHVisualizer.tsx:25 | `NodeId` renders the template literal `${n}-${idx}`. Splitting an identifier `n-idx` at its last dash gives back exactly the label `n` and step `idx`, even when the label contains dashes or digits |
| `Ids.NodeIdInjective` | components/BDHVisualizer.tsx:25 | Two identifiers built by `NodeId` are equal if and only if their labels and their step indices are equal |
| `GraphBuilder.Nodes` | components/BDHVisualizer.tsx:24-26 | The flattened node list has exactly one node per active-neuron entry, summed over the steps; repeated labels are not merged. Where each node sits and what it holds is stated by `NodeAt`, `NodeOrigin` and `NodeOrder` |
| `GraphBuilder.NodeAt` | components/BDHVisualizer.tsx:24-25 | Entry j of step i becomes the node at position Offset(i) + j, with id `n-i`, group i, label n and the step's belief strength as value |
| `GraphBuilder.NodeOrigin` | components/BDHVisualizer.tsx:24-25 | Every node comes from some entry j of some step i, sits at position Offset(i) + j and has that entry's id, group, label and value |
| `GraphBuilder.NodeOrder` | components/BDHVisualizer.tsx:24-25 | Nodes appear in step order and, within a step, in neuron order: a lexicographically smaller (step, entry) pair gets a smaller position |
| `GraphBuilder.OffsetMonotone` | components/BDHVisualizer.tsx:24 | All nodes of an earlier step come before every node of a later step |
| `GraphBuilder.SameIdIffSameStepAndLabel` | components/BDHVisualizer.tsx:25 | Two nodes share an identifier exactly when they have the same group and the same label |
| `GraphBuilder.GroupOfId` | components/BDHVisualizer.tsx:25 | Any node whose identifier is `n-i` has group i and label n |
| `GraphBuilder.Links` | components/BDHVisualizer.tsx:28-35 | The link list has exactly the sum over i from 0 to N-2 of the product of the entry counts of steps i and i+1 links, and none for zero or one steps. Where each link sits and what it joins is stated by `LinkAt` and `LinkOrigin` |
| `GraphBuilder.LinkCountExample` | components/BDHVisualizer.tsx:29-35 | Steps with 2, 3 and 2 active entries give 12 links |
| `GraphBuilder.LinkAt` | components/BDHVisualizer.tsx:29-33 | The link from entry j of step i to entry l of step i+1 is at position LinkIndex(i, j, l) = PairProducts(i) + j·k(i+1) + l, and it goes from `n1-i` to `n2-(i+1)` |
| `GraphBuilder.LinkOrder` | components/BDHVisualizer.tsx:29-33 | Links come in lexicographic (i, j, l) order: a smaller triple has a strictly smaller LinkIndex |
| `GraphBuilder.LinkOrigin` | components/BDHVisualizer.tsx:29-33 | Every link goes from some entry of some step i to some entry of step i+1 with i+1 < N, so zero or one steps give no links |
| `GraphBuilder.LinkJoinsAdjacentLayers` | components/BDHVisualizer.tsx:32 | Whichever nodes carry a link's source and target identifiers, the target's group is the source's group plus one |
| `GraphBuilder.LinkEndsResolve` | components/BDHVisualizer.tsx:32-38 | Both identifiers of every link are identifiers of nodes of the graph, so resolving links by node id finds a node |
| `GraphBuilder.PushRow` | components/BDHVisualizer.tsx:31-33 | The inner `forEach` appends exactly the row of links from `n1-i` to every neuron of step i+1, in order, after the links already pushed |
| `GraphBuilder.PushLayer` | components/BDHVisualizer.tsx:30-34 | The middle `forEach` appends exactly the rows of all neurons of step i, in order, after the links already pushed |
| `GraphBuilder.BuildLinks` | components/BDHVisualizer.tsx:28-35 | The outer loop returns exactly the links of the specification `Links` |
| `GraphBuilder.BuildGraph` | components/BDHVisualizer.tsx:14-35 | No graph at all when the surface is missing or the step list is empty; otherwise exactly the nodes and links of the sequence |
| `ForceSim.Simulation.constructor` | components/BDHVisualizer.tsx:37-40 | A new simulation runs, has `alphaTarget` 0, and holds the graph's links and one unpinned body per node, in node order |
| `ForceSim.Simulation.Stop` | components/BDHVisualizer.tsx:92 | After stopping, the simulation does not run; nothing else changes |
| `ForceSim.Simulation.DragStarted` | components/BDHVisualizer.tsx:75-79 | When no other drag is active, `alphaTarget` becomes 0.3 and the simulation runs; otherwise both stay as they were. The dragged node is pinned at its own current (x, y); no other node changes; the pin invariant holds |
| `ForceSim.Simulation.Dragged` | components/BDHVisualizer.tsx:81-84 | The dragged node's pin becomes exactly the drag event's (x, y); `alphaTarget`, the running flag and every other node are unchanged |
| `ForceSim.Simulation.DragEnded` | components/BDHVisualizer.tsx:86-90 | When no other drag is active, `alphaTarget` goes back to 0, otherwise it is unchanged. Both pin coordinates of the dragged node are cleared; no other node changes |
| `Visualizer.Visualizer.constructor` | components/BDHVisualizer.tsx:10-11 | The mounted component before its first effect: no simulation has been started, none has a pending cleanup, and the surface shows nothing |
| `Visualizer.Visualizer.StatesChanged` | components/BDHVisualizer.tsx:13-40 | Only the simulation whose cleanup is pending is stopped; every other simulation keeps its running flag, and none changes its `alphaTarget`. A fresh simulation over exactly `Nodes(states)` and `Links(states)` is started and drawn if and only if the surface exists and the list is non-empty. On an early return the surface keeps the drawing it had |
| `Visualizer.Visualizer.Unmount` | components/BDHVisualizer.tsx:92-93 | Unmounting stops the current simulation and changes no other simulation. The drawing goes with the component (line 101), so the surface shows nothing and no drag handler can be reached. If at most the current simulation was running, none runs afterwards and the intended invariant still holds, so none can be restarted |
| `Visualizer.Visualizer.StatesChangedClearing` | components/BDHVisualizer.tsx:13-17 | The effect with the surface also cleared on an early return: afterwards every earlier simulation is stopped, the surface shows only the current simulation, and at most that one runs |
| `Visualizer.Visualizer.DragStartedOnSurface` | components/BDHVisualizer.tsx:56-57 | A drag start on a circle of the drawing on the surface goes to that drawing's simulation, with the effect of `DragStarted`; no other simulation's running flag changes |
| `Visualizer.Visualizer.DraggedOnSurface` | components/BDHVisualizer.tsx:56-58 | A drag move on a circle of the drawing on the surface pins that node of the drawing's simulation at the drag event's (x, y) |
| `Visualizer.Visualizer.DragEndedOnSurface` | components/BDHVisualizer.tsx:56-59 | A drag end on a circle of the drawing on the surface unpins that node of the drawing's simulation and, with no other drag active, sets its `alphaTarget` back to 0 |
| `Visualizer.LeakAfterEarlyReturn` | components/BDHVisualizer.tsx:14 | A trace of the effect as written (one step, no steps, a drag start, one step, unmount) ends with a simulation still running |

## Left out

- The force simulation's physics is not modelled: link, many-body and
  centering forces, tick integration, alpha cooling, and the automatic stop
  once cooled. This is floating-point code inside the layout library, and
  none of it is written in this repository. Positions therefore never change
  in the model, and no tick applies a pin to a position.
- The library's initial placement of nodes is not modelled. It depends only
  on the node's index and uses trigonometry, so it is a parameter `seed`.
  Velocities (`vx`, `vy`) are not modelled either.
- How the layout library resolves link ends by identifier is not modelled. In
  particular, with repeated identifiers it picks one of the nodes.
  `LinkEndsResolve` and `LinkJoinsAdjacentLayers` cover what the model
  relies on: every end resolves, and to the right layer.
- `restart()` is modelled only as "the simulation runs again".
- `event.active` is a natural-number parameter `active`, and `!event.active`
  is `active == 0`.
- ForceSim.Simulation.DragStarted, ForceSim.Simulation.Dragged and
  ForceSim.Simulation.DragEnded require the dragged node's index to be in
  range. The handlers receive a node object of this simulation, so the out-of-range case
  cannot occur in the code, and the handlers do not check for it. The same
  holds for the `...OnSurface` forwarders of `Visualizer.Visualizer`.
- SVG drawing is not modelled: the tick callback that copies positions into
  line and circle attributes, the circle radius, the colour scale mapping
  belief strength to a red-yellow-green colour, and the node titles. This is
  DOM output and floating-point colour interpolation in a library. The
  drawing surface is reduced to the simulation whose drawing it shows (`shown`).
- The surface width and the fixed height of 300 are left out. Only the
  centering force uses them, and that force is not modelled. The `margin`
  object is declared but never used.
- The React lifecycle is reduced to two events, "states changed" and
  "unmount". Whether the surface is mounted is a parameter.
- Visualizer.Visualizer.DraggedOnSurface and
  Visualizer.Visualizer.DragEndedOnSurface are reachable only while the
  drawing is shown. The drag library listens on the window once a gesture
  has started, so a gesture already in progress keeps sending its move and
  end events to its own simulation after its drawing is removed. The model
  does not route those events. They only pin or unpin a node and reset
  `alphaTarget`, and never change a running flag.
- The analysis service (`services/geminiService.ts`) is not part of this
  model. It makes a network call to a language model and fabricates its step
  snapshots at random.
- `app.tsx` is not part of this model. It is form state, file reading and
  page rendering.
- Of `types.ts`, only `ReasoningState` is modelled, as the input datatype.
  The other types only describe the analysis result.
- Belief strengths are modelled as real numbers, and their range is not
  constrained. The graph builder copies them and never does arithmetic on
  them.

## Findings

| source | as written | input that shows it | evidently intended | confidence | as-written member | corrected member |
|---|---|---|---|---|---|---|
| components/BDHVisualizer.tsx:14-17 | An early return (line 14) comes before the surface is cleared (line 17) and registers no cleanup (line 92). The old circles keep drag handlers (lines 56-59) bound to the simulation the cleanup just stopped, and a drag start restarts it (line 76) | Mounted component; states `[s0]` where s0 has one neuron (simulation A); then `[]`; then a drag start on A's circle with `event.active` 0; then `[s0]` again (simulation B); then unmount. A is left running | Nothing of an earlier run stays drawn or running: clear the surface on an early return as well | not executed; medium: the layout library stops a cooled simulation by itself (not modelled), so the leak lasts until A cools. The application's only caller never gives this component an empty list: it clears the result before each analysis (app.tsx:22), which unmounts the component, renders the component only with a result (app.tsx:190), and gets five steps of two neurons each (services/geminiService.ts:70-74). The trace needs another caller | `Visualizer.LeakAfterEarlyReturn` (over `Visualizer.Visualizer.StatesChanged`) | `Visualizer.Visualizer.StatesChangedClearing` |
