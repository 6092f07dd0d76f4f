/**
 The graph the neuron-activity visualizer draws for a sequence of reasoning
 steps. Step `idx` becomes a layer: one node per entry of its active-neuron
 list, in order. Every neuron of step `i` is linked to every neuron of step
 `i + 1`, so consecutive layers form a complete bipartite graph.

 Node construction is a pure flat-map and is modelled by functions. Link
 construction is a loop that pushes onto an array: `BuildLinks` is that loop,
 proved equal to the recursive specification `Links`.
 */
module GraphBuilder {
  import opened Wrappers
  import opened Ids

  /**
   One step of the reasoning trace: how strongly the backstory is believed,
   the neurons active in that step (repetitions allowed), and a descriptive
   note that the layout never reads.
   */
  datatype ReasoningState = ReasoningState(beliefStrength: real, activeNeurons: seq<string>, lastUpdate: string)

  /** A graph node. `neuron` holds what the visualizer stores as the node's `label`. */
  datatype Node = Node(id: string, group: nat, neuron: string, val: real)

  /** A link, by the identifiers of its two end nodes. */
  datatype Link = Link(source: string, target: string)

  datatype Graph = Graph(nodes: seq<Node>, links: seq<Link>)

  // ---------------------------------------------------------------- nodes

  /** The node built for neuron `n` of step `idx` whose state is `s`. */
  function MakeNode(s: ReasoningState, idx: nat, n: string): Node {
    Node(NodeId(n, idx), idx, n, s.beliefStrength)
  }

  /** The nodes of one step: one per active-neuron entry, in order. */
  function LayerNodes(s: ReasoningState, idx: nat): seq<Node> {
    seq(|s.activeNeurons|, j requires 0 <= j < |s.activeNeurons| => MakeNode(s, idx, s.activeNeurons[j]))
  }

  /** The nodes of steps 0 .. m - 1, step after step. */
  function NodesUpTo(states: seq<ReasoningState>, m: nat): seq<Node>
    requires m <= |states|
  {
    if m == 0 then [] else NodesUpTo(states, m - 1) + LayerNodes(states[m - 1], m - 1)
  }

  /** The number of neuron entries in steps 0 .. m - 1: where the nodes of step m begin. */
  function Offset(states: seq<ReasoningState>, m: nat): nat
    requires m <= |states|
  {
    if m == 0 then 0 else Offset(states, m - 1) + |states[m - 1].activeNeurons|
  }

  /** The number of neuron entries over all steps, repetitions counted. */
  function NeuronCount(states: seq<ReasoningState>): nat {
    Offset(states, |states|)
  }

  lemma {:induction false} NodesUpToLength(states: seq<ReasoningState>, m: nat)
    requires m <= |states|
    ensures |NodesUpTo(states, m)| == Offset(states, m)
  {
    if m > 0 {
      NodesUpToLength(states, m - 1);
    }
  }

  /**
   The flattened node list of the whole sequence. There is exactly one node
   per neuron entry: repeated labels are not merged.
   */
  function Nodes(states: seq<ReasoningState>): (r: seq<Node>)
    ensures |r| == NeuronCount(states)
  {
    NodesUpToLength(states, |states|);
    NodesUpTo(states, |states|)
  }

  /** Later steps begin later: step a's nodes all come before those of any step b > a. */
  lemma {:induction false} OffsetMonotone(states: seq<ReasoningState>, a: nat, b: nat)
    requires a <= b <= |states|
    ensures Offset(states, a) <= Offset(states, b)
    ensures a < b ==> Offset(states, a) + |states[a].activeNeurons| <= Offset(states, b)
  {
    if a < b {
      OffsetMonotone(states, a, b - 1);
    }
  }

  lemma {:induction false} NodesUpToAt(states: seq<ReasoningState>, m: nat, i: nat, j: nat)
    requires m <= |states| && i < m && j < |states[i].activeNeurons|
    ensures Offset(states, i) + j < |NodesUpTo(states, m)|
    ensures NodesUpTo(states, m)[Offset(states, i) + j] == MakeNode(states[i], i, states[i].activeNeurons[j])
  {
    NodesUpToLength(states, m - 1);
    NodesUpToLength(states, m);
    if i < m - 1 {
      NodesUpToAt(states, m - 1, i, j);
    }
  }

  /**
   Entry j of step i becomes the node at position Offset(i) + j, and that node
   has id `n-i`, group i, label n and the step's belief strength as its value.
   */
  lemma NodeAt(states: seq<ReasoningState>, i: nat, j: nat)
    requires i < |states| && j < |states[i].activeNeurons|
    ensures Offset(states, i) + j < |Nodes(states)|
    ensures Nodes(states)[Offset(states, i) + j]
         == Node(NodeId(states[i].activeNeurons[j], i), i, states[i].activeNeurons[j], states[i].beliefStrength)
  {
    NodesUpToAt(states, |states|, i, j);
  }

  lemma {:induction false} NodesUpToOrigin(states: seq<ReasoningState>, m: nat, k: nat)
    requires m <= |states| && k < |NodesUpTo(states, m)|
    ensures exists i, j :: 0 <= i < m && 0 <= j < |states[i].activeNeurons| && k == Offset(states, i) + j
                        && NodesUpTo(states, m)[k] == MakeNode(states[i], i, states[i].activeNeurons[j])
  {
    if m > 0 {
      NodesUpToLength(states, m - 1);
      if k < Offset(states, m - 1) {
        NodesUpToOrigin(states, m - 1, k);
      } else {
        var j := k - Offset(states, m - 1);
        assert NodesUpTo(states, m)[k] == MakeNode(states[m - 1], m - 1, states[m - 1].activeNeurons[j]);
      }
    }
  }

  /**
   Conversely, every node comes from some entry j of some step i, sits at
   position Offset(i) + j, and is built from that entry.
   */
  lemma NodeOrigin(states: seq<ReasoningState>, k: nat)
    requires k < |Nodes(states)|
    ensures exists i, j :: 0 <= i < |states| && 0 <= j < |states[i].activeNeurons| && k == Offset(states, i) + j
                        && Nodes(states)[k]
                           == Node(NodeId(states[i].activeNeurons[j], i), i, states[i].activeNeurons[j], states[i].beliefStrength)
  {
    NodesUpToOrigin(states, |states|, k);
  }

  /** Node order is step order first, then order within the step. */
  lemma NodeOrder(states: seq<ReasoningState>, i1: nat, j1: nat, i2: nat, j2: nat)
    requires i1 < |states| && j1 < |states[i1].activeNeurons|
    requires i2 < |states| && j2 < |states[i2].activeNeurons|
    requires i1 < i2 || (i1 == i2 && j1 < j2)
    ensures Offset(states, i1) + j1 < Offset(states, i2) + j2
  {
    if i1 < i2 {
      OffsetMonotone(states, i1, i2);
    }
  }

  // ---------------------------------------------------------------- links

  /** The innermost loop: neuron n1 of step i linked to each neuron of the next step, in order. */
  function Row(n1: string, i: nat, next: seq<string>): seq<Link> {
    seq(|next|, l requires 0 <= l < |next| => Link(NodeId(n1, i), NodeId(next[l], i + 1)))
  }

  /** The middle loop: the rows of the neurons `cur` of step i, in order. */
  function LayerLinks(cur: seq<string>, next: seq<string>, i: nat): seq<Link> {
    if cur == [] then [] else LayerLinks(cur[..|cur| - 1], next, i) + Row(cur[|cur| - 1], i, next)
  }

  /** The outer loop after m rounds: the links between steps p and p + 1 for every p < m. */
  function LinksUpTo(states: seq<ReasoningState>, m: nat): seq<Link>
    requires m == 0 || m < |states|
  {
    if m == 0 then []
    else LinksUpTo(states, m - 1) + LayerLinks(states[m - 1].activeNeurons, states[m].activeNeurons, m - 1)
  }


  /** Σ_{p < m} |activeNeurons(p)| · |activeNeurons(p + 1)|. */
  function PairProducts(states: seq<ReasoningState>, m: nat): nat
    requires m == 0 || m < |states|
  {
    if m == 0 then 0
    else PairProducts(states, m - 1) + |states[m - 1].activeNeurons| * |states[m].activeNeurons|
  }

  /** Σ_{i = 0}^{N - 2} |activeNeurons(i)| · |activeNeurons(i + 1)|. */
  function ExpectedLinkCount(states: seq<ReasoningState>): nat {
    if |states| <= 1 then 0 else PairProducts(states, |states| - 1)
  }

  lemma {:induction false} LayerLinksLength(cur: seq<string>, next: seq<string>, i: nat)
    ensures |LayerLinks(cur, next, i)| == |cur| * |next|
  {
    if cur != [] {
      LayerLinksLength(cur[..|cur| - 1], next, i);
      assert |cur| * |next| == (|cur| - 1) * |next| + |next|;
    }
  }

  lemma {:induction false} LinksUpToLength(states: seq<ReasoningState>, m: nat)
    requires m == 0 || m < |states|
    ensures |LinksUpTo(states, m)| == PairProducts(states, m)
  {
    if m > 0 {
      var before := LinksUpTo(states, m - 1);
      var layer := LayerLinks(states[m - 1].activeNeurons, states[m].activeNeurons, m - 1);
      assert LinksUpTo(states, m) == before + layer;
      LinksUpToLength(states, m - 1);
      LayerLinksLength(states[m - 1].activeNeurons, states[m].activeNeurons, m - 1);
      assert |before + layer| == PairProducts(states, m - 1) + |layer|;
    }
  }

  /**
   All links: the outer loop runs while `i < states.length - 1`. Their number
   is the sum of the products of the sizes of consecutive steps, and zero or
   one steps give none.
   */
  function Links(states: seq<ReasoningState>): (r: seq<Link>)
    ensures |r| == ExpectedLinkCount(states)
  {
    if |states| <= 1 then []
    else
      LinksUpToLength(states, |states| - 1);
      LinksUpTo(states, |states| - 1)
  }

  /** Steps with 2, 3 and 2 active neurons give 2·3 + 3·2 = 12 links. */
  lemma LinkCountExample(states: seq<ReasoningState>)
    requires |states| == 3
    requires |states[0].activeNeurons| == 2 && |states[1].activeNeurons| == 3 && |states[2].activeNeurons| == 2
    ensures |Links(states)| == 12
  {
    assert PairProducts(states, 1) == 2 * 3;
  }

  lemma {:induction false} LayerLinksAt(cur: seq<string>, next: seq<string>, i: nat, j: nat, l: nat)
    requires j < |cur| && l < |next|
    ensures j * |next| + l < |LayerLinks(cur, next, i)|
    ensures LayerLinks(cur, next, i)[j * |next| + l] == Link(NodeId(cur[j], i), NodeId(next[l], i + 1))
  {
    var n := |cur|;
    var prefix := cur[..n - 1];
    LayerLinksLength(prefix, next, i);
    LayerLinksLength(cur, next, i);
    assert (n - 1) * |next| + |next| == n * |next|;
    if j < n - 1 {
      LayerLinksAt(prefix, next, i, j, l);
      assert prefix[j] == cur[j];
    }
  }

  /**
   The position the nested loops give the link from entry j of step i to entry
   l of step i + 1: all links of earlier step pairs, then j full rows, then l.
   */
  function LinkIndex(states: seq<ReasoningState>, i: nat, j: nat, l: nat): nat
    requires i + 1 < |states|
  {
    PairProducts(states, i) + j * |states[i + 1].activeNeurons| + l
  }

  /** The links of step pair (i, i + 1) sit after all earlier ones, row by row. */
  lemma LinksUpToLastAt(states: seq<ReasoningState>, i: nat, j: nat, l: nat)
    requires i + 1 < |states|
    requires j < |states[i].activeNeurons| && l < |states[i + 1].activeNeurons|
    ensures LinkIndex(states, i, j, l) < |LinksUpTo(states, i + 1)|
    ensures LinksUpTo(states, i + 1)[LinkIndex(states, i, j, l)]
         == Link(NodeId(states[i].activeNeurons[j], i), NodeId(states[i + 1].activeNeurons[l], i + 1))
  {
    var before := LinksUpTo(states, i);
    var layer := LayerLinks(states[i].activeNeurons, states[i + 1].activeNeurons, i);
    assert LinksUpTo(states, i + 1) == before + layer;
    var w := j * |states[i + 1].activeNeurons| + l;
    assert LinkIndex(states, i, j, l) == PairProducts(states, i) + w;
    LinksUpToLength(states, i);
    LayerLinksAt(states[i].activeNeurons, states[i + 1].activeNeurons, i, j, l);
    assert (before + layer)[|before| + w] == layer[w];
  }

  lemma {:induction false} LinksUpToAt(states: seq<ReasoningState>, m: nat, i: nat, j: nat, l: nat)
    requires m < |states| && i < m
    requires j < |states[i].activeNeurons| && l < |states[i + 1].activeNeurons|
    ensures LinkIndex(states, i, j, l) < |LinksUpTo(states, m)|
    ensures LinksUpTo(states, m)[LinkIndex(states, i, j, l)]
         == Link(NodeId(states[i].activeNeurons[j], i), NodeId(states[i + 1].activeNeurons[l], i + 1))
  {
    if i < m - 1 {
      var before := LinksUpTo(states, m - 1);
      var layer := LayerLinks(states[m - 1].activeNeurons, states[m].activeNeurons, m - 1);
      assert LinksUpTo(states, m) == before + layer;
      LinksUpToAt(states, m - 1, i, j, l);
    } else {
      LinksUpToLastAt(states, i, j, l);
    }
  }

  /**
   The link from entry j of step i to entry l of step i + 1 is at position
   LinkIndex(i, j, l) = PairProducts(i) + j · |activeNeurons(i + 1)| + l,
   joining `n1-i` to `n2-(i+1)`; `LinkOrder` shows these positions follow
   the lexicographic order of (i, j, l).
   */
  lemma {:induction false} LinkAt(states: seq<ReasoningState>, i: nat, j: nat, l: nat)
    requires i + 1 < |states|
    requires j < |states[i].activeNeurons| && l < |states[i + 1].activeNeurons|
    ensures LinkIndex(states, i, j, l) < |Links(states)|
    ensures Links(states)[LinkIndex(states, i, j, l)]
         == Link(NodeId(states[i].activeNeurons[j], i), NodeId(states[i + 1].activeNeurons[l], i + 1))
  {
    LinksUpToAt(states, |states| - 1, i, j, l);
  }

  lemma {:induction false} PairProductsMonotone(states: seq<ReasoningState>, m1: nat, m2: nat)
    requires m1 <= m2 < |states|
    ensures PairProducts(states, m1) <= PairProducts(states, m2)
  {
    if m1 < m2 {
      PairProductsMonotone(states, m1, m2 - 1);
    }
  }

  /**
   Links come out in lexicographic order of (step, entry of that step, entry
   of the next step): a smaller triple gets a strictly smaller position.
   */
  lemma LinkOrder(states: seq<ReasoningState>, i1: nat, j1: nat, l1: nat, i2: nat, j2: nat, l2: nat)
    requires i1 + 1 < |states| && j1 < |states[i1].activeNeurons| && l1 < |states[i1 + 1].activeNeurons|
    requires i2 + 1 < |states| && j2 < |states[i2].activeNeurons| && l2 < |states[i2 + 1].activeNeurons|
    requires i1 < i2 || (i1 == i2 && (j1 < j2 || (j1 == j2 && l1 < l2)))
    ensures LinkIndex(states, i1, j1, l1) < LinkIndex(states, i2, j2, l2)
  {
    var k := |states[i1 + 1].activeNeurons|;
    if i1 < i2 {
      RowsBefore(j1, l1, k, |states[i1].activeNeurons|);
      assert PairProducts(states, i1 + 1) == PairProducts(states, i1) + |states[i1].activeNeurons| * k;
      PairProductsMonotone(states, i1 + 1, i2);
    } else if j1 < j2 {
      RowsBefore(j1, l1, k, j2);
    }
  }

  /** Entry l of row j comes before the start of row n, rows being k long. */
  lemma RowsBefore(j: nat, l: nat, k: nat, n: nat)
    requires j < n && l < k
    ensures j * k + l < n * k
  {
    assert j * k + l < (j + 1) * k;
    assert (j + 1) * k <= n * k;
  }

  /** `x` is the link from entry j of step i to entry l of step i + 1. */
  predicate LinkBetween(states: seq<ReasoningState>, i: nat, j: nat, l: nat, x: Link) {
    && i + 1 < |states|
    && j < |states[i].activeNeurons|
    && l < |states[i + 1].activeNeurons|
    && x == Link(NodeId(states[i].activeNeurons[j], i), NodeId(states[i + 1].activeNeurons[l], i + 1))
  }

  lemma {:induction false} LayerLinksOrigin(cur: seq<string>, next: seq<string>, i: nat, x: Link)
    requires x in LayerLinks(cur, next, i)
    ensures exists j, l :: 0 <= j < |cur| && 0 <= l < |next| && x == Link(NodeId(cur[j], i), NodeId(next[l], i + 1))
  {
    if cur != [] {
      var n := |cur|;
      var prefix := cur[..n - 1];
      if x in LayerLinks(prefix, next, i) {
        LayerLinksOrigin(prefix, next, i, x);
        var j, l :| 0 <= j < |prefix| && 0 <= l < |next| && x == Link(NodeId(prefix[j], i), NodeId(next[l], i + 1));
        assert prefix[j] == cur[j];
      } else {
        var row := Row(cur[n - 1], i, next);
        assert x in row;
        var l :| 0 <= l < |row| && row[l] == x;
        assert x == Link(NodeId(cur[n - 1], i), NodeId(next[l], i + 1));
      }
    }
  }

  lemma {:induction false} LinksUpToOrigin(states: seq<ReasoningState>, m: nat, x: Link)
    requires m == 0 || m < |states|
    requires x in LinksUpTo(states, m)
    ensures exists i: nat, j: nat, l: nat :: i < m && LinkBetween(states, i, j, l, x)
  {
    if m > 0 {
      if x in LinksUpTo(states, m - 1) {
        LinksUpToOrigin(states, m - 1, x);
      } else {
        var i := m - 1;
        LayerLinksOrigin(states[i].activeNeurons, states[i + 1].activeNeurons, i, x);
        var j, l :| 0 <= j < |states[i].activeNeurons| && 0 <= l < |states[i + 1].activeNeurons|
                 && x == Link(NodeId(states[i].activeNeurons[j], i), NodeId(states[i + 1].activeNeurons[l], i + 1));
        assert LinkBetween(states, i, j, l, x);
      }
    }
  }

  /**
   Every link joins entry j of some step i to entry l of step i + 1. In
   particular a sequence of zero or one steps has no links.
   */
  lemma LinkOrigin(states: seq<ReasoningState>, x: Link)
    requires x in Links(states)
    ensures exists i: nat, j: nat, l: nat :: LinkBetween(states, i, j, l, x)
  {
    if |states| > 1 {
      LinksUpToOrigin(states, |states| - 1, x);
    }
  }

  /** A node's identifier determines its group and label: whichever node carries `n-i` was built from neuron n of step i. */
  lemma GroupOfId(states: seq<ReasoningState>, k: nat, n: string, i: nat)
    requires k < |Nodes(states)| && Nodes(states)[k].id == NodeId(n, i)
    ensures Nodes(states)[k].group == i && Nodes(states)[k].neuron == n
  {
    NodeOrigin(states, k);
    var ik, jk :| 0 <= ik < |states| && 0 <= jk < |states[ik].activeNeurons| && k == Offset(states, ik) + jk
               && Nodes(states)[k]
                  == Node(NodeId(states[ik].activeNeurons[jk], ik), ik, states[ik].activeNeurons[jk], states[ik].beliefStrength);
    NodeIdInjective(n, i, states[ik].activeNeurons[jk], ik);
  }

  /**
   Two nodes share an identifier exactly when they belong to the same step and
   carry the same label: a label repeated within one step yields several nodes
   with one identifier, while equal labels in different steps never collide.
   */
  lemma SameIdIffSameStepAndLabel(states: seq<ReasoningState>, a: nat, b: nat)
    requires a < |Nodes(states)| && b < |Nodes(states)|
    ensures Nodes(states)[a].id == Nodes(states)[b].id
        <==> Nodes(states)[a].group == Nodes(states)[b].group && Nodes(states)[a].neuron == Nodes(states)[b].neuron
  {
    var nodes := Nodes(states);
    NodeOrigin(states, a);
    var ia, ja :| 0 <= ia < |states| && 0 <= ja < |states[ia].activeNeurons| && a == Offset(states, ia) + ja
               && nodes[a] == Node(NodeId(states[ia].activeNeurons[ja], ia), ia, states[ia].activeNeurons[ja], states[ia].beliefStrength);
    NodeOrigin(states, b);
    var ib, jb :| 0 <= ib < |states| && 0 <= jb < |states[ib].activeNeurons| && b == Offset(states, ib) + jb
               && nodes[b] == Node(NodeId(states[ib].activeNeurons[jb], ib), ib, states[ib].activeNeurons[jb], states[ib].beliefStrength);
    NodeIdInjective(states[ia].activeNeurons[ja], ia, states[ib].activeNeurons[jb], ib);
  }

  /**
   Whichever nodes carry the identifiers of a link's two ends (labels may
   repeat, so there may be several), the target's group is the source's group
   plus one: no link skips a layer or stays inside one.
   */
  lemma LinkJoinsAdjacentLayers(states: seq<ReasoningState>, x: Link, a: nat, b: nat)
    requires x in Links(states)
    requires a < |Nodes(states)| && Nodes(states)[a].id == x.source
    requires b < |Nodes(states)| && Nodes(states)[b].id == x.target
    ensures Nodes(states)[b].group == Nodes(states)[a].group + 1
  {
    LinkOrigin(states, x);
    var i: nat, j: nat, l: nat :| LinkBetween(states, i, j, l, x);
    GroupOfId(states, a, states[i].activeNeurons[j], i);
    GroupOfId(states, b, states[i + 1].activeNeurons[l], i + 1);
  }

  /**
   Both ends of every link name nodes of the graph, so resolving links by
   node identifier never finds a missing node.
   */
  lemma LinkEndsResolve(states: seq<ReasoningState>, x: Link)
    requires x in Links(states)
    ensures exists a :: 0 <= a < |Nodes(states)| && Nodes(states)[a].id == x.source
    ensures exists b :: 0 <= b < |Nodes(states)| && Nodes(states)[b].id == x.target
  {
    LinkOrigin(states, x);
    var i: nat, j: nat, l: nat :| LinkBetween(states, i, j, l, x);
    LinkBetweenEnds(states, i, j, l, x);
  }

  /** The nodes at positions Offset(i) + j and Offset(i + 1) + l carry the ends of that link. */
  lemma LinkBetweenEnds(states: seq<ReasoningState>, i: nat, j: nat, l: nat, x: Link)
    requires LinkBetween(states, i, j, l, x)
    ensures Offset(states, i) + j < |Nodes(states)| && Nodes(states)[Offset(states, i) + j].id == x.source
    ensures Offset(states, i + 1) + l < |Nodes(states)| && Nodes(states)[Offset(states, i + 1) + l].id == x.target
  {
    NodeAt(states, i, j);
    NodeAt(states, i + 1, l);
  }

  // ---------------------------------------------------------------- building

  /** One more round of the middle loop appends the row of neuron j. */
  lemma LayerLinksSnoc(cur: seq<string>, next: seq<string>, i: nat, j: nat)
    requires j < |cur|
    ensures LayerLinks(cur[..j + 1], next, i) == LayerLinks(cur[..j], next, i) + Row(cur[j], i, next)
  {
    assert cur[..j + 1][..j] == cur[..j];
  }

  /** The inner `forEach`: pushes one link from `n1-i` to each neuron of the next step, in order. */
  method PushRow(links: seq<Link>, n1: string, next: seq<string>, i: nat) returns (r: seq<Link>)
    ensures r == links + Row(n1, i, next)
  {
    r := links;
    var l := 0;
    while l < |next|
      invariant 0 <= l <= |next|
      invariant r == links + Row(n1, i, next[..l])
    {
      var link := Link(NodeId(n1, i), NodeId(next[l], i + 1));
      assert Row(n1, i, next[..l + 1]) == Row(n1, i, next[..l]) + [link];
      r := r + [link];
      l := l + 1;
    }
    assert next[..l] == next;
  }

  /** The middle `forEach`: pushes the row of each neuron of step i, in order. */
  method PushLayer(links: seq<Link>, cur: seq<string>, next: seq<string>, i: nat) returns (r: seq<Link>)
    ensures r == links + LayerLinks(cur, next, i)
  {
    r := links;
    var j := 0;
    while j < |cur|
      invariant 0 <= j <= |cur|
      invariant r == links + LayerLinks(cur[..j], next, i)
    {
      r := PushRow(r, cur[j], next, i);
      LayerLinksSnoc(cur, next, i, j);
      j := j + 1;
    }
    assert cur[..j] == cur;
  }

  /** The link-building loop, pushing one link per (n1, n2) pair of consecutive steps. */
  method BuildLinks(states: seq<ReasoningState>) returns (links: seq<Link>)
    ensures links == Links(states)
  {
    links := [];
    var i := 0;
    while i < |states| - 1
      invariant 0 <= i && (i == 0 || i < |states|)
      invariant links == LinksUpTo(states, i)
    {
      links := PushLayer(links, states[i].activeNeurons, states[i + 1].activeNeurons, i);
      i := i + 1;
    }
  }

  /**
   The build step of the visualizer's effect: nothing at all when there is no
   drawing surface yet or the step sequence is empty; otherwise the nodes and
   the links of the sequence.
   */
  method BuildGraph(mounted: bool, states: seq<ReasoningState>) returns (g: Option<Graph>)
    ensures g.None? <==> !mounted || |states| == 0
    ensures g.Some? ==> g.value.nodes == Nodes(states) && g.value.links == Links(states)
  {
    if !mounted || |states| == 0 {
      return None;
    }
    var links := BuildLinks(states);
    g := Some(Graph(Nodes(states), links));
  }
}
