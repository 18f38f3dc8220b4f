/**
 * `RouteFinder`: the quickest route between two places of the road graph. A search from the
 * origin node labels every node with the least time found so far and the edge it was reached
 * by, relaxing out-edges from a last-in-first-out work list until nothing improves; a route
 * is then read back along those edges. Edge times are an oracle in whole units.
 */
module Routing {
  import opened Lists
  import opened Geom
  import opened XReals
  import opened Wrappers
  import opened Finding
  import opened Routes
  import Network

  type Node = Network.Node
  type Edge = Network.Edge

  /** `NodeInfo.minTime`: a time in whole units, or +infinity for a node not reached yet. */
  datatype MinTime = Infinite | Finite(time: nat)

  /** `NodeInfo`: the least time found to the node, and the edge that time arrives by. */
  datatype NodeInfo = NodeInfo(minTime: MinTime, previous: Option<Edge>)

  /** `minTime + time` on doubles: +infinity absorbs any edge time. */
  function Plus(a: MinTime, w: nat): MinTime {
    if a.Finite? then Finite(a.time + w) else Infinite
  }

  /** `a < b` on doubles: every time is below +infinity, and +infinity is below nothing. */
  predicate Below(a: MinTime, b: MinTime) {
    a.Finite? && (b.Infinite? || a.time < b.time)
  }

  function Val(t: MinTime): nat {
    if t.Finite? then t.time else 0
  }

  /** The time of a sequence of edges: the sum of their times. */
  function Cost(w: Edge -> nat, es: seq<Edge>): nat
    decreases |es|
  {
    if es == [] then 0 else w(es[0]) + Cost(w, es[1..])
  }

  /** `es` is a walk of the road graph from `from` to `to`, each edge an out-edge of the node the previous one reaches. */
  ghost predicate GraphPath(g: Network.RoadGraph, from: Node, es: seq<Edge>, to: Node)
    reads g, g.allNodes, g.allEdges
    decreases |es|
  {
    if es == [] then from == to
    else
      && from in g.allNodes && es[0] in from.outEdges && es[0] in g.allEdges && es[0].targetNode != null
      && GraphPath(g, es[0].targetNode, es[1..], to)
  }

  /**
   * What a search reads of the road graph: its indexed nodes, the out-edges of each, and the
   * source and target node of each listed edge.
   */
  datatype View = View(nodes: set<Node>, out: map<Node, seq<Edge>>, source: map<Edge, Node>, target: map<Edge, Node>)

  /** Every out-edge of a node of the view leaves that node and reaches a node of the view. */
  ghost predicate Wired(v: View) {
    && v.out.Keys == v.nodes
    && forall n | n in v.nodes :: forall e | e in v.out[n] :: e in v.source && e in v.target && v.source[e] == n && v.target[e] in v.nodes
  }

  /** The view of a closed road graph, read field by field. */
  ghost function Snapshot(g: Network.RoadGraph): View
    requires g.Closed()
    reads g, g.allNodes, g.allEdges
  {
    var out: map<Node, seq<Edge>> := map n | n in g.nodes.Values :: n.outEdges;
    var source: map<Edge, Node> := map e | e in g.edges :: e.sourceNode;
    var target: map<Edge, Node> := map e | e in g.edges :: e.targetNode;
    View(g.nodes.Values, out, source, target)
  }

  /** The view of a closed graph is wired, agrees with the heap, and holds the graph's indexed nodes and listed edges. */
  lemma SnapshotWired(g: Network.RoadGraph)
    requires g.Closed()
    ensures var v := Snapshot(g);
      && Wired(v) && Mirrors(v) && v.nodes == g.nodes.Values
      && v.source.Keys == v.target.Keys && forall e | e in v.target :: e in g.edges
  {
  }

  /** The view agrees with the heap on the out-edges of its nodes and the targets of its edges. */
  ghost predicate Mirrors(v: View)
    reads v.out.Keys, v.source.Keys, v.target.Keys
  {
    && (forall n | n in v.out :: n.outEdges == v.out[n])
    && (forall e | e in v.source :: e.sourceNode == v.source[e])
    && (forall e | e in v.target :: e.targetNode == v.target[e])
  }

  /** `es` is a walk of the view from `from` to `to`. */
  ghost predicate IsPath(v: View, from: Node, es: seq<Edge>, to: Node)
    decreases |es|
  {
    if es == [] then from == to
    else from in v.out && es[0] in v.out[from] && es[0] in v.target && IsPath(v, v.target[es[0]], es[1..], to)
  }

  /** From an indexed node, the walks of a closed graph's view are exactly the walks of the graph. */
  lemma {:induction false} SnapshotPaths(g: Network.RoadGraph, from: Node, es: seq<Edge>, to: Node)
    requires g.Closed() && from in g.nodes.Values
    ensures IsPath(Snapshot(g), from, es, to) <==> GraphPath(g, from, es, to)
    decreases |es|
  {
    if es != [] {
      var v := Snapshot(g);
      SnapshotWired(g);
      if es[0] in from.outEdges {
        SnapshotPaths(g, es[0].targetNode, es[1..], to);
      }
    }
  }

  /** The road graph as a layer for `Finder`: its listed edges, each with its line string. */
  function EdgeGeometries(es: seq<Edge>): (r: seq<Geometry>)
    reads es
    ensures |r| == |es| && forall k | 0 <= k < |es| :: r[k] == LineGeometry(es[k].vertices)
  {
    if es == [] then [] else [LineGeometry(es[0].vertices)] + EdgeGeometries(es[1..])
  }

  /**
   * `isForwardRoute`, for two picks on one edge: the start lies on an earlier segment than the
   * end, or on the same segment and nearer to that segment's first vertex.
   */
  function Forward(v: seq<Point>, i1: int, p1: Point, i2: int, p2: Point, dist: Distance): bool
    requires i1 == i2 ==> 0 <= i1 < |v|
  {
    if i1 < i2 then true
    else if i1 == i2 then dist(v[i1], p1) < dist(v[i1], p2)
    else false
  }

  /**
   * Of two distinct places on one edge exactly one lies before the other; places on the same
   * segment at the same distance from its first vertex are in neither order.
   */
  lemma ForwardIsStrictOrder(v: seq<Point>, i1: int, p1: Point, i2: int, p2: Point, dist: Distance)
    requires i1 == i2 ==> 0 <= i1 < |v|
    ensures Forward(v, i1, p1, i2, p2, dist) ==> !Forward(v, i2, p2, i1, p1, dist) && i1 <= i2
    ensures !Forward(v, i1, p1, i2, p2, dist) && !Forward(v, i2, p2, i1, p1, dist)
        <==> i1 == i2 && dist(v[i1], p1) == dist(v[i1], p2)
  {
  }


  // ---------------------------------------------------------------------------------------
  // The search state, as values over a view `v`: the labels `m`, and ghost stamps `st`
  // recording when each label was last lowered (they order nodes of equal time along
  // zero-time edges).
  // ---------------------------------------------------------------------------------------

  /** The labels cover exactly the view's nodes; `order` lists them once each. */
  ghost predicate Keyed(v: View, m: map<Node, NodeInfo>, st: map<Node, nat>, order: seq<Node>) {
    m.Keys == v.nodes && st.Keys == m.Keys && Distinct(order) && (set n | n in order) == m.Keys
  }

  /** `u` comes before `x`: a smaller time, or the same time lowered earlier. */
  ghost predicate Before(m: map<Node, NodeInfo>, st: map<Node, nat>, u: Node, x: Node)
    requires u in m && x in m && u in st && x in st
  {
    Val(m[u].minTime) < Val(m[x].minTime) || (Val(m[u].minTime) == Val(m[x].minTime) && st[u] < st[x])
  }

  /**
   * The label of `x` is sound: unreached with no edge, the origin with no edge, or reached by
   * an out-edge of an earlier reached node, in no less than that node's time plus the edge's.
   */
  ghost predicate Linked(v: View, w: Edge -> nat, m: map<Node, NodeInfo>, st: map<Node, nat>, origin: Node, x: Node)
    requires x in m && m.Keys <= st.Keys
  {
    match m[x].previous
    case None => m[x].minTime.Infinite? || x == origin
    case Some(e) =>
      && e in v.source && e in v.target && v.target[e] == x
      && v.source[e] in m && v.source[e] in v.out && e in v.out[v.source[e]]
      && m[x].minTime.Finite? && m[v.source[e]].minTime.Finite?
      && m[v.source[e]].minTime.time + w(e) <= m[x].minTime.time
      && Before(m, st, v.source[e], x)
  }

  /** The origin has time 0 and no edge, and every label is sound. */
  ghost predicate Tree(v: View, w: Edge -> nat, m: map<Node, NodeInfo>, st: map<Node, nat>, origin: Node)
    requires m.Keys <= st.Keys
  {
    && origin in m && m[origin] == NodeInfo(Finite(0), None)
    && forall x | x in m :: Linked(v, w, m, st, origin, x)
  }

  /** The first `n` out-edges of `u` offer no improvement: each target's time is at most `u`'s plus the edge's. */
  ghost predicate Relaxed(v: View, w: Edge -> nat, m: map<Node, NodeInfo>, u: Node, n: nat)
    requires u in m && u in v.out && n <= |v.out[u]|
  {
    forall k | 0 <= k < n ::
      && v.out[u][k] in v.target && v.target[v.out[u][k]] in m
      && !Below(Plus(m[u].minTime, w(v.out[u][k])), m[v.target[v.out[u][k]]].minTime)
  }

  /** Every reached node that is neither waiting in `list` nor in `skip` has all its out-edges relaxed. */
  ghost predicate Fixed(v: View, w: Edge -> nat, m: map<Node, NodeInfo>, list: seq<Node>, skip: set<Node>) {
    forall u | u in m && m[u].minTime.Finite? && u !in list && u !in skip :: u in v.out && Relaxed(v, w, m, u, |v.out[u]|)
  }

  /** Every stamp was given before `clock`. */
  ghost predicate StampsBelow(st: map<Node, nat>, clock: nat) {
    forall x | x in st :: st[x] < clock
  }

  /** Every node waiting in the work list is a reached node. */
  ghost predicate Waiting(m: map<Node, NodeInfo>, list: seq<Node>) {
    forall k | 0 <= k < |list| :: list[k] in m && m[list[k]].minTime.Finite?
  }

  /** The nodes not reached yet: the first part of the search's termination measure. */
  ghost function Unreached(m: map<Node, NodeInfo>): set<Node> {
    set x | x in m && m[x].minTime.Infinite?
  }

  /** Every node of `order` has a label in `m`. */
  ghost predicate KeysOf(order: seq<Node>, m: map<Node, NodeInfo>) {
    forall k | 0 <= k < |order| :: order[k] in m
  }

  /** The sum of the finite times over `order`: the second part of the termination measure. */
  ghost function LabelSum(m: map<Node, NodeInfo>, order: seq<Node>): nat
    requires KeysOf(order, m)
  {
    if order == [] then 0 else LabelSum(m, order[..|order| - 1]) + Val(m[order[|order| - 1]].minTime)
  }

  lemma {:induction false} LabelSumOther(m: map<Node, NodeInfo>, order: seq<Node>, x: Node, info: NodeInfo)
    requires KeysOf(order, m) && x !in order
    ensures LabelSum(m[x := info], order) == LabelSum(m, order)
  {
    if order != [] {
      LabelSumOther(m, order[..|order| - 1], x, info);
    }
  }

  /** Changing one label of a distinct `order` changes the sum by the difference of the two times. */
  lemma {:induction false} LabelSumUpdate(m: map<Node, NodeInfo>, order: seq<Node>, x: Node, info: NodeInfo)
    requires KeysOf(order, m) && Distinct(order) && x in m && x in order
    ensures LabelSum(m[x := info], order) + Val(m[x].minTime) == LabelSum(m, order) + Val(info.minTime)
  {
    var init := order[..|order| - 1];
    if order[|order| - 1] == x {
      assert x !in init by {
        forall k | 0 <= k < |init| ensures init[k] != x {
          assert init[k] == order[k];
        }
      }
      LabelSumOther(m, init, x, info);
    } else {
      assert x in init by {
        var j :| 0 <= j < |order| && order[j] == x;
        assert init[j] == x;
      }
      assert Distinct(init) by {
        forall i, j | 0 <= i < j < |init| ensures init[i] != init[j] {
          assert init[i] == order[i] && init[j] == order[j];
        }
      }
      LabelSumUpdate(m, init, x, info);
    }
  }

  /** The measure went down: fewer unreached nodes, or as many and a smaller label sum. */
  ghost predicate Lower(m0: map<Node, NodeInfo>, m: map<Node, NodeInfo>, order: seq<Node>)
    requires KeysOf(order, m0) && KeysOf(order, m)
  {
    || |Unreached(m)| < |Unreached(m0)|
    || (|Unreached(m)| == |Unreached(m0)| && LabelSum(m, order) < LabelSum(m0, order))
  }

  /** No label rose: each node's time is the same as before or below it. */
  ghost predicate NoLater(m0: map<Node, NodeInfo>, m: map<Node, NodeInfo>) {
    forall x | x in m0 :: x in m && (m[x].minTime == m0[x].minTime || Below(m[x].minTime, m0[x].minTime))
  }

  /** The label `next` gets from the `i`-th out-edge of `node` when that edge improves it. */
  ghost function Lowered(v: View, w: Edge -> nat, m: map<Node, NodeInfo>, node: Node, i: nat): map<Node, NodeInfo>
    requires node in m && node in v.out && i < |v.out[node]| && v.out[node][i] in v.target
  {
    m[v.target[v.out[node][i]] := NodeInfo(Plus(m[node].minTime, w(v.out[node][i])), Some(v.out[node][i]))]
  }

  /** Lowering the label of the target of the `i`-th out-edge of `node` keeps every label sound. */
  lemma RelaxKeepsTree(v: View, w: Edge -> nat, m: map<Node, NodeInfo>, st: map<Node, nat>, origin: Node,
                       clock: nat, node: Node, i: nat)
    requires Wired(v) && m.Keys == v.nodes && st.Keys == m.Keys && Tree(v, w, m, st, origin)
    requires StampsBelow(st, clock)
    requires node in m && node in v.out && m[node].minTime.Finite? && i < |v.out[node]|
    requires v.out[node][i] in v.target && v.target[v.out[node][i]] in m
    requires Below(Plus(m[node].minTime, w(v.out[node][i])), m[v.target[v.out[node][i]]].minTime)
    ensures v.target[v.out[node][i]] != node && v.target[v.out[node][i]] != origin
    ensures Tree(v, w, Lowered(v, w, m, node, i), st[v.target[v.out[node][i]] := clock], origin)
  {
    var e := v.out[node][i];
    var next := v.target[e];
    var m' := Lowered(v, w, m, node, i);
    var st' := st[next := clock];
    assert e in v.out[node];
    forall x | x in m' ensures Linked(v, w, m', st', origin, x) {
      if x != next {
        assert Linked(v, w, m, st, origin, x);
        match m[x].previous {
          case None =>
          case Some(f) =>
            var u := v.source[f];
            if u == next {
              assert Val(m[u].minTime) <= Val(m[x].minTime);
            }
        }
      }
    }
  }

  /** A lowered label keeps every relaxed out-edge relaxed, for any node whose own label stays. */
  lemma LoweringKeepsRelaxed(v: View, w: Edge -> nat, m: map<Node, NodeInfo>, u: Node, n: nat, next: Node, info: NodeInfo)
    requires u in m && u in v.out && n <= |v.out[u]| && next in m && next != u
    requires Below(info.minTime, m[next].minTime) && m[u].minTime.Finite?
    requires Relaxed(v, w, m, u, n)
    ensures Relaxed(v, w, m[next := info], u, n)
  {
  }

  /** After a relaxation, the nodes outside the work list stay relaxed and `node` has one more out-edge relaxed. */
  lemma RelaxKeepsFixed(v: View, w: Edge -> nat, m: map<Node, NodeInfo>, list: seq<Node>, node: Node, i: nat)
    requires Wired(v) && m.Keys == v.nodes
    requires node in m && node in v.out && m[node].minTime.Finite? && i < |v.out[node]|
    requires v.out[node][i] in v.target && v.target[v.out[node][i]] in m && v.target[v.out[node][i]] != node
    requires Below(Plus(m[node].minTime, w(v.out[node][i])), m[v.target[v.out[node][i]]].minTime)
    requires Fixed(v, w, m, list, {node}) && Relaxed(v, w, m, node, i)
    ensures Fixed(v, w, Lowered(v, w, m, node, i), list + [v.target[v.out[node][i]]], {node})
    ensures Relaxed(v, w, Lowered(v, w, m, node, i), node, i + 1)
  {
    var e := v.out[node][i];
    var next := v.target[e];
    var info := NodeInfo(Plus(m[node].minTime, w(e)), Some(e));
    var m' := m[next := info];
    assert m' == Lowered(v, w, m, node, i);
    forall u | u in m' && m'[u].minTime.Finite? && u !in list + [next] && u !in {node}
      ensures u in v.out && Relaxed(v, w, m', u, |v.out[u]|)
    {
      LoweringKeepsRelaxed(v, w, m, u, |v.out[u]|, next, info);
    }
    LoweringKeepsRelaxed(v, w, m, node, i, next, info);
  }

  /** A relaxation lowers the measure and no label rises. */
  lemma RelaxLowersMeasure(m: map<Node, NodeInfo>, order: seq<Node>, next: Node, info: NodeInfo)
    requires next in m && Distinct(order) && (set n | n in order) == m.Keys
    requires Below(info.minTime, m[next].minTime)
    ensures KeysOf(order, m) && KeysOf(order, m[next := info])
    ensures Lower(m, m[next := info], order) && NoLater(m, m[next := info])
  {
    var m' := m[next := info];
    assert KeysOf(order, m) by {
      forall k | 0 <= k < |order| ensures order[k] in m {
        assert order[k] in (set n | n in order);
      }
    }
    if m[next].minTime.Infinite? {
      assert Unreached(m') == Unreached(m) - {next};
      assert next in Unreached(m);
    } else {
      assert Unreached(m') == Unreached(m);
      assert next in (set n | n in order);
      LabelSumUpdate(m, order, next, info);
    }
  }

  /** The measure falls across two steps when it fell in the second and did not rise in the first. */
  lemma LowerThen(m0: map<Node, NodeInfo>, m1: map<Node, NodeInfo>, m2: map<Node, NodeInfo>, order: seq<Node>)
    requires KeysOf(order, m0) && KeysOf(order, m1) && KeysOf(order, m2)
    requires Lower(m0, m1, order) || m1 == m0
    requires Lower(m1, m2, order)
    ensures Lower(m0, m2, order)
  {
  }

  /** No label rising is transitive. */
  lemma NoLaterThen(m0: map<Node, NodeInfo>, m1: map<Node, NodeInfo>, m2: map<Node, NodeInfo>)
    requires NoLater(m0, m1) && NoLater(m1, m2)
    ensures NoLater(m0, m2)
  {
  }

  // ---------------------------------------------------------------------------------------
  // The loop invariants of `findRoutesFrom`, and the steps that keep them.
  // ---------------------------------------------------------------------------------------

  /** What the search keeps while the work list holds `list` and the out-edges of `skip` are being relaxed. */
  ghost predicate Searching(v: View, w: Edge -> nat, m: map<Node, NodeInfo>, st: map<Node, nat>,
                            order: seq<Node>, origin: Node, clock: nat, list: seq<Node>, skip: set<Node>)
  {
    && Wired(v) && Keyed(v, m, st, order) && Tree(v, w, m, st, origin)
    && StampsBelow(st, clock)
    && Waiting(m, list) && Fixed(v, w, m, list, skip)
  }

  /**
   * The search is over: every node labelled, every label sound, and no out-edge of a reached
   * node improves its target.
   */
  ghost predicate Done(v: View, w: Edge -> nat, m: map<Node, NodeInfo>, st: map<Node, nat>, origin: Node) {
    && Wired(v) && m.Keys == v.nodes && st.Keys == m.Keys
    && Tree(v, w, m, st, origin) && Fixed(v, w, m, [], {})
  }

  /** The first state of the search: every node unreached but the origin, at time 0, the only node listed. */
  lemma Started(v: View, w: Edge -> nat, labels: map<Node, NodeInfo>, st: map<Node, nat>, order: seq<Node>, origin: Node)
    requires Wired(v) && labels.Keys == v.nodes && origin in labels
    requires forall x | x in labels :: labels[x] == NodeInfo(Infinite, None)
    requires Distinct(order) && (set n | n in order) == labels.Keys
    requires st.Keys == labels.Keys && forall x | x in st :: st[x] == 0
    ensures Searching(v, w, labels[origin := NodeInfo(Finite(0), None)], st, order, origin, 1, [origin], {})
    ensures KeysOf(order, labels[origin := NodeInfo(Finite(0), None)])
  {
    var m := labels[origin := NodeInfo(Finite(0), None)];
    assert forall x | x in m :: Linked(v, w, m, st, origin, x);
    assert Waiting(m, [origin]);
    forall k | 0 <= k < |order| ensures order[k] in m {
      assert order[k] in (set n | n in order);
    }
  }

  /** Popping the last node of the work list starts relaxing its out-edges. */
  lemma Pop(v: View, w: Edge -> nat, m: map<Node, NodeInfo>, st: map<Node, nat>,
            order: seq<Node>, origin: Node, clock: nat, list: seq<Node>)
    requires Searching(v, w, m, st, order, origin, clock, list, {}) && list != []
    ensures list[|list| - 1] in m && list[|list| - 1] in v.out && m[list[|list| - 1]].minTime.Finite?
    ensures Searching(v, w, m, st, order, origin, clock, list[..|list| - 1], {list[|list| - 1]})
  {
    var node, init := list[|list| - 1], list[..|list| - 1];
    assert list == init + [node];
  }

  /** Once every out-edge of `node` is relaxed, it needs no place in the work list. */
  lemma FinishNode(v: View, w: Edge -> nat, m: map<Node, NodeInfo>, st: map<Node, nat>,
                   order: seq<Node>, origin: Node, clock: nat, list: seq<Node>, node: Node)
    requires Searching(v, w, m, st, order, origin, clock, list, {node})
    requires node in m && node in v.out && Relaxed(v, w, m, node, |v.out[node]|)
    ensures Searching(v, w, m, st, order, origin, clock, list, {})
  {
  }

  /** Lowering a label to a time keeps the keys, keeps the stamps below the clock, and may list the node. */
  lemma KeptLabels(v: View, m: map<Node, NodeInfo>, st: map<Node, nat>, order: seq<Node>, clock: nat,
                   list: seq<Node>, next: Node, info: NodeInfo)
    requires Keyed(v, m, st, order) && StampsBelow(st, clock) && Waiting(m, list)
    requires next in m && info.minTime.Finite?
    ensures Keyed(v, m[next := info], st[next := clock], order)
    ensures StampsBelow(st[next := clock], clock + 1)
    ensures Waiting(m[next := info], list + [next])
  {
    var m' := m[next := info];
    assert m'.Keys == m.Keys;
    forall k | 0 <= k < |list + [next]| ensures (list + [next])[k] in m' && m'[(list + [next])[k]].minTime.Finite? {
      if k < |list| {
        assert (list + [next])[k] == list[k];
      }
    }
  }

  /**
   * One step of the inner loop, on the `i`-th out-edge of `node`: when it improves its target
   * the lowered label keeps the invariant, relaxes the edge and lowers the measure; otherwise
   * the edge is already relaxed.
   */
  lemma RelaxStep(v: View, w: Edge -> nat, m: map<Node, NodeInfo>, st: map<Node, nat>,
                  order: seq<Node>, origin: Node, clock: nat, list: seq<Node>, node: Node, i: nat)
    requires Searching(v, w, m, st, order, origin, clock, list, {node})
    requires node in m && node in v.out && m[node].minTime.Finite? && i < |v.out[node]| && Relaxed(v, w, m, node, i)
    ensures v.out[node][i] in v.target && v.target[v.out[node][i]] in m
    ensures !Below(Plus(m[node].minTime, w(v.out[node][i])), m[v.target[v.out[node][i]]].minTime) ==>
      Relaxed(v, w, m, node, i + 1)
    ensures Below(Plus(m[node].minTime, w(v.out[node][i])), m[v.target[v.out[node][i]]].minTime) ==>
      && v.target[v.out[node][i]] != node
      && Searching(v, w, Lowered(v, w, m, node, i), st[v.target[v.out[node][i]] := clock], order, origin, clock + 1,
                   list + [v.target[v.out[node][i]]], {node})
      && Relaxed(v, w, Lowered(v, w, m, node, i), node, i + 1)
      && KeysOf(order, m) && KeysOf(order, Lowered(v, w, m, node, i))
      && Lower(m, Lowered(v, w, m, node, i), order) && NoLater(m, Lowered(v, w, m, node, i))
  {
    var e := v.out[node][i];
    assert e in v.out[node];
    var next := v.target[e];
    var t := Plus(m[node].minTime, w(e));
    if Below(t, m[next].minTime) {
      RelaxKeepsTree(v, w, m, st, origin, clock, node, i);
      RelaxKeepsFixed(v, w, m, list, node, i);
      RelaxLowersMeasure(m, order, next, NodeInfo(t, Some(e)));
      KeptLabels(v, m, st, order, clock, list, next, NodeInfo(t, Some(e)));
    }
  }

  // ---------------------------------------------------------------------------------------
  // What a finished search gives.
  // ---------------------------------------------------------------------------------------

  /** At the fixed point no path beats a label: every node a path reaches is reached, no later than the path. */
  lemma {:induction false} NoQuickerPath(v: View, w: Edge -> nat, m: map<Node, NodeInfo>, x: Node, es: seq<Edge>, y: Node)
    requires Wired(v) && m.Keys == v.nodes && Fixed(v, w, m, [], {})
    requires x in m && m[x].minTime.Finite? && IsPath(v, x, es, y)
    ensures y in m && m[y].minTime.Finite? && m[y].minTime.time <= m[x].minTime.time + Cost(w, es)
    decreases |es|
  {
    if es != [] {
      var e := es[0];
      var k :| 0 <= k < |v.out[x]| && v.out[x][k] == e;
      assert Relaxed(v, w, m, x, |v.out[x]|);
      NoQuickerPath(v, w, m, v.target[e], es[1..], y);
    }
  }

  /** At the fixed point the edge a node was reached by is tight: its time is exactly the source's plus the edge's. */
  lemma Tight(v: View, w: Edge -> nat, m: map<Node, NodeInfo>, st: map<Node, nat>, origin: Node, x: Node)
    requires Done(v, w, m, st, origin)
    requires x in m && m[x].previous.Some?
    ensures var e := m[x].previous.value;
      && e in v.source && e in v.target && v.target[e] == x
      && v.source[e] in m && v.source[e] in v.out && e in v.out[v.source[e]]
      && m[v.source[e]].minTime.Finite? && m[x].minTime.Finite?
      && m[v.source[e]].minTime.time + w(e) == m[x].minTime.time && Before(m, st, v.source[e], x)
  {
    assert Linked(v, w, m, st, origin, x);
    var e := m[x].previous.value;
    var u := v.source[e];
    var k :| 0 <= k < |v.out[u]| && v.out[u][k] == e;
    assert Relaxed(v, w, m, u, |v.out[u]|);
  }

  /**
   * Walking back along the edges nodes were reached by, from a node `x` that a tight path
   * joins to `dest`, ends at the origin with a path whose time is the label of `dest`.
   */
  lemma {:induction false} ReachedByTightPath(v: View, w: Edge -> nat, m: map<Node, NodeInfo>, st: map<Node, nat>,
                                              origin: Node, x: Node, path: seq<Edge>, dest: Node)
    requires Done(v, w, m, st, origin)
    requires x in m && m[x].minTime.Finite? && dest in m && m[dest].minTime.Finite?
    requires IsPath(v, x, path, dest) && m[x].minTime.time + Cost(w, path) == m[dest].minTime.time
    ensures exists p :: IsPath(v, origin, p, dest) && Cost(w, p) == m[dest].minTime.time
    decreases m[x].minTime.time, st[x]
  {
    assert Linked(v, w, m, st, origin, x);
    match m[x].previous {
      case None =>
        assert IsPath(v, origin, path, dest) && Cost(w, path) == m[dest].minTime.time;
      case Some(e) =>
        Tight(v, w, m, st, origin, x);
        var p := [e] + path;
        assert p[1..] == path;
        ReachedByTightPath(v, w, m, st, origin, v.source[e], p, dest);
    }
  }

  /** The whole-edge sections of a sequence of edges, as `addSection(edge)` makes them. */
  function WholeSections(es: seq<Edge>): (r: seq<Section>)
    reads es
    ensures |r| == |es| && forall k | 0 <= k < |es| :: r[k] == Section(es[k].vertices, es[k])
  {
    if es == [] then [] else [Section(es[0].vertices, es[0])] + WholeSections(es[1..])
  }

  /**
   * `RouteFinder`: the road graph, the edge times of its `RouteMeter`, the two picks, the
   * labels of the last search and the two end nodes.
   */
  class RouteFinder {
    const graph: Network.RoadGraph
    /**
     * `routeMeter.getTime(edge)`, abstracted to a whole number of time units: it cannot be
     * infinite or NaN (an edge of speed 0) or negative (a negative delay).
     */
    const weight: Edge -> nat
    const dist: Distance
    const seg: SegmentDistance
    const startPick: Pick<Edge>
    const endPick: Pick<Edge>
    var infos: map<Node, NodeInfo>
    var originNode: Network.Node?
    var destinationNode: Network.Node?
    /** The road graph as the last search read it. */
    ghost var view: View
    /** When each label was last lowered. */
    ghost var stamps: map<Node, nat>

    constructor (graph: Network.RoadGraph, weight: Edge -> nat, dist: Distance, seg: SegmentDistance)
      ensures this.graph == graph && this.weight == weight && this.dist == dist && this.seg == seg
      ensures infos == map[] && originNode == null && destinationNode == null
      ensures fresh(startPick) && fresh(endPick) && startPick != endPick
      ensures startPick.feature.None? && endPick.feature.None?
    {
      this.graph := graph;
      this.weight := weight;
      this.dist := dist;
      this.seg := seg;
      startPick := new Pick();
      endPick := new Pick();
      infos := map[];
      originNode := null;
      destinationNode := null;
      view := View({}, map[], map[], map[]);
      stamps := map[];
    }

    /** The graph has not changed since the last search read it. */
    ghost predicate Current()
      reads this`view, graph, graph.allNodes, graph.allEdges
    {
      graph.Closed() && view == Snapshot(graph)
    }

    /** A finished search from `originNode` over the graph it read. */
    ghost predicate Settled()
      reads this`infos, this`stamps, this`originNode, this`view
    {
      originNode != null && Done(view, weight, infos, stamps, originNode)
    }

    /** A pick holding an edge holds a listed edge of the graph and one of its segments. */
    ghost predicate OnGraph(p: Pick<Edge>)
      reads p, graph, graph.allEdges
    {
      p.feature.Some? ==>
        && p.feature.value in graph.edges && p.feature.value in graph.allEdges
        && 0 <= p.edgeSegmentIndex < |p.feature.value.vertices| - 1
    }

    /** What `findByPoint` leaves in a pick that was cleared, over the given edges and their geometries. */
    ghost function Picked(st: PickState<Edge>, edges: seq<Edge>, geometries: seq<Geometry>, world: Point, tolerance: XReal)
      : PickState<Edge>
      requires |edges| == |geometries|
    {
      Scan(st.(feature := None, distance := PosInf), Candidates(edges, geometries, |edges|, world, dist, seg), world, tolerance)
    }

    /** `pick.clear()` then `Finder.findByPoint(roadGraph, point, tolerance, pick)`. */
    method PickEdge(pick: Pick<Edge>, world: Point, tolerance: XReal) returns (found: bool)
      requires graph.Closed()
      modifies pick
      ensures pick.State() == old(Picked(pick.State(), graph.edges, EdgeGeometries(graph.edges), world, tolerance))
      ensures OnGraph(pick) && (found <==> pick.feature.Some?)
      ensures found ==> pick.feature.value.sourceNode in graph.nodes.Values && pick.feature.value.targetNode in graph.nodes.Values
      ensures graph.Closed() && Snapshot(graph) == old(Snapshot(graph))
    {
      ghost var st, geometries, view := pick.State(), EdgeGeometries(graph.edges), Snapshot(graph);
      pick.Clear();
      assert Snapshot(graph) == view && EdgeGeometries(graph.edges) == geometries;
      found := FindEdge(pick, world, tolerance);
      assert pick.State() == Picked(st, graph.edges, geometries, world, tolerance);
    }

    /** `Finder.findByPoint` over the graph's edges, into a cleared pick. */
    method FindEdge(pick: Pick<Edge>, world: Point, tolerance: XReal) returns (found: bool)
      requires graph.Closed() && pick.feature.None? && pick.distance == PosInf
      modifies pick
      ensures pick.State() == old(Picked(pick.State(), graph.edges, EdgeGeometries(graph.edges), world, tolerance))
      ensures OnGraph(pick) && (found <==> pick.feature.Some?)
      ensures found ==> pick.feature.value.sourceNode in graph.nodes.Values && pick.feature.value.targetNode in graph.nodes.Values
      ensures graph.Closed() && Snapshot(graph) == old(Snapshot(graph))
    {
      var geometries := EdgeGeometries(graph.edges);
      found := FindByPoint(graph.edges, geometries, world, tolerance, pick, dist, seg);
      ScanFromLayer(old(pick.State()), graph.edges, geometries, world, tolerance, dist, seg);
    }

    /** `setOrigin(point, tolerance)`: picks the nearest edge and searches from the node it leads to. */
    method SetOriginAt(origin: Point, tolerance: XReal)
      requires graph.Closed()
      modifies this`infos, this`stamps, this`originNode, this`view, startPick
      ensures startPick.State() == old(Picked(startPick.State(), graph.edges, EdgeGeometries(graph.edges), origin, tolerance))
      ensures OnGraph(startPick)
      ensures startPick.feature.Some? ==>
        view == old(Snapshot(graph)) && Settled() && originNode == startPick.feature.value.targetNode
      ensures startPick.feature.None? ==>
        infos == old(infos) && stamps == old(stamps) && originNode == old(originNode) && view == old(view)
    {
      var found := PickEdge(startPick, origin, tolerance);
      if found {
        var startEdge := startPick.feature.value;
        FindRoutesFrom(startEdge.targetNode);
      }
    }

    /** `setOrigin(originNode)`: forgets the start pick and searches from the node. */
    method SetOrigin(node: Node)
      requires graph.Closed() && node in graph.nodes.Values
      modifies this`infos, this`stamps, this`originNode, this`view, startPick
      ensures startPick.State() == old(startPick.State()).(feature := None, distance := PosInf)
      ensures view == old(Snapshot(graph)) && Settled() && originNode == node
    {
      startPick.Clear();
      FindRoutesFrom(node);
    }

    /** `setDestination(point, tolerance)`: picks the nearest edge; the destination is the node it leaves. */
    method SetDestinationAt(destination: Point, tolerance: XReal)
      requires graph.Closed()
      modifies this`destinationNode, endPick
      ensures endPick.State() == old(Picked(endPick.State(), graph.edges, EdgeGeometries(graph.edges), destination, tolerance))
      ensures OnGraph(endPick)
      ensures destinationNode == if endPick.feature.Some? then endPick.feature.value.sourceNode else null
    {
      destinationNode := null;
      var found := PickEdge(endPick, destination, tolerance);
      if found {
        var endEdge := endPick.feature.value;
        destinationNode := endEdge.sourceNode;
      }
    }

    /** `setDestination(destinationNode)`: forgets the end pick. */
    method SetDestination(node: Network.Node?)
      modifies this`destinationNode, endPick
      ensures endPick.State() == old(endPick.State()).(feature := None, distance := PosInf)
      ensures destinationNode == node
    {
      endPick.Clear();
      destinationNode := node;
    }

    /** `clear`: both picks and both end nodes are forgotten; the labels stay. */
    method Clear()
      modifies this`originNode, this`destinationNode, startPick, endPick
      ensures startPick.State() == old(startPick.State()).(feature := None, distance := PosInf)
      ensures endPick.State() == old(endPick.State()).(feature := None, distance := PosInf)
      ensures originNode == null && destinationNode == null
    {
      startPick.Clear();
      endPick.Clear();
      originNode := null;
      destinationNode := null;
    }

    /** `findRoutesFrom(originNode)`: labels every node of the graph with its least time from `origin`. */
    method FindRoutesFrom(origin: Node)
      requires graph.Closed() && origin in graph.nodes.Values
      modifies this`infos, this`stamps, this`originNode, this`view
      ensures view == old(Snapshot(graph)) && Settled() && originNode == origin
      ensures startPick.State() == old(startPick.State()) && OnGraph(startPick) == old(OnGraph(startPick))
      ensures endPick.State() == old(endPick.State()) && OnGraph(endPick) == old(OnGraph(endPick))
    {
      ghost var v := Snapshot(graph);
      var m;
      ghost var st;
      m, st := Search(origin, v);
      Store(origin, m, st, v);
    }

    /** The assignments that end `findRoutesFrom`: the labels and the origin they are from. */
    method Store(origin: Node, m: map<Node, NodeInfo>, ghost st: map<Node, nat>, ghost v: View)
      requires Done(v, weight, m, st, origin)
      modifies this`infos, this`stamps, this`originNode, this`view
      ensures Settled() && originNode == origin && infos == m && view == v
      ensures startPick.State() == old(startPick.State()) && OnGraph(startPick) == old(OnGraph(startPick))
      ensures endPick.State() == old(endPick.State()) && OnGraph(endPick) == old(OnGraph(endPick))
    {
      originNode, infos, stamps, view := origin, m, st, v;
    }

    /**
     * The body of `findRoutesFrom`: every node starts unreached, the origin at time 0 in the
     * work list; the labels it returns are the search's fixed point over the graph's view.
     */
    method Search(origin: Node, ghost v: View) returns (m: map<Node, NodeInfo>, ghost st: map<Node, nat>)
      requires graph.Closed() && v == Snapshot(graph) && origin in graph.nodes.Values
      ensures Done(v, weight, m, st, origin)
    {
      SnapshotWired(graph);
      var labels;
      ghost var order;
      labels, order := Unvisited();
      ghost var st0 := map n | n in labels :: 0;
      Started(v, weight, labels, st0, order, origin);
      m, st := Propagate(labels[origin := NodeInfo(Finite(0), None)], st0, [origin], order, 1, origin, v);
    }

    /** The `for (Node node : roadGraph.getNodes())` loop: a label with no time and no edge for every node. */
    method Unvisited() returns (labels: map<Node, NodeInfo>, ghost order: seq<Node>)
      ensures labels.Keys == graph.nodes.Values
      ensures forall x | x in labels :: labels[x] == NodeInfo(Infinite, None)
      ensures Distinct(order) && (set n | n in order) == labels.Keys
    {
      labels := map[];
      order := [];
      var rest := graph.nodes.Values;
      while rest != {}
        invariant rest <= graph.nodes.Values
        invariant labels.Keys == graph.nodes.Values - rest
        invariant forall x | x in labels :: labels[x] == NodeInfo(Infinite, None)
        invariant Distinct(order) && (set n | n in order) == labels.Keys
        decreases |rest|
      {
        var node :| node in rest;
        AppendDistinct(order, node);
        order := order + [node];
        labels := labels[node := NodeInfo(Infinite, None)];
        rest := rest - {node};
      }
    }

    /** The `while (!list.isEmpty())` loop: pops the last node and relaxes its out-edges, until the list is empty. */
    method Propagate(m0: map<Node, NodeInfo>, ghost st0: map<Node, nat>, list0: seq<Node>, ghost order: seq<Node>,
                     ghost clock0: nat, ghost origin: Node, ghost v: View)
      returns (m: map<Node, NodeInfo>, ghost st: map<Node, nat>)
      requires Mirrors(v)
      requires Searching(v, weight, m0, st0, order, origin, clock0, list0, {}) && KeysOf(order, m0)
      ensures Done(v, weight, m, st, origin) && NoLater(m0, m)
    {
      m, st := m0, st0;
      var list := list0;
      ghost var clock := clock0;
      while list != []
        invariant Searching(v, weight, m, st, order, origin, clock, list, {})
        invariant KeysOf(order, m) && NoLater(m0, m)
        decreases |Unreached(m)|, LabelSum(m, order), |list|
      {
        Pop(v, weight, m, st, order, origin, clock, list);
        var node := list[|list| - 1];
        list := list[..|list| - 1];
        ghost var before := m;
        m, st, list, clock := RelaxFrom(node, m, st, list, order, clock, origin, v);
        NoLaterThen(m0, before, m);
      }
    }

    /** The `for (Edge edge : node.outEdges)` loop: lowers each target whose time the edge improves, and lists it. */
    method RelaxFrom(node: Node, m0: map<Node, NodeInfo>, ghost st0: map<Node, nat>, list0: seq<Node>,
                     ghost order: seq<Node>, ghost clock0: nat, ghost origin: Node, ghost v: View)
      returns (m: map<Node, NodeInfo>, ghost st: map<Node, nat>, list: seq<Node>, ghost clock: nat)
      requires Mirrors(v)
      requires Searching(v, weight, m0, st0, order, origin, clock0, list0, {node})
      requires node in m0 && node in v.out && m0[node].minTime.Finite? && KeysOf(order, m0)
      ensures Searching(v, weight, m, st, order, origin, clock, list, {})
      ensures KeysOf(order, m) && NoLater(m0, m)
      ensures Lower(m0, m, order) || (m == m0 && list == list0)
    {
      var edges := node.outEdges;
      m, st, list, clock := m0, st0, list0, clock0;
      var i := 0;
      while i < |edges|
        invariant 0 <= i <= |edges| && edges == v.out[node]
        invariant Searching(v, weight, m, st, order, origin, clock, list, {node})
        invariant node in m && m[node].minTime == m0[node].minTime
        invariant Relaxed(v, weight, m, node, i)
        invariant KeysOf(order, m) && NoLater(m0, m)
        invariant Lower(m0, m, order) || (m == m0 && list == list0)
      {
        RelaxStep(v, weight, m, st, order, origin, clock, list, node, i);
        var edge := edges[i];
        var next := edge.targetNode;
        var time := Plus(m[node].minTime, weight(edge));
        if Below(time, m[next].minTime) {
          ghost var before := m;
          m := m[next := NodeInfo(time, Some(edge))];
          st := st[next := clock];
          clock := clock + 1;
          list := list + [next];
          LowerThen(m0, before, m, order);
          NoLaterThen(m0, before, m);
        }
        i := i + 1;
      }
      FinishNode(v, weight, m, st, order, origin, clock, list, node);
    }

    /** `isRouteInFirstEdge`: both picks hold the same edge. */
    predicate InFirstEdge()
      reads startPick, endPick
    {
      startPick.feature == endPick.feature && startPick.feature.Some?
    }

    /** `isForwardRoute`, for two picks on one edge. */
    predicate IsForwardRoute()
      reads startPick, endPick, if startPick.feature.Some? then {startPick.feature.value} else {}
      requires InFirstEdge()
      requires startPick.edgeSegmentIndex == endPick.edgeSegmentIndex ==>
        0 <= startPick.edgeSegmentIndex < |startPick.feature.value.vertices|
    {
      Forward(startPick.feature.value.vertices, startPick.edgeSegmentIndex, startPick.onFeaturePoint,
              endPick.edgeSegmentIndex, endPick.onFeaturePoint, dist)
    }

    /** The route lies within the one edge both picks hold, the start before the end. */
    predicate WithinEdge()
      reads startPick, endPick, graph, graph.allEdges
      requires OnGraph(startPick)
    {
      InFirstEdge() && IsForwardRoute()
    }

    /** The section `getRoute` makes when the route lies within one edge. */
    ghost function PartialSection(): Section
      reads startPick, endPick, graph, graph.allEdges
      requires OnGraph(startPick) && OnGraph(endPick) && WithinEdge()
    {
      var e := startPick.feature.value;
      Section(PartialPart(e.vertices, startPick.onFeaturePoint, startPick.edgeSegmentIndex,
                          endPick.onFeaturePoint, endPick.edgeSegmentIndex), e)
    }

    /** The initial section `getRoute` makes from the start pick, if it holds an edge. */
    ghost function StartSections(): seq<Section>
      reads startPick, graph, graph.allEdges
      requires OnGraph(startPick)
    {
      if startPick.feature.None? then []
      else [Section(InitialPart(startPick.feature.value.vertices, startPick.onFeaturePoint, startPick.edgeSegmentIndex),
                    startPick.feature.value)]
    }

    /** The ending section `getRoute` makes from the end pick, if it holds an edge. */
    ghost function EndSections(): seq<Section>
      reads endPick, graph, graph.allEdges
      requires OnGraph(endPick)
    {
      if endPick.feature.None? then []
      else [Section(EndingPart(endPick.feature.value.vertices, endPick.onFeaturePoint, endPick.edgeSegmentIndex),
                    endPick.feature.value)]
    }

    /**
     * `getRoute`: no route without both end nodes; the stretch between the picks when both lie
     * on one edge, start first; otherwise the quickest route the labels give, from the start
     * pick through whole edges to the end pick, or an empty route when the destination was not
     * reached. `path` is the sequence of whole edges.
     */
    method GetRoute() returns (route: Route?, ghost path: seq<Edge>)
      requires originNode != null && destinationNode != null ==> OnGraph(startPick) && OnGraph(endPick)
      requires originNode != null && destinationNode != null && !WithinEdge() ==>
        Mirrors(view) && Settled() && destinationNode in infos
      ensures route == null <==> originNode == null || destinationNode == null
      ensures route != null ==> fresh(route)
      ensures route != null && WithinEdge() ==> route.sections == [PartialSection()] && path == []
      ensures route != null && !WithinEdge() && infos[destinationNode].minTime.Infinite? ==> route.sections == [] && path == []
      ensures route != null && !WithinEdge() && infos[destinationNode].minTime.Finite? ==>
        && route.sections == StartSections() + WholeSections(path) + EndSections()
        && IsPath(view, originNode, path, destinationNode)
        && Cost(weight, path) == infos[destinationNode].minTime.time
        && forall p | IsPath(view, originNode, p, destinationNode) :: Cost(weight, path) <= Cost(weight, p)
    {
      path := [];
      if originNode == null || destinationNode == null {
        return null, path;
      }
      route := new Route();
      if InFirstEdge() && IsForwardRoute() {
        var edge := startPick.feature.value;
        var _ := route.AddPartialSection(edge, startPick.onFeaturePoint, startPick.edgeSegmentIndex,
                                         endPick.onFeaturePoint, endPick.edgeSegmentIndex);
      } else if infos[destinationNode].minTime.Finite? {
        path := AddQuickest(route);
      }
    }

    /**
     * The reached-destination branch of `getRoute`, into an empty route: the initial section,
     * the edges found walking back from the destination, in order, and the ending section.
     */
    method AddQuickest(route: Route) returns (ghost path: seq<Edge>)
      requires OnGraph(startPick) && OnGraph(endPick) && route.sections == []
      requires Mirrors(view) && Settled() && destinationNode != null && destinationNode in infos
      requires infos[destinationNode].minTime.Finite?
      modifies route
      ensures route.sections == StartSections() + WholeSections(path) + EndSections()
      ensures IsPath(view, originNode, path, destinationNode)
      ensures Cost(weight, path) == infos[destinationNode].minTime.time
      ensures forall p | IsPath(view, originNode, p, destinationNode) :: Cost(weight, path) <= Cost(weight, p)
    {
      ghost var start := StartSections();
      if startPick.feature.Some? {
        var _ := route.AddInitialSection(startPick.feature.value, startPick.onFeaturePoint, startPick.edgeSegmentIndex);
      }
      assert route.sections == start;
      var reversedEdges;
      reversedEdges, path := Predecessors();
      FinishRoute(route, reversedEdges, path);
      assert StartSections() == start;
      Quickest(path);
    }

    /** The end of `getRoute`: the whole edges, then the ending section when the end pick holds an edge. */
    method FinishRoute(route: Route, reversedEdges: seq<Edge>, ghost path: seq<Edge>)
      requires path == Reversed(reversedEdges) && OnGraph(endPick)
      modifies route
      ensures route.sections == old(route.sections) + WholeSections(path) + EndSections()
    {
      AddWholeSections(route, reversedEdges, path);
      if endPick.feature.Some? {
        var _ := route.AddEndingSection(endPick.feature.value, endPick.onFeaturePoint, endPick.edgeSegmentIndex);
      }
    }

    /** The `for` loop of `getRoute`: the whole edges, from the last found back to the first. */
    method AddWholeSections(route: Route, reversedEdges: seq<Edge>, ghost path: seq<Edge>)
      requires path == Reversed(reversedEdges)
      modifies route
      ensures route.sections == old(route.sections) + WholeSections(path)
    {
      ghost var whole := WholeSections(path);
      var i := |reversedEdges|;
      while i > 0
        invariant 0 <= i <= |reversedEdges|
        invariant route.sections == old(route.sections) + whole[..|reversedEdges| - i]
      {
        i := i - 1;
        ghost var j := |reversedEdges| - 1 - i;
        assert path[j] == reversedEdges[i];
        assert whole[..j + 1] == whole[..j] + [whole[j]];
        var _ := route.AddSection(reversedEdges[i]);
      }
      assert whole[..|reversedEdges|] == whole;
    }

    /**
     * The `while (nodeInfo.previous != null)` loop of `getRoute`: the edges by which the
     * destination and then each node before it were reached, back to the origin.
     */
    method Predecessors() returns (reversedEdges: seq<Edge>, ghost path: seq<Edge>)
      requires Mirrors(view) && Settled() && destinationNode != null && destinationNode in infos
      requires infos[destinationNode].minTime.Finite?
      ensures path == Reversed(reversedEdges)
      ensures IsPath(view, originNode, path, destinationNode) && Cost(weight, path) == infos[destinationNode].minTime.time
    {
      var nodeInfo := infos[destinationNode];
      ghost var x: Node := destinationNode;
      reversedEdges, path := [], [];
      while nodeInfo.previous.Some?
        invariant x in infos && nodeInfo == infos[x] && nodeInfo.minTime.Finite?
        invariant path == Reversed(reversedEdges)
        invariant IsPath(view, x, path, destinationNode)
        invariant infos[x].minTime.time + Cost(weight, path) == infos[destinationNode].minTime.time
        decreases infos[x].minTime.time, stamps[x]
      {
        var e := nodeInfo.previous.value;
        Tight(view, weight, infos, stamps, originNode, x);
        ReversedSnoc(reversedEdges, e);
        reversedEdges := reversedEdges + [e];
        assert ([e] + path)[1..] == path;
        path := [e] + path;
        x := view.source[e];
        nodeInfo := infos[e.sourceNode];
      }
      assert Linked(view, weight, infos, stamps, originNode, x);
    }

    /** No walk of the graph the search read reaches the destination quicker than `path`. */
    lemma Quickest(path: seq<Edge>)
      requires Settled() && destinationNode != null && destinationNode in infos
      requires infos[destinationNode].minTime.Finite? && Cost(weight, path) == infos[destinationNode].minTime.time
      ensures forall p | IsPath(view, originNode, p, destinationNode) :: Cost(weight, path) <= Cost(weight, p)
    {
      forall p | IsPath(view, originNode, p, destinationNode) ensures Cost(weight, path) <= Cost(weight, p) {
        NoQuickerPath(view, weight, infos, originNode, p, destinationNode);
      }
    }

    /** After a search, every node a walk from the origin reaches is labelled with a time no later than the walk's. */
    lemma ShortestTimes(x: Node, p: seq<Edge>)
      requires Settled() && IsPath(view, originNode, p, x)
      ensures x in infos && infos[x].minTime.Finite? && infos[x].minTime.time <= Cost(weight, p)
    {
      NoQuickerPath(view, weight, infos, originNode, p, x);
    }

    /** After a search, every reached node's time is the time of some walk from the origin. */
    lemma ReachedByPath(x: Node)
      requires Settled() && x in infos && infos[x].minTime.Finite?
      ensures exists p :: IsPath(view, originNode, p, x) && Cost(weight, p) == infos[x].minTime.time
    {
      ReachedByTightPath(view, weight, infos, stamps, originNode, x, [], x);
    }
  }

  /** One more edge at the end gives one more whole section at the end. */
  lemma WholeSectionsSnoc(es: seq<Edge>, e: Edge)
    ensures WholeSections(es + [e]) == WholeSections(es) + [Section(e.vertices, e)]
  {
    var a, b := WholeSections(es + [e]), WholeSections(es) + [Section(e.vertices, e)];
    assert |a| == |b|;
    forall k | 0 <= k < |a| ensures a[k] == b[k] {
      if k < |es| {
        assert (es + [e])[k] == es[k];
      }
    }
  }
}
