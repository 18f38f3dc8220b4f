/**
 * The road network (`RoadGraph`): directed edges are polylines, and nodes are created and
 * deleted implicitly, one per distinct endpoint position, looked up by exact equality of
 * the point. `linkNodes`/`unlinkNodes` keep the node index, the nodes' in/out lists and the
 * edge list consistent under every operation that changes an edge.
 */
module Network {
  import opened Lists
  import opened Geom

  /** A junction: the position that is its key in the index, and the edges that end / start there. */
  class Node {
    const point: Point
    var inEdges: seq<Edge>
    var outEdges: seq<Edge>

    constructor (point: Point)
      ensures this.point == point && inEdges == [] && outEdges == []
    {
      this.point := point;
      inEdges := [];
      outEdges := [];
    }

    /** Enters `e` at the end of the out-list unless it is already there. */
    method AddOutEdge(e: Edge)
      modifies this`outEdges
      ensures outEdges == if e in old(outEdges) then old(outEdges) else old(outEdges) + [e]
    {
      if e !in outEdges {
        outEdges := outEdges + [e];
      }
    }

    /** Enters `e` at the end of the in-list unless it is already there. */
    method AddInEdge(e: Edge)
      modifies this`inEdges
      ensures inEdges == if e in old(inEdges) then old(inEdges) else old(inEdges) + [e]
    {
      if e !in inEdges {
        inEdges := inEdges + [e];
      }
    }

    /** `isConnectedTo`: scans the out-edges, stopping at the first one that ends at `next`. */
    method IsConnectedTo(next: Node) returns (connected: bool)
      ensures connected <==> exists e :: e in outEdges && e.targetNode == next
    {
      connected := false;
      var i := 0;
      while i < |outEdges| && !connected
        invariant 0 <= i <= |outEdges|
        invariant connected ==> 0 < i && outEdges[i - 1].targetNode == next
        invariant !connected ==> forall k | 0 <= k < i :: outEdges[k].targetNode != next
      {
        connected := outEdges[i].targetNode == next;
        i := i + 1;
      }
      if connected {
        assert outEdges[i - 1] in outEdges;
      }
    }
  }

  /** Metres taken by one vehicle and by the gap to the next one. */
  const VehicleLength: real := 4.5
  const VehicleSeparation: real := 2.0

  /**
   * `Edge.Indicators.getCapacity`, vehicles per minute: `lanes * (1000 * speed)` is an `int`
   * product, so it wraps around at 32 bits before it is divided.
   */
  function Capacity(lanes: int, speed: int): real {
    Wrap32(lanes * Wrap32(1000 * speed)) as real / (60.0 * (VehicleLength + VehicleSeparation))
  }

  /**
   * While `lanes * 1000 * speed` fits in an `int`, the capacity is that product over the 390
   * metre-minutes one vehicle with its gap takes at 1 m/min, and it is never negative.
   */
  lemma CapacityInRange(lanes: nat, speed: nat)
    requires lanes * (1000 * speed) < 0x8000_0000
    ensures Capacity(lanes, speed) == (lanes * (1000 * speed)) as real / 390.0 && Capacity(lanes, speed) >= 0.0
  {
    var m := 1000 * speed;
    var x := lanes * m;
    assert 60.0 * (VehicleLength + VehicleSeparation) == 390.0;
    if lanes == 0 {
      assert lanes * Wrap32(m) == 0;
    } else {
      MultiplyAtLeast(lanes, m);
      assert Wrap32(m) == m;
    }
  }

  /** A product by a positive factor is at least the other factor. */
  lemma MultiplyAtLeast(a: nat, b: nat)
    requires a >= 1
    ensures b <= a * b
  {
  }

  /** Java's 32-bit `int` arithmetic: the result reduced into [-2^31, 2^31). */
  function Wrap32(x: int): (r: int)
    ensures -0x8000_0000 <= r < 0x8000_0000
    ensures -0x8000_0000 <= x < 0x8000_0000 ==> r == x
  {
    (x + 0x8000_0000) % 0x1_0000_0000 - 0x8000_0000
  }

  /**
   * A road segment: a polyline with speed (km/h) and lanes. The `Edge` class of `RoadGraph.java`
   * has no delay; `RouteMeter` and the select tool read and set one through `getDelay` and
   * `setDelay`, so the model adds an `int` delay (s) as those callers use it.
   */
  class Edge {
    const graph: RoadGraph
    /**
     * The traffic counter of `Edge.Indicators`. Each edge has its own indicators object that
     * nothing else shares, so its one field is kept on the edge.
     */
    var vehicleCount: int
    var vertices: seq<Point>
    var speed: int
    var lanes: int
    var delay: int
    var sourceNode: Node?
    var targetNode: Node?

    constructor (graph: RoadGraph, vertices: seq<Point>, speed: int, lanes: int, delay: int)
      ensures this.graph == graph && this.vertices == vertices
      ensures this.speed == speed && this.lanes == lanes && this.delay == delay
      ensures sourceNode == null && targetNode == null
      ensures vehicleCount == 0
    {
      this.graph := graph;
      this.vertices := vertices;
      this.speed := speed;
      this.lanes := lanes;
      this.delay := delay;
      sourceNode := null;
      targetNode := null;
      vehicleCount := 0;
    }

    /** `Indicators.reset`. */
    method ResetIndicators()
      modifies this`vehicleCount
      ensures vehicleCount == 0
    {
      vehicleCount := 0;
    }

    predicate IsLinked()
      reads this
    {
      sourceNode != null
    }

    predicate IsRemoved()
      reads this
    {
      !IsLinked()
    }

    /**
     * `linkNodes`: looks up (or creates, keyed by a copy of the point) the node at the first
     * vertex and the node at the last vertex, and enters the edge in their out- and in-lists
     * unless it is already there. An edge without vertices is left alone. A one-vertex edge,
     * or one whose endpoints are equal, gets the same node as source and target.
     */
    method LinkNodes()
      requires graph.nodes.Values <= graph.allNodes
      requires forall p | p in graph.nodes :: graph.nodes[p].point == p
      requires forall p | p in graph.nodes :: this !in graph.nodes[p].outEdges && this !in graph.nodes[p].inEdges
      modifies this`sourceNode, this`targetNode, graph`nodes, graph`allNodes, graph.allNodes
      ensures |vertices| == 0 ==>
        graph.nodes == old(graph.nodes) && sourceNode == old(sourceNode) &&
        targetNode == old(targetNode) && graph.allNodes == old(graph.allNodes) &&
        forall n | n in graph.allNodes :: n.inEdges == old(n.inEdges) && n.outEdges == old(n.outEdges)
      ensures |vertices| > 0 ==> LinkEffect()
      ensures fresh(graph.allNodes - old(graph.allNodes))
    {
      if |vertices| < 1 {
        return;
      }
      var source := graph.NodeAt(vertices[0]);
      sourceNode := source;
      source.AddOutEdge(this);
      var target := graph.NodeAt(Last(vertices));
      targetNode := target;
      target.AddInEdge(this);
    }

    /**
     * `linkNodes` on a loose edge of the edge list of a consistent graph, first step of the
     * proof: the index still maps into the known nodes, and the edge flags agree with the list.
     */
    method LinkShaped(ghost loose: set<Edge>)
      requires graph.Inv(loose) && this in loose && this in graph.edges && |vertices| > 0
      modifies this`sourceNode, this`targetNode, graph`nodes, graph`allNodes, graph.allNodes
      ensures LinkEffect()
      ensures fresh(graph.allNodes - old(graph.allNodes))
      ensures graph.Shape(loose - {this}) && graph.Flags(loose - {this})
    {
      var g := graph;
      LinkNodes();
      var src, tgt := sourceNode, targetNode;
      forall n | n in g.nodes.Values ensures n in g.allNodes {
        var p :| p in g.nodes && g.nodes[p] == n;
        EntryAfterLink(old(g.nodes), g.nodes, old(g.allNodes), vertices[0], Last(vertices), src, tgt, p);
      }
    }

    /**
     * Second step: every indexed node sits at its own point and lists only edges of the edge
     * list that name it as their endpoint.
     */
    method LinkAttached(ghost loose: set<Edge>)
      requires graph.Inv(loose) && this in loose && this in graph.edges && |vertices| > 0
      modifies this`sourceNode, this`targetNode, graph`nodes, graph`allNodes, graph.allNodes
      ensures LinkEffect()
      ensures fresh(graph.allNodes - old(graph.allNodes))
      ensures graph.Shape(loose - {this}) && graph.Flags(loose - {this}) && graph.NodesOk(loose - {this})
    {
      var g := graph;
      assert g.NodesOk(loose);
      LinkShaped(loose);
      var e := this;
      var src, tgt := e.sourceNode, e.targetNode;
      forall p | p in g.nodes ensures g.nodes[p].point == p && g.Attached(g.nodes[p], loose - {e}) {
        var n := g.nodes[p];
        EntryAfterLink(old(g.nodes), g.nodes, old(g.allNodes), vertices[0], Last(vertices), src, tgt, p);
        if n in old(g.allNodes) {
          assert old(g.nodes)[p] == n;
          assert old(g.Attached(n, loose));
          if n == src || n == tgt {
            assert e !in old(n.outEdges) && e !in old(n.inEdges);
            if n == src { AppendDistinct(old(n.outEdges), e); }
            if n == tgt { AppendDistinct(old(n.inEdges), e); }
          }
          forall f | f in n.outEdges && f != e ensures f in old(n.outEdges) && f.sourceNode == n { }
          forall f | f in n.inEdges && f != e ensures f in old(n.inEdges) && f.targetNode == n { }
        }
      }
    }

    /**
     * `linkNodes` on a loose edge of the edge list of a consistent graph: afterwards the edge
     * is no longer loose, and the graph is consistent with it.
     */
    method Relink(ghost loose: set<Edge>)
      requires graph.Inv(loose) && this in loose && this in graph.edges
      modifies this`sourceNode, this`targetNode, graph`nodes, graph`allNodes, graph.allNodes
      ensures graph.edges == old(graph.edges) && graph.allEdges == old(graph.allEdges)
      ensures old(graph.allNodes) <= graph.allNodes
      ensures |vertices| == 0 ==>
        graph.Inv(loose) && graph.nodes == old(graph.nodes) && sourceNode == old(sourceNode) &&
        targetNode == old(targetNode) && graph.allNodes == old(graph.allNodes)
      ensures |vertices| > 0 ==> LinkedAt(loose)
      ensures fresh(graph.allNodes - old(graph.allNodes))
    {
      if |vertices| == 0 {
        return;
      }
      var g := graph;
      LinkAttached(loose);
      var e := this;
      var src, tgt := e.sourceNode, e.targetNode;
      forall f | f in g.edges && f !in loose - {e} ensures g.Anchored(f) {
        if f != e {
          assert old(g.Anchored(f));
          EntryAfterLink(old(g.nodes), g.nodes, old(g.allNodes), vertices[0], Last(vertices), src, tgt, f.vertices[0]);
          EntryAfterLink(old(g.nodes), g.nodes, old(g.allNodes), vertices[0], Last(vertices), src, tgt, Last(f.vertices));
          var a, b := f.sourceNode, f.targetNode;
          assert a in old(g.allNodes) && b in old(g.allNodes);
          assert f in old(a.outEdges) && f in old(b.inEdges);
        }
      }
    }

    /** What `linkNodes` leaves behind for an edge with at least one vertex. */
    twostate predicate LinkedAt(loose: set<Edge>)
      reads this, graph, graph.allNodes, graph.allEdges
    {
      graph.Inv(loose - {this}) && LinkEffect()
    }

    /** The fields `linkNodes` sets: the two endpoint nodes, the index entries and the lists. */
    twostate predicate LinkEffect()
      reads this, graph, graph.allNodes
    {
      && |vertices| > 0
      && sourceNode != null && targetNode != null
      && sourceNode.point == vertices[0] && targetNode.point == Last(vertices)
      && sourceNode in graph.allNodes && targetNode in graph.allNodes
      && (vertices[0] == Last(vertices) ==> sourceNode == targetNode)
      && graph.nodes == old(graph.nodes)[vertices[0] := sourceNode][Last(vertices) := targetNode]
      && (vertices[0] in old(graph.nodes) ==> sourceNode == old(graph.nodes)[vertices[0]])
      && (Last(vertices) in old(graph.nodes) ==> targetNode == old(graph.nodes)[Last(vertices)])
      && (vertices[0] !in old(graph.nodes) ==> sourceNode !in old(graph.allNodes))
      && (Last(vertices) !in old(graph.nodes) ==> targetNode !in old(graph.allNodes))
      && old(graph.allNodes) <= graph.allNodes
      && graph.allNodes - old(graph.allNodes) <= {sourceNode, targetNode}
      && (forall n | n in old(graph.allNodes) && n != sourceNode && n != targetNode ::
            n.outEdges == old(n.outEdges) && n.inEdges == old(n.inEdges))
      && var src, tgt := sourceNode, targetNode;
         && src.outEdges == (if src in old(graph.allNodes) then old(src.outEdges) else []) + [this]
         && tgt.inEdges == (if tgt in old(graph.allNodes) then old(tgt.inEdges) else []) + [this]
         && (src != tgt ==>
               src.inEdges == (if src in old(graph.allNodes) then old(src.inEdges) else []) &&
               tgt.outEdges == (if tgt in old(graph.allNodes) then old(tgt.outEdges) else []))
    }

    /**
     * `unlinkNodes`: takes the edge out of its source's out-list and its target's in-list,
     * drops from the index an endpoint node whose two lists are then both empty, and clears
     * both links. A missing link is skipped. The source is dealt with, index entry included,
     * before the target's list is touched.
     */
    method UnlinkNodes()
      modifies this`sourceNode, this`targetNode, graph`nodes, AsSet(sourceNode)`outEdges, AsSet(targetNode)`inEdges
      ensures sourceNode == null && targetNode == null
      ensures old(sourceNode) != null && old(targetNode) != null ==> UnlinkEffect(old(sourceNode), old(targetNode))
    {
      DetachSource();
      DetachTarget();
    }

    /**
     * What `unlinkNodes` does to the former source `s0` and target `t0`: one occurrence of the
     * edge leaves each list, and the index loses the point of a node left with no edges (the
     * source is checked before the target's list is touched).
     */
    twostate predicate UnlinkEffect(s0: Node, t0: Node)
      reads this, graph, s0, t0
    {
      && s0.outEdges == RemoveFirst(old(s0.outEdges), this)
      && t0.inEdges == RemoveFirst(old(t0.inEdges), this)
      && (s0 != t0 ==> s0.inEdges == old(s0.inEdges) && t0.outEdges == old(t0.outEdges))
      && graph.nodes ==
           DropIf(DropIf(old(graph.nodes), s0.point, old(s0.inEdges) == [] && s0.outEdges == []),
                  t0.point, t0.inEdges == [] && t0.outEdges == [])
    }

    /** The source half of `unlinkNodes`. */
    method DetachSource()
      modifies this`sourceNode, graph`nodes, AsSet(sourceNode)`outEdges
      ensures sourceNode == null
      ensures var s0 := old(sourceNode);
        && (s0 != null ==> s0.outEdges == RemoveFirst(old(s0.outEdges), this))
        && graph.nodes ==
             if s0 == null then old(graph.nodes)
             else DropIf(old(graph.nodes), s0.point, s0.inEdges == [] && s0.outEdges == [])
    {
      var src := sourceNode;
      if src != null {
        src.outEdges := RemoveFirst(src.outEdges, this);
        if src.inEdges == [] && src.outEdges == [] {
          graph.nodes := graph.nodes - {src.point};
        }
        sourceNode := null;
      }
    }

    /** The target half of `unlinkNodes`. */
    method DetachTarget()
      modifies this`targetNode, graph`nodes, AsSet(targetNode)`inEdges
      ensures targetNode == null
      ensures var t0 := old(targetNode);
        && (t0 != null ==> t0.inEdges == RemoveFirst(old(t0.inEdges), this))
        && graph.nodes ==
             if t0 == null then old(graph.nodes)
             else DropIf(old(graph.nodes), t0.point, t0.inEdges == [] && t0.outEdges == [])
    {
      var tgt := targetNode;
      if tgt != null {
        tgt.inEdges := RemoveFirst(tgt.inEdges, this);
        if tgt.inEdges == [] && tgt.outEdges == [] {
          graph.nodes := graph.nodes - {tgt.point};
        }
        targetNode := null;
      }
    }

    /**
     * `unlinkNodes` on a listed edge of a consistent graph, first step of the proof: the index
     * entries other than the edge's two endpoints are untouched and attached once it is loose.
     */
    method DetachOthers()
      requires graph.Valid() && this in graph.edges
      modifies this`sourceNode, this`targetNode, graph`nodes, AsSet(sourceNode)`outEdges, AsSet(targetNode)`inEdges
      ensures sourceNode == null && targetNode == null
      ensures UnlinkEffect(old(sourceNode), old(targetNode))
      ensures old(graph.Anchored(this))
      ensures graph.Shape({this}) && graph.Flags({this})
      ensures forall p | p in graph.nodes ::
        p in old(graph.nodes) && graph.nodes[p] == old(graph.nodes)[p] && graph.nodes[p].point == p &&
        (graph.nodes[p] != old(sourceNode) && graph.nodes[p] != old(targetNode) ==> graph.Attached(graph.nodes[p], {this}))
    {
      var g, e := graph, this;
      assert g.Anchored(e) && g.NodesOk({});
      var s0, t0 := sourceNode, targetNode;
      UnlinkNodes();
      forall p | p in g.nodes && g.nodes[p] != s0 && g.nodes[p] != t0 ensures g.Attached(g.nodes[p], {e}) {
        var n := g.nodes[p];
        assert p in old(g.nodes) && n == old(g.nodes)[p];
        assert old(g.Attached(n, {}));
        forall f | f in n.outEdges ensures f != e && f.sourceNode == n { }
        forall f | f in n.inEdges ensures f != e && f.targetNode == n { }
      }
    }

    /**
     * Second step: the endpoints that stay in the index are still attached, too.
     */
    method Detach()
      requires graph.Valid() && this in graph.edges
      modifies this`sourceNode, this`targetNode, graph`nodes, AsSet(sourceNode)`outEdges, AsSet(targetNode)`inEdges
      ensures sourceNode == null && targetNode == null
      ensures UnlinkEffect(old(sourceNode), old(targetNode))
      ensures old(graph.Anchored(this))
      ensures graph.Shape({this}) && graph.Flags({this}) && graph.NodesOk({this})
      ensures forall n | n in graph.allNodes && n != old(sourceNode) :: n.outEdges == old(n.outEdges)
      ensures forall n | n in graph.allNodes && n != old(targetNode) :: n.inEdges == old(n.inEdges)
    {
      var g, e := graph, this;
      var s0, t0 := sourceNode, targetNode;
      assert g.Attached(s0, {}) && g.Attached(t0, {});
      DetachOthers();
      forall p | p in g.nodes && (g.nodes[p] == s0 || g.nodes[p] == t0) ensures g.Attached(g.nodes[p], {e}) {
        var n := g.nodes[p];
        RemoveFirstDistinct(old(n.outEdges), e);
        RemoveFirstDistinct(old(n.inEdges), e);
        if s0 != t0 {
          assert Last(e.vertices) != e.vertices[0];
        }
        if n == t0 {
          assert t0.point == p && !(t0.inEdges == [] && t0.outEdges == []);
        } else {
          assert s0.point == p && s0.inEdges == old(s0.inEdges) && !(old(s0.inEdges) == [] && s0.outEdges == []);
        }
        forall f | f in n.outEdges ensures f in old(n.outEdges) && f != e && f.sourceNode == n { }
        forall f | f in n.inEdges ensures f in old(n.inEdges) && f != e && f.targetNode == n { }
      }
    }

    /**
     * `unlinkNodes` on a listed edge of a consistent graph: afterwards the edge is loose, in
     * no node list, and the graph is consistent without it.
     */
    method Unlink()
      requires graph.Valid() && this in graph.edges
      modifies this`sourceNode, this`targetNode, graph`nodes, AsSet(sourceNode)`outEdges, AsSet(targetNode)`inEdges
      ensures sourceNode == null && targetNode == null
      ensures UnlinkEffect(old(sourceNode), old(targetNode))
      ensures graph.Inv({this}) && graph.edges == old(graph.edges)
    {
      var g, e := graph, this;
      var s0, t0 := sourceNode, targetNode;
      Detach();
      forall f | f in g.edges && f !in {e} ensures g.Anchored(f) {
        assert old(g.Anchored(f));
        var a, b := f.sourceNode, f.targetNode;
        assert f in old(a.outEdges) && f in old(b.inEdges);
        if a == s0 {
          assert a.outEdges == RemoveFirst(old(a.outEdges), e);
          RemoveFirstKeeps(old(a.outEdges), e, f);
        }
        if b == t0 {
          assert b.inEdges == RemoveFirst(old(b.inEdges), e);
          RemoveFirstKeeps(old(b.inEdges), e, f);
        }
        assert g.nodes[f.vertices[0]] == a && g.nodes[Last(f.vertices)] == b;
      }
    }

    /**
     * `add` as corrected: an unlinked edge with at least one vertex is linked and appended to
     * the edge list; an edge that is already linked, or has no vertices, is left alone. The
     * edge is appended before it is linked, which gives the same final state as the source's
     * link-then-append.
     */
    method Add()
      requires graph.Valid() && this in graph.allEdges
      modifies this`sourceNode, this`targetNode, graph`nodes, graph`allNodes, graph`edges, graph.allNodes
      ensures graph.Valid() && graph.allEdges == old(graph.allEdges) && fresh(graph.allNodes - old(graph.allNodes))
      ensures speed == old(speed) && lanes == old(lanes) && delay == old(delay)
      ensures old(IsLinked()) || |vertices| == 0 ==>
        graph.edges == old(graph.edges) && graph.nodes == old(graph.nodes) &&
        sourceNode == old(sourceNode) && targetNode == old(targetNode)
      ensures !old(IsLinked()) && |vertices| > 0 ==>
        && graph.edges == old(graph.edges) + [this]
        && LinkEffect()
        && sourceNode == graph.nodes[vertices[0]] && targetNode == graph.nodes[Last(vertices)]
        && this in sourceNode.outEdges && this in targetNode.inEdges
    {
      if !IsLinked() && |vertices| > 0 {
        graph.Enlist(this);
        Relink({this});
      }
    }

    /**
     * `add` as written: `linkNodes` returns early on an edge without vertices, but the edge
     * is appended all the same, so it sits in the edge list while `isRemoved` still holds.
     */
    method AddAsWritten()
      requires graph.Valid() && this in graph.allEdges
      modifies this`sourceNode, this`targetNode, graph`nodes, graph`allNodes, graph`edges, graph.allNodes
      ensures !old(IsLinked()) && |vertices| == 0 ==>
        graph.edges == old(graph.edges) + [this] && IsRemoved() && !graph.Valid()
    {
      if !IsLinked() {
        assert forall p | p in graph.nodes :: graph.Attached(graph.nodes[p], {});
        LinkNodes();
        graph.edges := graph.edges + [this];
      }
    }

    /**
     * `remove`: a linked edge is unlinked and taken out of the edge list; an endpoint node
     * left without edges leaves the index. An unlinked edge is left alone.
     */
    method Remove()
      requires graph.Valid() && this in graph.allEdges
      modifies this`sourceNode, this`targetNode, graph`nodes, graph`edges, AsSet(sourceNode)`outEdges, AsSet(targetNode)`inEdges
      ensures graph.Valid() && !IsLinked() && targetNode == null && this !in graph.edges
      ensures !old(IsLinked()) ==> graph.edges == old(graph.edges) && graph.nodes == old(graph.nodes)
      ensures old(IsLinked()) ==>
        graph.edges == RemoveFirst(old(graph.edges), this) && UnlinkEffect(old(sourceNode), old(targetNode))
      ensures forall p | p in graph.nodes :: this !in graph.nodes[p].outEdges && this !in graph.nodes[p].inEdges
    {
      if IsLinked() {
        Unlink();
        graph.Delist(this);
      }
    }

    /**
     * `add` followed by `remove` on an unlinked edge with vertices: the node index and the edge
     * list are back as they were (a node made for the edge is dropped again).
     */
    method AddThenRemove()
      requires graph.Valid() && this in graph.allEdges && !IsLinked() && |vertices| > 0
      modifies this`sourceNode, this`targetNode, graph`nodes, graph`allNodes, graph`edges, graph.allNodes
      ensures graph.Valid() && IsRemoved()
      ensures graph.edges == old(graph.edges) && graph.nodes == old(graph.nodes)
    {
      var g, e := graph, this;
      ghost var N0, E0, A0 := g.nodes, g.edges, g.allNodes;
      ghost var p0, p1 := vertices[0], Last(vertices);
      assert e !in E0;
      Add();
      ghost var s, t := sourceNode, targetNode;
      ghost var N1 := g.nodes;
      ghost var sIn, sOut, tIn, tOut := s.inEdges, s.outEdges, t.inEdges, t.outEdges;
      ghost var sOut0 := if s in A0 then old(s.outEdges) else [];
      ghost var sIn0 := if s in A0 then old(s.inEdges) else [];
      ghost var tOut0 := if t in A0 then old(t.outEdges) else [];
      ghost var tIn0 := if t in A0 then old(t.inEdges) else [];
      assert s in A0 ==> p0 in N0 && N0[p0] == s && old(g.Attached(s, {}));
      assert t in A0 ==> p1 in N0 && N0[p1] == t && old(g.Attached(t, {}));
      assert e !in sOut0 && e !in tIn0;
      Remove();
      RemoveAppended(E0, e);
      RemoveAppended(sOut0, e);
      RemoveAppended(tIn0, e);
      assert s.outEdges == sOut0 && t.inEdges == tIn0;
      ghost var d0 := sIn == [] && s.outEdges == [];
      ghost var d1 := t.inEdges == [] && t.outEdges == [];
      if s == t {
        assert p0 == p1 && sIn != [];
      } else {
        assert p0 != p1 && s.inEdges == sIn0 && t.outEdges == tOut0;
      }
      IndexRestored(N0, p0, p1, s, t, d0, d1);
    }

    /**
     * The pattern `reverse`, `setGeometry` and `transform` share for a linked edge:
     * `unlinkNodes`, new vertices, `linkNodes`. An edge given no vertices stays unlinked.
     */
    method Relocate(v: seq<Point>)
      requires graph.Valid() && this in graph.edges
      modifies this`vertices, this`sourceNode, this`targetNode, graph`nodes, graph`allNodes, graph.allNodes
      ensures vertices == v && graph.edges == old(graph.edges) && fresh(graph.allNodes - old(graph.allNodes))
      ensures |v| == 0 ==> graph.Inv({this}) && sourceNode == null && targetNode == null
      ensures |v| > 0 ==>
        && graph.Valid()
        && sourceNode == graph.nodes[v[0]] && targetNode == graph.nodes[Last(v)]
        && this in sourceNode.outEdges && this in targetNode.inEdges
    {
      Unhook(v);
      Relink({this});
      if |v| > 0 {
        assert graph.Anchored(this);
      }
    }

    /** The first two steps of `Relocate`: the edge is unlinked, then given its new vertices. */
    method Unhook(v: seq<Point>)
      requires graph.Valid() && this in graph.edges
      modifies this`vertices, this`sourceNode, this`targetNode, graph`nodes, graph.allNodes
      ensures vertices == v && graph.edges == old(graph.edges) && graph.allNodes == old(graph.allNodes)
      ensures graph.Inv({this}) && sourceNode == null && targetNode == null
    {
      assert graph.Anchored(this);
      Unlink();
      Redraw(v, {this});
    }

    /** New vertices for a loose edge: the rest of the graph does not depend on them. */
    method Redraw(v: seq<Point>, ghost loose: set<Edge>)
      requires graph.Inv(loose) && this in loose
      modifies this`vertices
      ensures graph.Inv(loose) && vertices == v
    {
      var g := graph;
      assert g.Shape(loose) && g.Flags(loose) && g.NodesOk(loose) && g.AnchorsOk(loose);
      vertices := v;
    }

    /** New vertices for an unlinked edge: nothing else changes. */
    method Retouch(v: seq<Point>)
      requires graph.Valid() && this in graph.allEdges && !IsLinked()
      modifies this`vertices
      ensures graph.Valid() && vertices == v
    {
      assert this !in graph.edges;
      vertices := v;
    }

    /**
     * `reverse`: the vertex order is reversed; a linked edge is unlinked first and linked
     * again afterwards, so that its source becomes the node at its old end point and its
     * target the node at its old start point.
     */
    method Reverse()
      requires graph.Valid() && this in graph.allEdges
      modifies this`vertices, this`sourceNode, this`targetNode, graph`nodes, graph`allNodes, graph.allNodes
      ensures graph.Valid() && graph.edges == old(graph.edges) && fresh(graph.allNodes - old(graph.allNodes))
      ensures vertices == Reversed(old(vertices))
      ensures IsLinked() == old(IsLinked())
      ensures old(IsLinked()) ==>
        && sourceNode != null && targetNode != null
        && sourceNode == graph.nodes[old(Last(vertices))] && targetNode == graph.nodes[old(vertices[0])]
        && this in sourceNode.outEdges && this in targetNode.inEdges
    {
      if IsLinked() {
        Relocate(Reversed(vertices));
      } else {
        Retouch(Reversed(vertices));
      }
    }

    /**
     * `reverse` is its own undo (reversing edges twice, as the reverse-edges action does on
     * undo): the vertex order and the end nodes' points are back as they were.
     */
    method ReverseTwice()
      requires graph.Valid() && this in graph.allEdges
      modifies this`vertices, this`sourceNode, this`targetNode, graph`nodes, graph`allNodes, graph.allNodes
      ensures graph.Valid() && graph.edges == old(graph.edges)
      ensures vertices == old(vertices) && IsLinked() == old(IsLinked())
      ensures old(IsLinked()) ==>
        && sourceNode != null && targetNode != null
        && sourceNode == graph.nodes[vertices[0]] && targetNode == graph.nodes[Last(vertices)]
        && sourceNode.point == old(sourceNode.point) && targetNode.point == old(targetNode.point)
    {
      ghost var v := vertices;
      if IsLinked() {
        assert graph.Anchored(this);
      }
      Reverse();
      Reverse();
      ReversedTwice(v);
    }

    /**
     * `setGeometry` as corrected: only a line string is taken. A linked edge is unlinked,
     * given the new vertices and linked again; one whose new line string has no vertices
     * cannot be linked, and leaves the edge list, as `remove` would do.
     */
    method SetGeometry(geometry: Geometry)
      requires graph.Valid() && this in graph.allEdges
      modifies this`vertices, this`sourceNode, this`targetNode, graph`nodes, graph`allNodes, graph`edges, graph.allNodes
      ensures graph.Valid() && graph.allEdges == old(graph.allEdges) && fresh(graph.allNodes - old(graph.allNodes))
      ensures !geometry.LineGeometry? ==>
        vertices == old(vertices) && sourceNode == old(sourceNode) && targetNode == old(targetNode) &&
        graph.edges == old(graph.edges) && graph.nodes == old(graph.nodes)
      ensures geometry.LineGeometry? ==> vertices == geometry.vertices
      ensures IsLinked() <==> old(IsLinked()) && (geometry.LineGeometry? ==> |geometry.vertices| > 0)
      ensures old(IsLinked()) && geometry.LineGeometry? && |geometry.vertices| > 0 ==>
        graph.edges == old(graph.edges) &&
        sourceNode == graph.nodes[vertices[0]] && targetNode == graph.nodes[Last(vertices)]
      ensures old(IsLinked()) && geometry.LineGeometry? && |geometry.vertices| == 0 ==>
        graph.edges == RemoveFirst(old(graph.edges), this)
      ensures !old(IsLinked()) ==> graph.edges == old(graph.edges) && graph.allNodes == old(graph.allNodes)
    {
      if geometry.LineGeometry? {
        if IsLinked() {
          Relocate(geometry.vertices);
          if |vertices| == 0 {
            graph.Delist(this);
          }
        } else {
          Retouch(geometry.vertices);
        }
      }
    }

    /**
     * `setGeometry` as written: a linked edge given a line string without vertices is
     * unlinked, and `linkNodes` then returns early, so the edge stays in the edge list while
     * `isRemoved` holds; the rest of the graph is consistent.
     */
    method SetGeometryAsWritten(geometry: Geometry)
      requires graph.Valid() && this in graph.allEdges
      modifies this`vertices, this`sourceNode, this`targetNode, graph`nodes, graph`allNodes, graph`edges, graph.allNodes
      ensures old(IsLinked()) && geometry == LineGeometry([]) ==>
        this in graph.edges && IsRemoved() && graph.Inv({this}) && !graph.Valid()
    {
      if geometry.LineGeometry? {
        if IsLinked() {
          Relocate(geometry.vertices);
        } else {
          Retouch(geometry.vertices);
        }
      }
    }

    /**
     * `snapToGrid`'s rounding of one edge, in place: first the start point, then the end point
     * (for a one-vertex edge they are the same point, rounded twice). The edge is loose.
     */
    method Round(snap: Point -> Point, ghost loose: set<Edge>)
      requires graph.Inv(loose) && this in loose
      modifies this`vertices
      ensures graph.Inv(loose) && vertices == Snapped(old(vertices), snap)
    {
      if |vertices| > 0 {
        var v := vertices;
        v := v[0 := snap(v[0])];
        v := v[|v| - 1 := snap(v[|v| - 1])];
        Redraw(v, loose);
      }
    }

    /** An edge that `snapToGrid` drops, as corrected: its stale links are cleared. */
    method DropLinks(ghost loose: set<Edge>)
      requires graph.Inv(loose) && this in loose && this !in graph.edges
      modifies this`sourceNode, this`targetNode
      ensures graph.Inv(loose - {this}) && IsRemoved() && targetNode == null
    {
      sourceNode := null;
      targetNode := null;
    }
  }

  /**
   * A vertex list after `snapToGrid`: its start point rounded, then its end point (the same
   * point again when there is only one). `snapToGrid` never reaches an edge without vertices.
   */
  function Snapped(v: seq<Point>, snap: Point -> Point): (w: seq<Point>)
    ensures |w| == |v|
    ensures |v| > 1 ==> w[0] == snap(v[0]) && w[|w| - 1] == snap(v[|v| - 1]) && w[1..|w| - 1] == v[1..|v| - 1]
    ensures |v| == 1 ==> w == [snap(snap(v[0]))]
  {
    if v == [] then v
    else
      var u := v[0 := snap(v[0])];
      u[|u| - 1 := snap(u[|u| - 1])]
  }

  /** `snapToGrid` keeps an edge exactly when its rounded start and end differ. */
  predicate KeptBySnap(v: seq<Point>, snap: Point -> Point) {
    var w := Snapped(v, snap);
    |w| > 0 && w[0] != w[|w| - 1]
  }

  /** A one-vertex edge is always dropped by `snapToGrid`. */
  lemma SingleVertexDropped(p: Point, snap: Point -> Point)
    ensures !KeptBySnap([p], snap)
  {
  }

  /** The vertex lists of the edges `es`. */
  ghost function VerticesOf(es: seq<Edge>): (r: seq<seq<Point>>)
    reads es
    ensures |r| == |es| && forall k | 0 <= k < |es| :: r[k] == es[k].vertices
  {
    if es == [] then [] else VerticesOf(es[..|es| - 1]) + [es[|es| - 1].vertices]
  }

  /** Which of the vertex lists `vs` `snapToGrid` keeps. */
  function KeepFlags(vs: seq<seq<Point>>, snap: Point -> Point): (r: seq<bool>)
    ensures |r| == |vs| && forall k | 0 <= k < |vs| :: r[k] == KeptBySnap(vs[k], snap)
  {
    seq(|vs|, k requires 0 <= k < |vs| => KeptBySnap(vs[k], snap))
  }

  /** The edges of `list` from index `i` on. */
  ghost function Rest(list: seq<Edge>, i: nat): set<Edge> {
    set k | i <= k < |list| :: list[k]
  }

  /** The index `m` without the entry at `p` when `drop` holds (`nodes.remove`). */
  function DropIf(m: map<Point, Node>, p: Point, drop: bool): (r: map<Point, Node>)
    ensures forall q | q in r :: q in m && r[q] == m[q]
    ensures forall q | q in m :: q in r <==> !(drop && q == p)
  {
    if drop then m - {p} else m
  }

  /** The node `n` as a frame: empty for `null`. */
  function AsSet(n: Node?): set<Node> {
    if n == null then {} else {n}
  }

  /** The road-graph layer: the node index and the edge list. */
  class RoadGraph {
    var nodes: map<Point, Node>
    var edges: seq<Edge>
    /** Every edge `NewEdge` has made for this graph, linked or not. */
    ghost var allEdges: set<Edge>
    /** Every node `linkNodes` has ever made for this graph. */
    ghost var allNodes: set<Node>

    constructor ()
      ensures Valid() && nodes == map[] && edges == [] && allEdges == {} && allNodes == {}
    {
      nodes := map[];
      edges := [];
      allEdges := {};
      allNodes := {};
    }

    /** A node of the index: its lists are not both empty, have no duplicates, and point back. */
    ghost predicate Attached(n: Node, loose: set<Edge>)
      reads this`edges, this`allEdges, n`inEdges, n`outEdges, allEdges - loose
    {
      && (n.inEdges != [] || n.outEdges != [])
      && Distinct(n.inEdges) && Distinct(n.outEdges)
      && (forall f | f in n.outEdges :: f in edges && f in allEdges && f !in loose && f.sourceNode == n)
      && (forall f | f in n.inEdges :: f in edges && f in allEdges && f !in loose && f.targetNode == n)
    }

    /** A listed edge: its source and target are the index's nodes at its first and last vertex. */
    ghost predicate Anchored(e: Edge)
      reads this`nodes, e, nodes.Values
    {
      && |e.vertices| > 0
      && e.vertices[0] in nodes && Last(e.vertices) in nodes
      && e.sourceNode == nodes[e.vertices[0]] && e.targetNode == nodes[Last(e.vertices)]
      && e in nodes[e.vertices[0]].outEdges && e in nodes[Last(e.vertices)].inEdges
    }

    /**
     * The graph is consistent except for the `loose` edges, which are in no node list and
     * whose link fields are not constrained (they are being relinked).
     */
    ghost predicate Inv(loose: set<Edge>)
      reads this, allEdges, allNodes
    {
      Shape(loose) && Flags(loose) && NodesOk(loose) && AnchorsOk(loose)
    }

    /** The index and the edge list draw on the graph's own nodes and edges; no edge is listed twice. */
    ghost predicate Shape(loose: set<Edge>)
      reads this`nodes, this`edges, this`allEdges, this`allNodes
    {
      && nodes.Values <= allNodes
      && loose <= allEdges
      && (forall e | e in edges :: e in allEdges)
      && Distinct(edges)
      && (forall e | e in allEdges :: e.graph == this)
    }

    /** An edge is linked at both ends exactly when it is in the edge list (`isRemoved` is `!isLinked`). */
    ghost predicate Flags(loose: set<Edge>)
      reads this`edges, this`allEdges, allEdges - loose
    {
      forall e | e in allEdges && e !in loose ::
        (e.sourceNode != null <==> e in edges) && (e.targetNode != null <==> e in edges)
    }

    /** Every index entry is the node at that point, and is attached. */
    ghost predicate NodesOk(loose: set<Edge>)
      reads this`nodes, this`edges, this`allEdges, nodes.Values, allEdges - loose
    {
      forall p | p in nodes :: nodes[p].point == p && Attached(nodes[p], loose)
    }

    /** Every listed edge is anchored at the index's nodes. */
    ghost predicate AnchorsOk(loose: set<Edge>)
      reads this`nodes, this`edges, (set e | e in edges && e !in loose), nodes.Values
    {
      forall e | e in edges && e !in loose :: Anchored(e)
    }

    ghost predicate Valid()
      reads this, allEdges, allNodes
    {
      Inv({})
    }

    /** In a consistent graph an edge is linked (`!isRemoved`) exactly when it is in the edge list. */
    lemma LinkedIffListed()
      requires Valid()
      ensures forall e | e in allEdges :: (e.IsLinked() <==> e in edges) && (e.IsRemoved() <==> e !in edges)
      ensures forall e | e in allEdges :: e.IsLinked() <==> e.targetNode != null
    {
    }

    /**
     * No duplicate junctions: two listed edges meet at one node exactly when the points where
     * they meet are equal, and every node of the index is the only one for its point.
     */
    lemma Junctions()
      requires Valid()
      ensures forall e, f | e in edges && f in edges ::
        (e.sourceNode == f.targetNode <==> e.vertices[0] == Last(f.vertices)) &&
        (e.sourceNode == f.sourceNode <==> e.vertices[0] == f.vertices[0]) &&
        (e.targetNode == f.targetNode <==> Last(e.vertices) == Last(f.vertices))
      ensures forall p, q | p in nodes && q in nodes :: nodes[p] == nodes[q] <==> p == q
    {
      forall e | e in edges ensures Anchored(e) { }
    }

    /**
     * What a search over the graph relies on: every listed edge joins two indexed nodes, and
     * every out-edge of an indexed node is a listed edge leaving that node.
     */
    ghost predicate Closed()
      reads this, allNodes, allEdges
    {
      && nodes.Values <= allNodes
      && (forall e | e in edges :: e in allEdges && e.sourceNode in nodes.Values && e.targetNode in nodes.Values)
      && (forall n | n in nodes.Values :: forall f | f in n.outEdges :: f in edges && f.sourceNode == n)
    }

    /** A consistent graph is closed: following out-edges never leaves the index. */
    lemma ValidIsClosed()
      requires Valid()
      ensures Closed()
    {
      forall e | e in edges ensures e.sourceNode in nodes.Values && e.targetNode in nodes.Values {
        assert Anchored(e);
      }
      forall n | n in nodes.Values ensures forall f | f in n.outEdges :: f in edges && f.sourceNode == n {
        var p :| p in nodes && nodes[p] == n;
        assert Attached(n, {});
      }
    }

    /**
     * The node at `p` (`nodes.get`); when there is none, a new node is made and stored
     * under (a copy of) `p`.
     */
    method NodeAt(p: Point) returns (n: Node)
      requires forall q | q in nodes :: nodes[q].point == q
      modifies this`nodes, this`allNodes
      ensures nodes == old(nodes)[p := n] && n.point == p
      ensures p in old(nodes) ==> n == old(nodes)[p] && allNodes == old(allNodes)
      ensures p !in old(nodes) ==> fresh(n) && n.inEdges == [] && n.outEdges == [] && allNodes == old(allNodes) + {n}
    {
      if p in nodes {
        n := nodes[p];
      } else {
        n := new Node(p);
        nodes := nodes[p := n];
        allNodes := allNodes + {n};
      }
    }

    /** `newEdge`: a fresh, unlinked edge of this graph; the delay is the field the model adds. */
    method NewEdge(vertices: seq<Point>, speed: int, lanes: int, delay: int) returns (e: Edge)
      requires Valid()
      modifies this`allEdges
      ensures Valid() && fresh(e) && allEdges == old(allEdges) + {e}
      ensures e.graph == this && e.vertices == vertices && e.speed == speed && e.lanes == lanes && e.delay == delay
      ensures !e.IsLinked() && e.targetNode == null && e.vehicleCount == 0
    {
      e := new Edge(this, vertices, speed, lanes, delay);
      allEdges := allEdges + {e};
    }

    /** `edges.add(e)` for an unlinked edge: it joins the list as a loose edge, to be linked next. */
    method Enlist(e: Edge)
      requires Valid() && e in allEdges && !e.IsLinked()
      modifies this`edges
      ensures Inv({e}) && edges == old(edges) + [e]
    {
      assert e !in edges;
      AppendDistinct(edges, e);
      edges := edges + [e];
    }

    /** `edges.remove(e)` for an edge just unlinked: afterwards the graph is consistent again. */
    method Delist(e: Edge)
      requires Inv({e}) && e in edges && e.sourceNode == null && e.targetNode == null
      modifies this`edges
      ensures Valid() && edges == RemoveFirst(old(edges), e) && e !in edges
    {
      RemoveFirstDistinct(edges, e);
      edges := RemoveFirst(edges, e);
    }

    /**
     * `clear`: empties the index and the edge list, and unlinks every listed edge. The nodes'
     * own lists are left as they were; no node is reachable from the index any more.
     */
    method Clear()
      requires Valid()
      modifies this`nodes, this`edges, edges
      ensures Valid() && nodes == map[] && edges == [] && allEdges == old(allEdges)
      ensures forall e | e in old(edges) :: e.IsRemoved() && e.targetNode == null && e.vertices == old(e.vertices)
    {
      nodes := map[];
      var i := 0;
      while i < |edges|
        invariant 0 <= i <= |edges| && edges == old(edges) && nodes == map[]
        invariant forall e | e in allEdges :: e in edges[i..] || (e.sourceNode == null && e.targetNode == null)
        invariant forall k | 0 <= k < |edges| :: edges[k].vertices == old(edges[k].vertices)
      {
        edges[i].sourceNode := null;
        edges[i].targetNode := null;
        i := i + 1;
      }
      edges := [];
    }

    /** `edges.add(e)` for a loose edge that is not listed yet. */
    method EnlistLoose(e: Edge, ghost loose: set<Edge>)
      requires Inv(loose) && e in loose && e !in edges
      modifies this`edges
      ensures Inv(loose) && edges == old(edges) + [e]
    {
      AppendDistinct(edges, e);
      edges := edges + [e];
    }

    /** The start of `snapToGrid`: the index and the edge list are emptied; every edge that was listed is loose. */
    method Unindex()
      requires Valid()
      modifies this`nodes, this`edges
      ensures Inv(Rest(old(edges), 0)) && nodes == map[] && edges == []
      ensures allEdges == old(allEdges) && allNodes == old(allNodes) && Distinct(old(edges))
      ensures forall k | 0 <= k < |old(edges)| :: old(edges)[k] in allEdges && |old(edges)[k].vertices| > 0
    {
      ghost var list := edges;
      assert forall k | 0 <= k < |list| :: Anchored(list[k]);
      nodes := map[];
      edges := [];
      assert forall e | e in list :: e in Rest(list, 0);
    }

    /** Right after `Unindex`, no edge of `list` has been dealt with yet. */
    lemma SnapStart(list: seq<Edge>, V: seq<seq<Point>>, keeps: seq<bool>, snap: Point -> Point)
      requires Inv(Rest(list, 0)) && edges == [] && Distinct(list)
      requires forall k | 0 <= k < |list| :: list[k] in allEdges && |list[k].vertices| > 0
      requires V == VerticesOf(list) && keeps == KeepFlags(V, snap)
      ensures SnapProgress(list, V, keeps, snap, 0, Rest(list, 0))
    {
    }

    /** One step of `snapToGrid`, as corrected, on the loose edge `e`. */
    method SnapOne(e: Edge, snap: Point -> Point, ghost loose: set<Edge>)
      requires Inv(loose) && e in loose && e !in edges && |e.vertices| > 0
      modifies e`vertices, e`sourceNode, e`targetNode, this`nodes, this`edges, this`allNodes, allNodes
      ensures Inv(loose - {e}) && allEdges == old(allEdges) && old(allNodes) <= allNodes
      ensures fresh(allNodes - old(allNodes))
      ensures e.vertices == Snapped(old(e.vertices), snap)
      ensures e.IsLinked() <==> KeptBySnap(old(e.vertices), snap)
      ensures edges == old(edges) + if KeptBySnap(old(e.vertices), snap) then [e] else []
    {
      e.Round(snap, loose);
      if e.vertices[0] != Last(e.vertices) {
        EnlistLoose(e, loose);
        e.Relink(loose);
      } else {
        e.DropLinks(loose);
      }
    }

    /**
     * One step of `snapToGrid` as written, on a formerly listed (so still linked) loose edge:
     * an edge whose rounded end points coincide is not listed again, but nothing clears its
     * links, so it is left out of the edge list while `isRemoved` is false.
     */
    method SnapOneAsWritten(e: Edge, snap: Point -> Point, ghost loose: set<Edge>)
      requires Inv(loose) && e in loose && e !in edges && |e.vertices| > 0 && e.IsLinked()
      modifies e`vertices, e`sourceNode, e`targetNode, this`nodes, this`edges, this`allNodes, allNodes
      ensures e.vertices == Snapped(old(e.vertices), snap)
      ensures !KeptBySnap(old(e.vertices), snap) ==>
        e.IsLinked() && !e.IsRemoved() && e !in edges && !Inv(loose - {e})
    {
      e.Round(snap, loose);
      if e.vertices[0] != Last(e.vertices) {
        EnlistLoose(e, loose);
        e.Relink(loose);
      }
    }

    /**
     * How far `snapToGrid` has got through `list`, the edges that were listed, with `V` their
     * vertex lists and `keeps` the edges it keeps: the first `i` are rounded and, if kept,
     * linked and listed again in order; the rest are loose and untouched.
     */
    ghost predicate SnapProgress(list: seq<Edge>, V: seq<seq<Point>>, keeps: seq<bool>, snap: Point -> Point,
                                 i: nat, pending: set<Edge>)
      reads this, allEdges, allNodes
    {
      && |V| == |list| && |keeps| == |list| && i <= |list| && Distinct(list)
      && (forall k | 0 <= k < |list| :: list[k] in allEdges && |V[k]| > 0 && keeps[k] == KeptBySnap(V[k], snap))
      && Inv(pending) && (forall e | e in pending :: e in list)
      && (forall k | 0 <= k < |list| :: list[k] in pending <==> i <= k)
      && edges == Select(list[..i], keeps[..i])
      && (forall k | 0 <= k < |list| :: list[k].vertices == if k < i then Snapped(V[k], snap) else V[k])
      && (forall k | 0 <= k < i :: list[k].IsLinked() <==> keeps[k])
    }

    /** The heap change of one step of `snapToGrid`'s loop: `SnapOne` on the edge at `i`. */
    method SnapAt(list: seq<Edge>, ghost V: seq<seq<Point>>, ghost keeps: seq<bool>, snap: Point -> Point,
                  i: nat, ghost pending: set<Edge>)
      requires SnapProgress(list, V, keeps, snap, i, pending) && i < |list|
      modifies {list[i]}`vertices, {list[i]}`sourceNode, {list[i]}`targetNode, this`nodes, this`edges, this`allNodes, allNodes
      ensures Inv(pending - {list[i]}) && allEdges == old(allEdges) && old(allNodes) <= allNodes
      ensures fresh(allNodes - old(allNodes))
      ensures list[i].vertices == Snapped(V[i], snap) && (list[i].IsLinked() <==> keeps[i])
      ensures edges == old(edges) + if keeps[i] then [list[i]] else []
      ensures forall k | 0 <= k < |list| && k != i ::
        list[k].vertices == old(list[k].vertices) && list[k].sourceNode == old(list[k].sourceNode)
    {
      var e := list[i];
      DistinctAt(list, i);
      assert e !in edges;
      SnapOne(e, snap, pending);
    }

    /** One step of `snapToGrid`'s loop. */
    method SnapStep(list: seq<Edge>, ghost V: seq<seq<Point>>, ghost keeps: seq<bool>, snap: Point -> Point,
                    i: nat, ghost pending: set<Edge>)
      requires SnapProgress(list, V, keeps, snap, i, pending) && i < |list|
      modifies {list[i]}`vertices, {list[i]}`sourceNode, {list[i]}`targetNode, this`nodes, this`edges, this`allNodes, allNodes
      ensures SnapProgress(list, V, keeps, snap, i + 1, pending - {list[i]})
      ensures allEdges == old(allEdges) && old(allNodes) <= allNodes && fresh(allNodes - old(allNodes))
    {
      SnapAt(list, V, keeps, snap, i, pending);
      TakeSnoc(list, i);
      TakeSnoc(keeps, i);
      SelectSnoc(list[..i], keeps[..i], list[i], keeps[i]);
    }

    /** The loop of `snapToGrid`, as corrected, over the formerly listed edges `list`. */
    method SnapAll(list: seq<Edge>, ghost V: seq<seq<Point>>, ghost keeps: seq<bool>, snap: Point -> Point)
      requires SnapProgress(list, V, keeps, snap, 0, Rest(list, 0))
      modifies this`nodes, this`edges, this`allNodes, allNodes, set e | e in list
      ensures SnapProgress(list, V, keeps, snap, |list|, {})
      ensures allEdges == old(allEdges) && old(allNodes) <= allNodes && fresh(allNodes - old(allNodes))
    {
      ghost var pending := Rest(list, 0);
      var i := 0;
      while i < |list|
        invariant 0 <= i <= |list| && allEdges == old(allEdges)
        invariant old(allNodes) <= allNodes && fresh(allNodes - old(allNodes))
        invariant SnapProgress(list, V, keeps, snap, i, pending)
      {
        SnapStep(list, V, keeps, snap, i, pending);
        pending := pending - {list[i]};
        i := i + 1;
      }
      assert pending == {};
    }

    /** At the end of `snapToGrid` the graph is consistent, and holds the kept edges in order. */
    lemma SnapDone(list: seq<Edge>, V: seq<seq<Point>>, keeps: seq<bool>, snap: Point -> Point)
      requires SnapProgress(list, V, keeps, snap, |list|, {})
      ensures Valid() && edges == Select(list, keeps)
      ensures forall k | 0 <= k < |list| :: list[k].vertices == Snapped(V[k], snap) && (list[k].IsLinked() <==> keeps[k])
    {
      TakeAll(list);
      TakeAll(keeps);
    }

    /**
     * `snapToGrid`, as corrected: the index and the edge list are emptied, and each formerly
     * listed edge, in order, has its end points rounded by `snap`; it is linked and listed
     * again when they differ, and otherwise dropped, with its links cleared.
     */
    method SnapToGrid(snap: Point -> Point)
      requires Valid()
      modifies this`nodes, this`edges, this`allNodes, allNodes, edges
      ensures Valid() && allEdges == old(allEdges)
      ensures edges == Select(old(edges), KeepFlags(old(VerticesOf(edges)), snap))
      ensures forall k | 0 <= k < |old(edges)| ::
        old(edges)[k].vertices == Snapped(old(edges[k].vertices), snap) &&
        (old(edges)[k].IsLinked() <==> KeptBySnap(old(edges[k].vertices), snap))
    {
      var list := edges;
      ghost var V := VerticesOf(edges);
      SnapCore(list, V, KeepFlags(V, snap), snap);
    }

    /** `snapToGrid` on the listed edges `list`, whose vertex lists are `V` and whose fates are `keeps`. */
    method SnapCore(list: seq<Edge>, ghost V: seq<seq<Point>>, ghost keeps: seq<bool>, snap: Point -> Point)
      requires Valid() && list == edges && V == VerticesOf(list) && keeps == KeepFlags(V, snap)
      modifies this`nodes, this`edges, this`allNodes, allNodes, list
      ensures Valid() && allEdges == old(allEdges) && edges == Select(list, keeps)
      ensures forall k | 0 <= k < |list| :: list[k].vertices == Snapped(V[k], snap) && (list[k].IsLinked() <==> keeps[k])
    {
      Unindex();
      SnapStart(list, V, keeps, snap);
      SnapAll(list, V, keeps, snap);
      SnapDone(list, V, keeps, snap);
    }
  }

  /**
   * Linking at `p0` and `p1` and then dropping the entries whose nodes were left empty gives
   * the index back, when exactly the entries that were not there before are dropped.
   */
  lemma IndexRestored(index: map<Point, Node>, p0: Point, p1: Point, s: Node, t: Node, d0: bool, d1: bool)
    requires p0 in index ==> index[p0] == s && !d0 && (p1 == p0 ==> !d1)
    requires p1 in index ==> index[p1] == t && !d1
    requires p0 !in index ==> d0 || (p0 == p1 && d1)
    requires p1 !in index ==> d1
    ensures DropIf(DropIf(index[p0 := s][p1 := t], p0, d0), p1, d1) == index
  {
  }

  /**
   * After linking at `first` and `last`, an index entry is either one of the two linked
   * nodes (fresh ones at their own point) or the entry that was there before.
   */
  lemma EntryAfterLink(before: map<Point, Node>, after: map<Point, Node>, known: set<Node>,
                       first: Point, last: Point, src: Node, tgt: Node, p: Point)
    requires after == before[first := src][last := tgt]
    requires before.Values <= known && forall q | q in before :: before[q].point == q
    requires src.point == first && tgt.point == last && (first == last ==> src == tgt)
    requires first in before ==> src == before[first]
    requires last in before ==> tgt == before[last]
    requires first !in before ==> src !in known
    requires last !in before ==> tgt !in known
    ensures p in before ==> p in after && after[p] == before[p]
    ensures p in after ==> after[p].point == p
    ensures p in after && after[p] in known ==> p in before && after[p] == before[p]
    ensures p in after ==> after[p] in known + {src, tgt}
  {
  }
}
