/**
 * The vertex editor on road edges: inserting and removing vertices, splitting an edge at a
 * point and joining two edges, each done by taking the edge out of the graph, changing its
 * vertex list and putting it back; the undoable variant records the old and new vertex lists
 * of the features it touched, and its undo and redo put one or the other back.
 */
module VertexEditing {
  import opened Geom
  import opened Lists
  import opened Wrappers
  import opened Vertices
  import Network
  import Selections

  type Edge = Network.Edge
  type Graph = Network.RoadGraph
  type EdgeSelection = Selections.Selection<Network.Edge>

  /** A vertex found near the cursor: the edge and the index of the vertex on it. */
  datatype Pick = Pick(edge: Edge, index: nat)

  /** The end nodes of one of the graph's edges are among the graph's nodes. */
  lemma EndsKnown(g: Graph, e: Edge)
    requires g.Valid() && e in g.allEdges
    ensures Network.AsSet(e.sourceNode) <= g.allNodes && Network.AsSet(e.targetNode) <= g.allNodes
  {
    g.LinkedIffListed();
    if e.IsLinked() {
      assert g.Anchored(e);
    }
  }

  /** The edge list after an edge is taken out (when it was in) and put back (when it has vertices). */
  function Relisted(edges: seq<Edge>, e: Edge, wasLinked: bool, v: seq<Point>): seq<Edge> {
    (if wasLinked then RemoveFirst(edges, e) else edges) + (if |v| > 0 then [e] else [])
  }

  /** A linked edge with vertices starts at the node of its first vertex and ends at the node of its last. */
  ghost predicate LinkedAt(e: Edge)
    reads e, e.graph
  {
    |e.vertices| > 0 && e.IsLinked()
    && e.vertices[0] in e.graph.nodes && Last(e.vertices) in e.graph.nodes
    && e.sourceNode == e.graph.nodes[e.vertices[0]] && e.targetNode == e.graph.nodes[Last(e.vertices)]
  }

  /**
   * `feature.remove()`, a new vertex list, `feature.add()`: the edge ends up with the new
   * vertices, linked exactly when it has some, and last in the edge list.
   */
  method Rebuild(e: Edge, v: seq<Point>)
    requires e.graph.Valid() && e in e.graph.allEdges
    modifies e`vertices, e`sourceNode, e`targetNode, e.graph, e.graph.allNodes
    ensures e.graph.Valid() && e.graph.allEdges == old(e.graph.allEdges)
    ensures fresh(e.graph.allNodes - old(e.graph.allNodes))
    ensures e.vertices == v && (e.IsLinked() <==> |v| > 0) && (|v| > 0 ==> LinkedAt(e))
    ensures e.graph.edges == Relisted(old(e.graph.edges), e, old(e.IsLinked()), v)
  {
    EndsKnown(e.graph, e);
    e.Remove();
    e.Retouch(v);
    e.Add();
  }

  /** `feature.remove()` on one of the graph's edges. */
  method Take(e: Edge)
    requires e.graph.Valid() && e in e.graph.allEdges
    modifies e`sourceNode, e`targetNode, e.graph, e.graph.allNodes
    ensures e.graph.Valid() && e.graph.allEdges == old(e.graph.allEdges) && e.graph.allNodes == old(e.graph.allNodes)
    ensures !e.IsLinked() && e !in e.graph.edges
    ensures e.graph.edges == if old(e.IsLinked()) then RemoveFirst(old(e.graph.edges), e) else old(e.graph.edges)
  {
    EndsKnown(e.graph, e);
    e.Remove();
  }

  /** A listed edge of a consistent graph is linked at the nodes of its end points. */
  lemma ListedLinkedAt(g: Graph, e: Edge)
    requires g.Valid() && e in g.edges
    ensures e.graph == g && LinkedAt(e)
  {
    assert g.Anchored(e);
  }

  /**
   * `newEdge` with a vertex list, a speed and a number of lanes, then `add`. The three-argument
   * `newEdge` passes no delay; the model takes the new edge's delay to be 0.
   */
  method AddNewEdge(g: Graph, v: seq<Point>, speed: int, lanes: int) returns (e: Edge)
    requires g.Valid() && |v| > 0
    modifies g, g.allNodes
    ensures g.Valid() && fresh(e) && g.allEdges == old(g.allEdges) + {e} && fresh(g.allNodes - old(g.allNodes))
    ensures e.graph == g && e.vertices == v && e.speed == speed && e.lanes == lanes && e.delay == 0
    ensures g.edges == old(g.edges) + [e] && LinkedAt(e)
  {
    e := g.NewEdge(v, speed, lanes, 0);
    e.Add();
  }

  /**
   * `remove`, `setGeometry` with a line string, `add`, as the undo record does them: on the
   * removed edge, `setGeometry` only replaces the vertex list.
   */
  method Reset(e: Edge, v: seq<Point>)
    requires e.graph.Valid() && e in e.graph.allEdges
    modifies e`vertices, e`sourceNode, e`targetNode, e.graph, e.graph.allNodes
    ensures e.graph.Valid() && e.graph.allEdges == old(e.graph.allEdges)
    ensures fresh(e.graph.allNodes - old(e.graph.allNodes))
    ensures e.vertices == v && (e.IsLinked() <==> |v| > 0) && (|v| > 0 ==> LinkedAt(e))
    ensures e.graph.edges == Relisted(old(e.graph.edges), e, old(e.IsLinked()), v)
  {
    EndsKnown(e.graph, e);
    e.Remove();
    SetLine(e, v);
    e.Add();
  }

  /** `setGeometry` with a line string on a removed edge: only the vertex list changes. */
  method SetLine(e: Edge, v: seq<Point>)
    requires e.graph.Valid() && e in e.graph.allEdges && !e.IsLinked()
    modifies e`vertices, e`sourceNode, e`targetNode, e.graph, e.graph.allNodes
    ensures e.graph.Valid() && e.graph.allEdges == old(e.graph.allEdges) && e.graph.allNodes == old(e.graph.allNodes)
    ensures e.vertices == v && !e.IsLinked() && e.graph.edges == old(e.graph.edges)
  {
    e.SetGeometry(LineGeometry(v));
  }

  /**
   * `insertVertex` (both versions): the picked point goes in after the start of the picked
   * segment, and the edge is linked again at its (unchanged) end points.
   */
  method InsertVertex(e: Edge, index: nat, p: Point)
    requires e.graph.Valid() && e in e.graph.allEdges && index < |e.vertices|
    modifies e`vertices, e`sourceNode, e`targetNode, e.graph, e.graph.allNodes
    ensures e.graph.Valid() && e.graph.allEdges == old(e.graph.allEdges)
    ensures fresh(e.graph.allNodes - old(e.graph.allNodes))
    ensures e.vertices == Inserted(old(e.vertices), index, p) && LinkedAt(e)
    ensures e.vertices[0] == old(e.vertices)[0]
    ensures index + 1 < |old(e.vertices)| ==> Last(e.vertices) == Last(old(e.vertices))
    ensures e.graph.edges == Relisted(old(e.graph.edges), e, old(e.IsLinked()), e.vertices)
  {
    var v := Inserted(e.vertices, index, p);
    assert v[0] == e.vertices[0];
    assert index + 1 < |e.vertices| ==> Last(v) == v[|e.vertices|] == Last(e.vertices);
    Rebuild(e, v);
  }

  /**
   * `splitEdge` (both versions): the picked edge is removed and deselected, and two new edges
   * with its speed and lanes, one up to the split point and one from it, are added and selected.
   * The index is the picked segment's, as the finder reports it.
   */
  method SplitEdge(selection: EdgeSelection, e: Edge, index: nat, p: Point) returns (e1: Edge, e2: Edge)
    requires e.graph.Valid() && e in e.graph.allEdges && index + 1 < |e.vertices|
    modifies e`sourceNode, e`targetNode, e.graph, e.graph.allNodes, selection
    ensures e.graph.Valid() && e.graph.allEdges == old(e.graph.allEdges) + {e1, e2}
    ensures fresh(e1) && fresh(e2) && e1 != e2 && fresh(e.graph.allNodes - old(e.graph.allNodes))
    ensures !e.IsLinked() && e.vertices == old(e.vertices)
    ensures (e1.vertices, e2.vertices) == SplitHalves(e.vertices, index, p)
    ensures e1.speed == e2.speed == e.speed && e1.lanes == e2.lanes == e.lanes && e1.delay == e2.delay == 0
    ensures e.graph.edges == (if old(e.IsLinked()) then RemoveFirst(old(e.graph.edges), e) else old(e.graph.edges)) + [e1, e2]
    ensures LinkedAt(e1) && LinkedAt(e2)
    ensures selection.elements == old(selection.elements) - {e} + {e1, e2}
  {
    e1, e2 := SplitCopy(e, index, p);
    Reselect(selection, e, e1, e2);
  }

  /** The graph part of `splitEdge`: the edge is removed and the two halves are made and added. */
  method SplitCopy(e: Edge, index: nat, p: Point) returns (e1: Edge, e2: Edge)
    requires e.graph.Valid() && e in e.graph.allEdges && index + 1 < |e.vertices|
    modifies e`sourceNode, e`targetNode, e.graph, e.graph.allNodes
    ensures e.graph.Valid() && e.graph.allEdges == old(e.graph.allEdges) + {e1, e2}
    ensures fresh(e1) && fresh(e2) && e1 != e2 && fresh(e.graph.allNodes - old(e.graph.allNodes))
    ensures !e.IsLinked() && e.vertices == old(e.vertices)
    ensures (e1.vertices, e2.vertices) == SplitHalves(e.vertices, index, p)
    ensures e1.speed == e2.speed == e.speed && e1.lanes == e2.lanes == e.lanes && e1.delay == e2.delay == 0
    ensures e.graph.edges == (if old(e.IsLinked()) then RemoveFirst(old(e.graph.edges), e) else old(e.graph.edges)) + [e1, e2]
    ensures LinkedAt(e1) && LinkedAt(e2)
  {
    var g := e.graph;
    var v1, v2 := SplitVertices(e.vertices, index, p);
    Take(e);
    e1, e2 := AddBoth(g, v1, v2, e.speed, e.lanes);
  }

  /**
   * The selection changes of `splitEdge`: the old edge is deselected and the two new ones are
   * selected. They touch nothing of the road graph, so they are made together here.
   */
  method Reselect(selection: EdgeSelection, e: Edge, e1: Edge, e2: Edge)
    modifies selection
    ensures selection.elements == old(selection.elements) - {e} + {e1, e2}
  {
    var _ := selection.Remove(e);
    var _ := selection.Add(e1);
    var _ := selection.Add(e2);
  }

  /** The two `newEdge` and `add` calls of `splitEdge`. */
  method AddBoth(g: Graph, v1: seq<Point>, v2: seq<Point>, speed: int, lanes: int) returns (e1: Edge, e2: Edge)
    requires g.Valid() && |v1| > 0 && |v2| > 0
    modifies g, g.allNodes
    ensures g.Valid() && fresh(e1) && fresh(e2) && e1 != e2
    ensures g.allEdges == old(g.allEdges) + {e1, e2} && fresh(g.allNodes - old(g.allNodes))
    ensures e1.vertices == v1 && e1.speed == speed && e1.lanes == lanes && e1.delay == 0
    ensures e2.vertices == v2 && e2.speed == speed && e2.lanes == lanes && e2.delay == 0
    ensures g.edges == old(g.edges) + [e1, e2] && LinkedAt(e1) && LinkedAt(e2)
  {
    e1 := AddNewEdge(g, v1, speed, lanes);
    e2 := AddNewEdge(g, v2, speed, lanes);
    assert g.edges == old(g.edges) + [e1] + [e2] == old(g.edges) + [e1, e2];
    ListedLinkedAt(g, e1);
  }

  /**
   * `joinEdges`' choice among exactly two picks: the pick of the edge to continue (at a vertex
   * past its first) and the pick of the edge that continues it (at its first vertex).
   */
  function JoinPicks(picks: seq<Pick>): (r: Option<(Pick, Pick)>)
    ensures r.Some? <==> |picks| == 2 && JoinOrder(picks[0].index, picks[1].index).Some?
    ensures r.Some? ==> r.value.0.index > 0 && r.value.1.index == 0
    ensures r.Some? ==> (r.value == (picks[0], picks[1]) || r.value == (picks[1], picks[0]))
  {
    if |picks| != 2 then None
    else match JoinOrder(picks[0].index, picks[1].index)
      case None => None
      case Some(swap) => if swap then Some((picks[1], picks[0])) else Some((picks[0], picks[1]))
  }

  /** The picks are of vertices that exist on edges of the graph. */
  ghost predicate PicksOf(g: Graph, picks: seq<Pick>)
    reads g, Picked(picks)
  {
    forall k | 0 <= k < |picks| :: picks[k].edge in g.allEdges && picks[k].index < |picks[k].edge.vertices|
  }

  /**
   * `joinEdges` of the older tool: both edges are removed, the second is deselected, and the
   * first takes the joined vertex list in place (its last vertex dropped, then the second's
   * vertices appended) and is added again. The list is changed in place, so when both picks are
   * on one edge the appended vertices are the already shortened list.
   */
  method JoinInPlace(g: Graph, selection: EdgeSelection, picks: seq<Pick>) returns (joined: bool)
    requires g.Valid() && PicksOf(g, picks)
    modifies Picked(picks)`vertices, Picked(picks)`sourceNode, Picked(picks)`targetNode, g, g.allNodes, selection
    ensures g.Valid() && g.allEdges == old(g.allEdges) && fresh(g.allNodes - old(g.allNodes))
    ensures joined <==> JoinPicks(picks).Some?
    ensures !joined ==> g.edges == old(g.edges) && selection.elements == old(selection.elements)
    ensures joined ==>
      var (p1, p2) := JoinPicks(picks).value;
      var v1 := old(p1.edge.vertices);
      && p1.edge.vertices == (if p1.edge == p2.edge then v1[..|v1| - 1] + v1[..|v1| - 1] else JoinedVertices(v1, old(p2.edge.vertices)))
      && LinkedAt(p1.edge) && (p2.edge != p1.edge ==> !p2.edge.IsLinked())
      && selection.elements == old(selection.elements) - {p2.edge}
  {
    var choice := JoinPicks(picks);
    if choice.None? {
      return false;
    }
    var e1, e2 := choice.value.0.edge, choice.value.1.edge;
    JoinAndDeselect(selection, e1, e2);
    joined := true;
  }

  /** The older `joinEdges` on the first edge and the second: `JoinInto`, then the second is deselected. */
  method JoinAndDeselect(selection: EdgeSelection, e1: Edge, e2: Edge)
    requires e1.graph.Valid() && e1 in e1.graph.allEdges && e2 in e1.graph.allEdges && |e1.vertices| >= 2
    modifies e1`vertices, e1`sourceNode, e1`targetNode, e2`sourceNode, e2`targetNode, e1.graph, e1.graph.allNodes, selection
    ensures e1.graph.Valid() && e1.graph.allEdges == old(e1.graph.allEdges) && fresh(e1.graph.allNodes - old(e1.graph.allNodes))
    ensures var v1 := old(e1.vertices);
      e1.vertices == (if e1 == e2 then v1[..|v1| - 1] + v1[..|v1| - 1] else JoinedVertices(v1, old(e2.vertices)))
    ensures LinkedAt(e1) && (e2 != e1 ==> !e2.IsLinked())
    ensures selection.elements == old(selection.elements) - {e2}
  {
    JoinInto(e1, e2);
    var _ := selection.Remove(e2);
  }

  /** The graph part of the older `joinEdges`, on the first edge (with at least two vertices) and the second. */
  method JoinInto(e1: Edge, e2: Edge)
    requires e1.graph.Valid() && e1 in e1.graph.allEdges && e2 in e1.graph.allEdges && |e1.vertices| >= 2
    modifies e1`vertices, e1`sourceNode, e1`targetNode, e2`sourceNode, e2`targetNode, e1.graph, e1.graph.allNodes
    ensures e1.graph.Valid() && e1.graph.allEdges == old(e1.graph.allEdges) && fresh(e1.graph.allNodes - old(e1.graph.allNodes))
    ensures var v1 := old(e1.vertices);
      e1.vertices == (if e1 == e2 then v1[..|v1| - 1] + v1[..|v1| - 1] else JoinedVertices(v1, old(e2.vertices)))
    ensures LinkedAt(e1) && (e2 != e1 ==> !e2.IsLinked() && e2.vertices == old(e2.vertices))
  {
    var g := e1.graph;
    Take(e1);
    Take(e2);
    var v := e1.vertices;
    e1.Retouch(v[..|v| - 1]);
    e1.Retouch(e1.vertices + e2.vertices);
    e1.Add();
  }

  /** The edges of the picks. */
  function Picked(picks: seq<Pick>): set<Edge> {
    set k | 0 <= k < |picks| :: picks[k].edge
  }

  /** The progress of `removeVertex`: every picked edge's vertex list so far, and the edges re-added so far. */
  datatype Thinning = Thinning(vertices: map<Edge, seq<Point>>, readded: set<Edge>)

  /**
   * One pick of `removeVertex`: a line string with more than two vertices loses the picked
   * one (an index past its end throws, `None`); a shorter one is left alone.
   */
  function ThinStep(t: Thinning, pick: Pick): Option<Thinning>
    requires pick.edge in t.vertices
  {
    var v := t.vertices[pick.edge];
    if |v| <= 2 then Some(t)
    else if pick.index < |v| then Some(Thinning(t.vertices[pick.edge := RemovedAt(v, pick.index)], t.readded + {pick.edge}))
    else None
  }

  /** The picks one after the other; once one throws, the rest are not reached. */
  function Thin(t: Thinning, picks: seq<Pick>): (r: Option<Thinning>)
    requires forall k | 0 <= k < |picks| :: picks[k].edge in t.vertices
    ensures r.Some? ==> r.value.vertices.Keys == t.vertices.Keys && t.readded <= r.value.readded
  {
    if picks == [] then Some(t)
    else match Thin(t, picks[..|picks| - 1])
      case None => None
      case Some(u) => ThinStep(u, picks[|picks| - 1])
  }

  /** Once a pick has thrown, the whole run has. */
  lemma {:induction false} ThinNoneStays(t: Thinning, picks: seq<Pick>, i: nat)
    requires forall k | 0 <= k < |picks| :: picks[k].edge in t.vertices
    requires i <= |picks| && Thin(t, picks[..i]).None?
    ensures Thin(t, picks).None?
  {
    if i < |picks| {
      var q := picks[..|picks| - 1];
      assert q[..i] == picks[..i];
      ThinNoneStays(t, q, i);
    } else {
      assert picks[..i] == picks;
    }
  }

  /** No line string of two or more vertices is ever left with fewer than two. */
  lemma {:induction false} ThinKeepsTwo(t: Thinning, picks: seq<Pick>)
    requires forall k | 0 <= k < |picks| :: picks[k].edge in t.vertices
    requires Thin(t, picks).Some?
    ensures forall e | e in t.vertices && |t.vertices[e]| >= 2 :: |Thin(t, picks).value.vertices[e]| >= 2
  {
    if picks != [] {
      var q := picks[..|picks| - 1];
      ThinKeepsTwo(t, q);
    }
  }

  /** The picked edges' vertex lists before `removeVertex`, with nothing re-added yet. */
  ghost function Start(picks: seq<Pick>): (t: Thinning)
    reads Picked(picks)
    ensures t.vertices.Keys == Picked(picks)
  {
    Thinning(map e | e in Picked(picks) :: e.vertices, {})
  }

  /** The picked edges that are linked. */
  ghost function LinkedOf(picks: seq<Pick>): set<Edge>
    reads Picked(picks)
  {
    set e | e in Picked(picks) && e.IsLinked()
  }

  /** The picked edges hold the vertex lists of `t`, and are linked when they were or were re-added. */
  ghost predicate Matches(es: set<Edge>, t: Thinning, linked: set<Edge>)
    reads es
  {
    forall e | e in es :: e in t.vertices && e.vertices == t.vertices[e] && (e.IsLinked() <==> e in linked || e in t.readded)
  }

  /**
   * `removeVertex` (both versions): every pick in turn; the edge of a pick with more than two
   * vertices is removed, loses the vertex and is added again. The picks' indices are those of
   * the vertices when they were picked, so a second pick on one edge may be stale; one past the
   * end throws, which leaves that edge removed and ends the loop (`failed`).
   */
  method RemoveVertices(g: Graph, picks: seq<Pick>) returns (failed: bool)
    requires g.Valid() && forall k | 0 <= k < |picks| :: picks[k].edge in g.allEdges
    modifies Picked(picks)`vertices, Picked(picks)`sourceNode, Picked(picks)`targetNode, g, g.allNodes
    ensures g.Valid() && g.allEdges == old(g.allEdges) && fresh(g.allNodes - old(g.allNodes))
    ensures failed <==> Thin(old(Start(picks)), picks).None?
    ensures !failed ==> Matches(Picked(picks), Thin(old(Start(picks)), picks).value, old(LinkedOf(picks)))
  {
    ghost var start := Start(picks);
    ghost var linked := LinkedOf(picks);
    failed := false;
    var i := 0;
    while i < |picks|
      invariant i <= |picks| && g.Valid() && g.allEdges == old(g.allEdges) && fresh(g.allNodes - old(g.allNodes))
      invariant Thin(start, picks[..i]).Some? && Matches(Picked(picks), Thin(start, picks[..i]).value, linked)
    {
      failed := ThinAt(g, picks, i, start, linked);
      if failed {
        ThinNoneStays(start, picks, i + 1);
        return;
      }
      i := i + 1;
    }
    assert picks[..i] == picks;
  }

  /** The body of `removeVertex`'s loop, for the pick at `i`. */
  method ThinAt(g: Graph, picks: seq<Pick>, i: nat, ghost start: Thinning, ghost linked: set<Edge>) returns (failed: bool)
    requires g.Valid() && i < |picks| && forall k | 0 <= k < |picks| :: picks[k].edge in g.allEdges
    requires start.vertices.Keys == Picked(picks)
    requires Thin(start, picks[..i]).Some? && Matches(Picked(picks), Thin(start, picks[..i]).value, linked)
    modifies {picks[i].edge}`vertices, {picks[i].edge}`sourceNode, {picks[i].edge}`targetNode, g, g.allNodes
    ensures g.Valid() && g.allEdges == old(g.allEdges) && fresh(g.allNodes - old(g.allNodes))
    ensures failed <==> Thin(start, picks[..i + 1]).None?
    ensures !failed ==> Matches(Picked(picks), Thin(start, picks[..i + 1]).value, linked)
  {
    var pick := picks[i];
    var e := pick.edge;
    assert picks[..i + 1][..i] == picks[..i];
    ghost var t := Thin(start, picks[..i]).value;
    assert Thin(start, picks[..i + 1]) == ThinStep(t, pick);
    failed := false;
    if |e.vertices| > 2 {
      if pick.index >= |e.vertices| {
        Take(e);
        failed := true;
        return;
      }
      ThinEdge(g, Picked(picks), pick, t, linked);
    }
  }

  /** `feature.remove()`, `vertices.remove(index)`, `feature.add()` for a pick whose edge has more than two vertices. */
  method ThinEdge(g: Graph, es: set<Edge>, pick: Pick, ghost t: Thinning, ghost linked: set<Edge>)
    requires g.Valid() && pick.edge in g.allEdges && pick.edge in es && Matches(es, t, linked)
    requires 2 < |pick.edge.vertices| && pick.index < |pick.edge.vertices|
    modifies pick.edge`vertices, pick.edge`sourceNode, pick.edge`targetNode, g, g.allNodes
    ensures g.Valid() && g.allEdges == old(g.allEdges) && fresh(g.allNodes - old(g.allNodes))
    ensures ThinStep(t, pick).Some? && Matches(es, ThinStep(t, pick).value, linked)
  {
    var e := pick.edge;
    ghost var u := ThinStep(t, pick).value;
    Rebuild(e, RemovedAt(e.vertices, pick.index));
    forall f | f in es ensures f in u.vertices && f.vertices == u.vertices[f] && (f.IsLinked() <==> f in linked || f in u.readded) {
      if f != e {
        assert f.vertices == old(f.vertices) && f.IsLinked() == old(f.IsLinked());
      }
    }
  }

  /** Equal features in a record's list carry equal vertex lists, as every record the editor makes does. */
  predicate Consistent(features: seq<Edge>, geometries: seq<seq<Point>>) {
    && |features| == |geometries|
    && forall i, j | 0 <= i < |features| && 0 <= j < |features| && features[i] == features[j] :: geometries[i] == geometries[j]
  }

  /** Every listed edge is one of the graph's. */
  ghost predicate AllIn(g: Graph, es: seq<Edge>)
    reads g
  {
    forall k | 0 <= k < |es| :: es[k] in g.allEdges
  }

  /** A record of two of the graph's edges, with one vertex list for each. */
  lemma PairRecord(g: Graph, e1: Edge, e2: Edge, v1: seq<Point>, v2: seq<Point>)
    requires e1 in g.allEdges && e2 in g.allEdges && (e1 == e2 ==> v1 == v2)
    ensures Consistent([e1, e2], [v1, v2]) && AllIn(g, [e1, e2])
  {
  }

  /** A record of one of the graph's edges. */
  lemma SingleRecord(g: Graph, e: Edge, v: seq<Point>)
    requires e in g.allEdges
    ensures Consistent([e], [v]) && AllIn(g, [e])
  {
  }

  /** The first loop of `undo` and `redo`: every feature of a list is removed. */
  method RemoveEdges(g: Graph, es: seq<Edge>)
    requires g.Valid() && AllIn(g, es)
    modifies (set e | e in es)`sourceNode, (set e | e in es)`targetNode, g, g.allNodes
    ensures g.Valid() && g.allEdges == old(g.allEdges) && g.allNodes == old(g.allNodes)
    ensures forall k | 0 <= k < |es| :: !es[k].IsLinked()
    ensures forall e | e in old(g.edges) && e !in es :: e in g.edges
  {
    var i := 0;
    while i < |es|
      invariant i <= |es| && g.Valid() && g.allEdges == old(g.allEdges) && g.allNodes == old(g.allNodes)
      invariant Taken(g, es, i, old(g.edges))
    {
      TakeAt(g, es, i, es[i], old(g.edges));
      i := i + 1;
    }
  }

  /** The first `done` features are removed, and every other edge of `base` is still listed. */
  ghost predicate Taken(g: Graph, es: seq<Edge>, done: nat, base: seq<Edge>)
    reads g, set e | e in es
  {
    && done <= |es|
    && (forall k | 0 <= k < done :: !es[k].IsLinked())
    && (forall e | e in base && e !in es :: e in g.edges)
  }

  /** One turn of the first loop of `undo` and `redo`. */
  method TakeAt(g: Graph, es: seq<Edge>, i: nat, e: Edge, ghost base: seq<Edge>)
    requires i < |es| && e == es[i] && g.Valid() && AllIn(g, es) && Taken(g, es, i, base)
    modifies e`sourceNode, e`targetNode, g, g.allNodes
    ensures g.Valid() && g.allEdges == old(g.allEdges) && g.allNodes == old(g.allNodes)
    ensures Taken(g, es, i + 1, base)
  {
    ghost var before := g.edges;
    Take(e);
    forall f | f in base && f !in es ensures f in g.edges {
      RemoveFirstKeeps(before, e, f);
    }
    forall k | 0 <= k < i + 1 ensures !es[k].IsLinked() {
      if es[k] != e {
        assert es[k].sourceNode == old(es[k].sourceNode);
      }
    }
  }

  /** The second loop of `undo` and `redo`: each feature is removed, given its recorded line string, and added. */
  method PutBack(g: Graph, es: seq<Edge>, gs: seq<seq<Point>>)
    requires g.Valid() && AllIn(g, es) && Consistent(es, gs)
    modifies (set e | e in es)`vertices, (set e | e in es)`sourceNode, (set e | e in es)`targetNode, g, g.allNodes
    ensures g.Valid() && g.allEdges == old(g.allEdges) && fresh(g.allNodes - old(g.allNodes))
    ensures forall k | 0 <= k < |es| :: es[k].vertices == gs[k] && (es[k].IsLinked() <==> |gs[k]| > 0)
    ensures forall e | e in old(g.edges) && e !in es :: e in g.edges
  {
    var i := 0;
    while i < |es|
      invariant i <= |es| && g.Valid() && g.allEdges == old(g.allEdges) && fresh(g.allNodes - old(g.allNodes))
      invariant Restored(g, es, gs, i, old(g.edges))
    {
      PutAt(g, es, gs, i, es[i], old(g.edges));
      i := i + 1;
    }
  }

  /** The first `done` features have their recorded line strings, and every other edge of `base` is still listed. */
  ghost predicate Restored(g: Graph, es: seq<Edge>, gs: seq<seq<Point>>, done: nat, base: seq<Edge>)
    reads g, set e | e in es
  {
    && done <= |es| == |gs|
    && (forall k | 0 <= k < done :: es[k].vertices == gs[k] && (es[k].IsLinked() <==> |gs[k]| > 0))
    && (forall e | e in base && e !in es :: e in g.edges)
  }

  /** One turn of the second loop of `undo` and `redo`. */
  method PutAt(g: Graph, es: seq<Edge>, gs: seq<seq<Point>>, i: nat, e: Edge, ghost base: seq<Edge>)
    requires i < |es| && e == es[i] && g.Valid() && AllIn(g, es) && Consistent(es, gs) && Restored(g, es, gs, i, base)
    modifies e`vertices, e`sourceNode, e`targetNode, g, g.allNodes
    ensures g.Valid() && g.allEdges == old(g.allEdges) && fresh(g.allNodes - old(g.allNodes))
    ensures Restored(g, es, gs, i + 1, base)
  {
    ghost var before := g.edges;
    ghost var wasLinked := e.IsLinked();
    Reset(e, gs[i]);
    forall f | f in base && f !in es ensures f in g.edges {
      if wasLinked {
        RemoveFirstKeeps(before, e, f);
      }
    }
    forall k | 0 <= k < i + 1 ensures es[k].vertices == gs[k] && (es[k].IsLinked() <==> |gs[k]| > 0) {
      if es[k] != e {
        assert es[k].vertices == old(es[k].vertices) && es[k].sourceNode == old(es[k].sourceNode);
      }
    }
  }

  /**
   * The undo record of the vertex editor: the features as they were with their vertex lists,
   * and the features as they are now with theirs. `shared` says the two feature lists are
   * one list, which the record compares by reference to decide whether to touch the selection.
   */
  class Undo {
    const graph: Graph
    const selection: EdgeSelection
    const oldFeatures: seq<Edge>
    const oldGeometries: seq<seq<Point>>
    const newFeatures: seq<Edge>
    const newGeometries: seq<seq<Point>>
    const shared: bool

    constructor (graph: Graph, selection: EdgeSelection, oldFeatures: seq<Edge>, oldGeometries: seq<seq<Point>>,
                 newFeatures: seq<Edge>, newGeometries: seq<seq<Point>>, shared: bool)
      requires Consistent(oldFeatures, oldGeometries) && Consistent(newFeatures, newGeometries)
      requires AllIn(graph, oldFeatures) && AllIn(graph, newFeatures) && (shared ==> oldFeatures == newFeatures)
      ensures Valid()
      ensures this.graph == graph && this.selection == selection && this.shared == shared
      ensures this.oldFeatures == oldFeatures && this.oldGeometries == oldGeometries
      ensures this.newFeatures == newFeatures && this.newGeometries == newGeometries
    {
      this.graph := graph;
      this.selection := selection;
      this.oldFeatures := oldFeatures;
      this.oldGeometries := oldGeometries;
      this.newFeatures := newFeatures;
      this.newGeometries := newGeometries;
      this.shared := shared;
    }

    ghost predicate Valid()
      reads graph
    {
      && Consistent(oldFeatures, oldGeometries) && Consistent(newFeatures, newGeometries)
      && AllIn(graph, oldFeatures) && AllIn(graph, newFeatures)
      && (shared ==> oldFeatures == newFeatures)
    }

    /**
     * `undo`: the new features are removed (and deselected, unless the lists are one), then
     * every old feature gets its old vertex list back and is linked again when it has vertices.
     */
    method Undo()
      requires graph.Valid() && Valid()
      modifies (set e | e in oldFeatures + newFeatures)`vertices, (set e | e in oldFeatures + newFeatures)`sourceNode
      modifies (set e | e in oldFeatures + newFeatures)`targetNode, graph, graph.allNodes, selection
      ensures graph.Valid() && graph.allEdges == old(graph.allEdges) && fresh(graph.allNodes - old(graph.allNodes))
      ensures forall k | 0 <= k < |oldFeatures| ::
        oldFeatures[k].vertices == oldGeometries[k] && (oldFeatures[k].IsLinked() <==> |oldGeometries[k]| > 0)
      ensures forall k | 0 <= k < |newFeatures| && newFeatures[k] !in oldFeatures ::
        !newFeatures[k].IsLinked() && newFeatures[k].vertices == old(newFeatures[k].vertices)
      ensures selection.elements == if shared then old(selection.elements) else old(selection.elements) - set f | f in newFeatures
      ensures forall e | e in old(graph.edges) && e !in oldFeatures && e !in newFeatures :: e in graph.edges
    {
      RemoveEdges(graph, newFeatures);
      if !shared {
        var _ := selection.RemoveAll(newFeatures);
      }
      PutBack(graph, oldFeatures, oldGeometries);
    }

    /** `redo`: the mirror image of `undo`, with the old and new lists exchanged. */
    method Redo()
      requires graph.Valid() && Valid()
      modifies (set e | e in oldFeatures + newFeatures)`vertices, (set e | e in oldFeatures + newFeatures)`sourceNode
      modifies (set e | e in oldFeatures + newFeatures)`targetNode, graph, graph.allNodes, selection
      ensures graph.Valid() && graph.allEdges == old(graph.allEdges) && fresh(graph.allNodes - old(graph.allNodes))
      ensures forall k | 0 <= k < |newFeatures| ::
        newFeatures[k].vertices == newGeometries[k] && (newFeatures[k].IsLinked() <==> |newGeometries[k]| > 0)
      ensures forall k | 0 <= k < |oldFeatures| && oldFeatures[k] !in newFeatures ::
        !oldFeatures[k].IsLinked() && oldFeatures[k].vertices == old(oldFeatures[k].vertices)
      ensures selection.elements == if shared then old(selection.elements) else old(selection.elements) - set f | f in oldFeatures
      ensures forall e | e in old(graph.edges) && e !in oldFeatures && e !in newFeatures :: e in graph.edges
    {
      RemoveEdges(graph, oldFeatures);
      if !shared {
        var _ := selection.RemoveAll(oldFeatures);
      }
      PutBack(graph, newFeatures, newGeometries);
    }
  }

  /** `copyPickFeatures`: the picks' features, in pick order. */
  method CopyPickFeatures(picks: seq<Pick>) returns (features: seq<Edge>)
    ensures |features| == |picks| && forall k | 0 <= k < |picks| :: features[k] == picks[k].edge
  {
    features := [];
    var i := 0;
    while i < |picks|
      invariant i <= |picks| && |features| == i && forall k | 0 <= k < i :: features[k] == picks[k].edge
    {
      features := features + [picks[i].edge];
      i := i + 1;
    }
  }

  /** `copyPickGeometries`: a copy of each pick's line string, in pick order. */
  method CopyPickGeometries(picks: seq<Pick>) returns (geometries: seq<seq<Point>>)
    ensures |geometries| == |picks| && forall k | 0 <= k < |picks| :: geometries[k] == picks[k].edge.vertices
  {
    geometries := [];
    var i := 0;
    while i < |picks|
      invariant i <= |picks| && |geometries| == i && forall k | 0 <= k < i :: geometries[k] == picks[k].edge.vertices
    {
      geometries := geometries + [picks[i].edge.vertices];
      i := i + 1;
    }
  }

  /** The undoable `insertVertex`: one feature, before and after, in one list for both. */
  method InsertVertexAction(selection: EdgeSelection, e: Edge, index: nat, p: Point) returns (undo: Undo)
    requires e.graph.Valid() && e in e.graph.allEdges && index < |e.vertices|
    modifies e`vertices, e`sourceNode, e`targetNode, e.graph, e.graph.allNodes
    ensures e.graph.Valid() && e.graph.allEdges == old(e.graph.allEdges) && fresh(e.graph.allNodes - old(e.graph.allNodes))
    ensures e.vertices == Inserted(old(e.vertices), index, p) && LinkedAt(e)
    ensures fresh(undo) && undo.graph == e.graph && undo.selection == selection && undo.Valid() && undo.shared
    ensures undo.oldFeatures == undo.newFeatures == [e]
    ensures undo.oldGeometries == [old(e.vertices)] && undo.newGeometries == [e.vertices]
  {
    var oldGeometry := e.vertices;
    InsertVertex(e, index, p);
    undo := new Undo(e.graph, selection, [e], [oldGeometry], [e], [e.vertices], true);
  }

  /**
   * The undoable `removeVertex`: the picks' features and copies of their line strings before and
   * after, the features in one list for both. A stale index throws before the record is made.
   */
  method RemoveVertexAction(g: Graph, selection: EdgeSelection, picks: seq<Pick>) returns (undo: Undo?)
    requires g.Valid() && forall k | 0 <= k < |picks| :: picks[k].edge in g.allEdges
    modifies Picked(picks)`vertices, Picked(picks)`sourceNode, Picked(picks)`targetNode, g, g.allNodes
    ensures g.Valid() && g.allEdges == old(g.allEdges) && fresh(g.allNodes - old(g.allNodes))
    ensures undo == null <==> Thin(old(Start(picks)), picks).None?
    ensures undo != null ==>
      && Matches(Picked(picks), Thin(old(Start(picks)), picks).value, old(LinkedOf(picks)))
      && fresh(undo) && undo.graph == g && undo.selection == selection && undo.Valid() && undo.shared
      && |undo.oldFeatures| == |picks| && undo.oldFeatures == undo.newFeatures
      && forall k | 0 <= k < |picks| ::
           && undo.oldFeatures[k] == picks[k].edge
           && undo.oldGeometries[k] == old(picks[k].edge.vertices)
           && undo.newGeometries[k] == picks[k].edge.vertices
  {
    var features := CopyPickFeatures(picks);
    var oldGeometries := CopyPickGeometries(picks);
    var failed := RemoveVertices(g, picks);
    if failed {
      return null;
    }
    var newGeometries := CopyPickGeometries(picks);
    undo := new Undo(g, selection, features, oldGeometries, features, newGeometries, true);
  }

  /** The undoable `splitEdge`: the old edge with its line string, and the two new edges with copies of theirs. */
  method SplitEdgeAction(selection: EdgeSelection, e: Edge, index: nat, p: Point) returns (undo: Undo)
    requires e.graph.Valid() && e in e.graph.allEdges && index + 1 < |e.vertices|
    modifies e`sourceNode, e`targetNode, e.graph, e.graph.allNodes, selection
    ensures e.graph.Valid() && fresh(e.graph.allNodes - old(e.graph.allNodes))
    ensures fresh(undo) && undo.graph == e.graph && undo.selection == selection && undo.Valid() && !undo.shared
    ensures undo.oldFeatures == [e] && undo.oldGeometries == [e.vertices] && e.vertices == old(e.vertices) && !e.IsLinked()
    ensures |undo.newFeatures| == 2 && fresh(undo.newFeatures[0]) && fresh(undo.newFeatures[1])
    ensures e.graph.allEdges == old(e.graph.allEdges) + {undo.newFeatures[0], undo.newFeatures[1]}
    ensures (undo.newGeometries[0], undo.newGeometries[1]) == SplitHalves(e.vertices, index, p)
    ensures LinkedAt(undo.newFeatures[0]) && LinkedAt(undo.newFeatures[1])
    ensures undo.newFeatures[0].vertices == undo.newGeometries[0] && undo.newFeatures[1].vertices == undo.newGeometries[1]
    ensures selection.elements == old(selection.elements) - {e} + {undo.newFeatures[0], undo.newFeatures[1]}
  {
    var e1, e2 := SplitEdge(selection, e, index, p);
    SingleRecord(e.graph, e, e.vertices);
    PairRecord(e.graph, e1, e2, e1.vertices, e2.vertices);
    undo := new Undo(e.graph, selection, [e], [e.vertices], [e1, e2], [e1.vertices, e2.vertices], false);
  }

  /**
   * `edge.duplicate()`: a new, removed edge of the same graph with the same vertices, speed,
   * lanes and delay.
   */
  method Duplicate(e: Edge) returns (d: Edge)
    requires e.graph.Valid()
    modifies e.graph`allEdges
    ensures e.graph.Valid() && fresh(d) && e.graph.allEdges == old(e.graph.allEdges) + {d} && !d.IsLinked()
    ensures d.graph == e.graph && d.vertices == e.vertices && d.speed == e.speed && d.lanes == e.lanes && d.delay == e.delay
  {
    d := e.graph.NewEdge(e.vertices, e.speed, e.lanes, e.delay);
  }

  /**
   * The undoable `joinEdges`: both old edges are removed and deselected, and a duplicate of the
   * first takes the joined vertex list and is added and selected. The old edges keep their
   * line strings, which the record holds with theirs; the new edge's record is a copy.
   */
  method JoinEdgesAction(g: Graph, selection: EdgeSelection, picks: seq<Pick>) returns (undo: Undo?)
    requires g.Valid() && PicksOf(g, picks)
    modifies Picked(picks)`sourceNode, Picked(picks)`targetNode, g, g.allNodes, selection
    ensures g.Valid() && fresh(g.allNodes - old(g.allNodes))
    ensures undo == null <==> JoinPicks(picks).None?
    ensures undo == null ==> g.edges == old(g.edges) && g.allEdges == old(g.allEdges) && selection.elements == old(selection.elements)
    ensures undo != null ==>
      var (p1, p2) := JoinPicks(picks).value;
      && fresh(undo) && undo.graph == g && undo.selection == selection && undo.Valid() && !undo.shared
      && undo.oldFeatures == [p1.edge, p2.edge] && undo.oldGeometries == [p1.edge.vertices, p2.edge.vertices]
      && !p1.edge.IsLinked() && !p2.edge.IsLinked()
      && |undo.newFeatures| == 1 && fresh(undo.newFeatures[0]) && g.allEdges == old(g.allEdges) + {undo.newFeatures[0]}
      && undo.newGeometries == [JoinedVertices(p1.edge.vertices, p2.edge.vertices)]
      && undo.newFeatures[0].vertices == undo.newGeometries[0] && LinkedAt(undo.newFeatures[0])
      && undo.newFeatures[0].speed == p1.edge.speed && undo.newFeatures[0].lanes == p1.edge.lanes
      && undo.newFeatures[0].delay == p1.edge.delay
      && selection.elements == old(selection.elements) - {p1.edge, p2.edge} + {undo.newFeatures[0]}
  {
    var choice := JoinPicks(picks);
    if choice.None? {
      return null;
    }
    var e1, e2 := choice.value.0.edge, choice.value.1.edge;
    var e3 := JoinEdges(selection, e1, e2);
    PairRecord(g, e1, e2, e1.vertices, e2.vertices);
    SingleRecord(g, e3, e3.vertices);
    undo := new Undo(g, selection, [e1, e2], [e1.vertices, e2.vertices], [e3], [e3.vertices], false);
  }

  /**
   * `joinEdges` on the edge to continue (with at least two vertices) and the edge that
   * continues it: both are removed and deselected, and the joined duplicate is added and selected.
   */
  method JoinEdges(selection: EdgeSelection, e1: Edge, e2: Edge) returns (e3: Edge)
    requires e1.graph.Valid() && e1 in e1.graph.allEdges && e2 in e1.graph.allEdges && |e1.vertices| >= 2
    modifies e1`sourceNode, e1`targetNode, e2`sourceNode, e2`targetNode, e1.graph, e1.graph.allNodes, selection
    ensures e1.graph.Valid() && fresh(e3) && e1.graph.allEdges == old(e1.graph.allEdges) + {e3}
    ensures fresh(e1.graph.allNodes - old(e1.graph.allNodes))
    ensures !e1.IsLinked() && !e2.IsLinked()
    ensures e3.vertices == JoinedVertices(e1.vertices, e2.vertices) && LinkedAt(e3)
    ensures e3.speed == e1.speed && e3.lanes == e1.lanes && e3.delay == e1.delay
    ensures selection.elements == old(selection.elements) - {e1, e2} + {e3}
  {
    e3 := JoinCopy(e1, e2);
    ReselectJoined(selection, e1, e2, e3);
  }

  /** The selection changes of `joinEdges`: both old edges are deselected and the new one is selected. */
  method ReselectJoined(selection: EdgeSelection, e1: Edge, e2: Edge, e3: Edge)
    modifies selection
    ensures selection.elements == old(selection.elements) - {e1, e2} + {e3}
  {
    var _ := selection.Remove(e1);
    var _ := selection.Remove(e2);
    var _ := selection.Add(e3);
  }

  /** The graph part of the undoable `joinEdges`. */
  method JoinCopy(e1: Edge, e2: Edge) returns (e3: Edge)
    requires e1.graph.Valid() && e1 in e1.graph.allEdges && e2 in e1.graph.allEdges && |e1.vertices| >= 2
    modifies e1`sourceNode, e1`targetNode, e2`sourceNode, e2`targetNode, e1.graph, e1.graph.allNodes
    ensures e1.graph.Valid() && fresh(e3) && e1.graph.allEdges == old(e1.graph.allEdges) + {e3}
    ensures fresh(e1.graph.allNodes - old(e1.graph.allNodes))
    ensures !e1.IsLinked() && !e2.IsLinked()
    ensures e3.vertices == JoinedVertices(e1.vertices, e2.vertices) && LinkedAt(e3)
    ensures e3.speed == e1.speed && e3.lanes == e1.lanes && e3.delay == e1.delay
  {
    Take(e1);
    Take(e2);
    e3 := AddJoined(e1, e2);
  }

  /** `edge1.duplicate()`, its last vertex dropped, the second's vertices appended, and `add`. */
  method AddJoined(e1: Edge, e2: Edge) returns (e3: Edge)
    requires e1.graph.Valid() && |e1.vertices| >= 2
    modifies e1.graph, e1.graph.allNodes
    ensures e1.graph.Valid() && fresh(e3) && e1.graph.allEdges == old(e1.graph.allEdges) + {e3}
    ensures fresh(e1.graph.allNodes - old(e1.graph.allNodes))
    ensures e3.vertices == JoinedVertices(e1.vertices, e2.vertices) && LinkedAt(e3)
    ensures e3.speed == e1.speed && e3.lanes == e1.lanes && e3.delay == e1.delay
  {
    e3 := Duplicate(e1);
    var v := e3.vertices;
    v := v[..|v| - 1];
    v := v + e2.vertices;
    e3.Retouch(v);
    e3.Add();
  }
}
