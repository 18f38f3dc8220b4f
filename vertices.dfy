/**
 * The vertex-list operations of the vertex editor: a vertex inserted after a segment's
 * start, a vertex removed from a line string that keeps at least two, a polyline split at a
 * point of one of its segments, and two polylines joined end to start.
 */
module Vertices {
  import opened Geom
  import opened Lists
  import opened Wrappers

  /** `vertices.add(index + 1, point)`: the point right after the vertex at `index`. */
  function Inserted(v: seq<Point>, index: nat, p: Point): seq<Point>
    requires index < |v|
  {
    v[..index + 1] + [p] + v[index + 1..]
  }

  /** `vertices.remove(index)`. */
  function RemovedAt(v: seq<Point>, index: nat): seq<Point>
    requires index < |v|
  {
    v[..index] + v[index + 1..]
  }

  /** The two vertex lists of `splitEdge`: up to the segment's start then the point, and the point then the rest. */
  function SplitHalves(v: seq<Point>, index: nat, p: Point): (seq<Point>, seq<Point>)
    requires index < |v|
  {
    (v[..index + 1] + [p], [p] + v[index + 1..])
  }

  /** The vertex list of `joinEdges`: the first without its last vertex, then the whole second. */
  function JoinedVertices(v1: seq<Point>, v2: seq<Point>): seq<Point>
    requires v1 != []
  {
    v1[..|v1| - 1] + v2
  }

  /**
   * `joinEdges`' guard on the two picked vertex indices: `Some(true)` when the second pick is
   * the edge to continue (its index is above 0 and the first pick is at vertex 0), so the
   * picks are swapped; `Some(false)` in the mirrored case; `None` otherwise.
   */
  function JoinOrder(i1: nat, i2: nat): Option<bool> {
    if i2 > i1 && i1 == 0 then Some(true)
    else if i1 > i2 && i2 == 0 then Some(false)
    else None
  }

  /** The loops of `splitEdge` that copy the vertices into the two new lists. */
  method SplitVertices(vertices: seq<Point>, index: nat, p: Point) returns (v1: seq<Point>, v2: seq<Point>)
    requires index < |vertices|
    ensures (v1, v2) == SplitHalves(vertices, index, p)
  {
    v1 := [];
    var i := 0;
    while i <= index
      invariant i <= index + 1 && v1 == vertices[..i]
    {
      v1 := v1 + [vertices[i]];
      i := i + 1;
    }
    v1 := v1 + [p];
    v2 := [p];
    i := index + 1;
    while i < |vertices|
      invariant index + 1 <= i <= |vertices| && v2 == [p] + vertices[index + 1..i]
    {
      v2 := v2 + [vertices[i]];
      i := i + 1;
    }
    assert vertices[index + 1..i] == vertices[index + 1..];
  }

  /**
   * The inserted point sits at `index + 1`; the vertices before and after it keep their order,
   * and removing it again gives the old list back.
   */
  lemma InsertedShape(v: seq<Point>, index: nat, p: Point)
    requires index < |v|
    ensures var r := Inserted(v, index, p);
      && |r| == |v| + 1 && r[index + 1] == p
      && r[..index + 1] == v[..index + 1] && r[index + 2..] == v[index + 1..]
      && RemovedAt(r, index + 1) == v
  {
    var r := Inserted(v, index, p);
    assert r[..index + 1] == v[..index + 1];
    assert r[index + 2..] == v[index + 1..];
    assert RemovedAt(r, index + 1) == v[..index + 1] + v[index + 1..];
  }

  /** `removeVertex` never leaves a line string with fewer than two vertices. */
  lemma RemoveKeepsTwo(v: seq<Point>, index: nat)
    requires index < |v| && |v| > 2
    ensures |RemovedAt(v, index)| == |v| - 1 >= 2
    ensures forall k | 0 <= k < |v| - 1 :: RemovedAt(v, index)[k] == if k < index then v[k] else v[k + 1]
  {
  }

  /**
   * The halves share the split point, and between them hold every vertex once plus the point
   * twice; for a split inside a segment (the index the finder reports), the first starts where
   * the polyline started and the second ends where it ended.
   */
  lemma SplitShape(v: seq<Point>, index: nat, p: Point)
    requires index + 1 < |v|
    ensures var (v1, v2) := SplitHalves(v, index, p);
      && |v1| + |v2| == |v| + 2
      && Last(v1) == p && v2[0] == p
      && v1[0] == v[0] && Last(v2) == Last(v)
      && v1[..|v1| - 1] + v2[1..] == v
  {
    var (v1, v2) := SplitHalves(v, index, p);
    assert v1[..|v1| - 1] == v[..index + 1];
    assert v2[1..] == v[index + 1..];
    assert Last(v2) == v[index + 1..][|v| - index - 2] == Last(v);
  }

  /** Joining the two halves of a split is inserting the split point. */
  lemma SplitThenJoin(v: seq<Point>, index: nat, p: Point)
    requires index < |v|
    ensures JoinedVertices(SplitHalves(v, index, p).0, SplitHalves(v, index, p).1) == Inserted(v, index, p)
  {
    var (v1, v2) := SplitHalves(v, index, p);
    assert v1[..|v1| - 1] == v[..index + 1];
  }

  /** The joined list drops one vertex, the first list's last, which the second list is meant to repeat. */
  lemma JoinShape(v1: seq<Point>, v2: seq<Point>)
    requires v1 != []
    ensures var r := JoinedVertices(v1, v2);
      && |r| == |v1| + |v2| - 1
      && r[..|v1| - 1] == v1[..|v1| - 1] && r[|v1| - 1..] == v2
      && (|v1| > 1 ==> r[0] == v1[0])
      && (v2 != [] ==> Last(r) == Last(v2))
  {
    var r := JoinedVertices(v1, v2);
    assert r[|v1| - 1..] == v2;
  }

  /**
   * `joinEdges` goes ahead exactly when one pick is at vertex 0 and the other at a later
   * vertex; the edge picked at the later vertex comes first.
   */
  lemma JoinGuard(i1: nat, i2: nat)
    ensures JoinOrder(i1, i2).Some? <==> (i1 == 0 && i2 > 0) || (i2 == 0 && i1 > 0)
    ensures JoinOrder(i1, i2) == Some(true) ==> i1 == 0 && i2 > 0
    ensures JoinOrder(i1, i2) == Some(false) ==> i2 == 0 && i1 > 0
  {
  }
}
