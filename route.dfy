/**
 * A computed path (`Route`): a list of sections, each a road edge together with the part
 * of its polyline that is travelled. The first and the last section may be cut at the
 * points where the route starts and ends; the sections in between cover whole edges.
 */
module Routes {
  import opened Lists
  import opened Geom
  import opened XReals
  import opened Wrappers
  import Network

  /** `Route.Section`: the line string travelled and the edge it lies on. */
  datatype Section = Section(vertices: seq<Point>, edge: Network.Edge)

  /** The first vertex of a section: `point`, then the vertices after segment `index` of the edge. */
  function InitialPart(v: seq<Point>, point: Point, index: int): (r: seq<Point>)
    requires -1 <= index < |v|
    ensures |r| == |v| - index && r[0] == point
    ensures forall k | 1 <= k < |r| :: r[k] == v[index + k]
  {
    [point] + v[index + 1..]
  }

  /** The vertices up to the end of segment `index`, then the final point. */
  function EndingPart(v: seq<Point>, point: Point, index: int): (r: seq<Point>)
    requires -1 <= index < |v|
    ensures |r| == index + 2 && Last(r) == point
    ensures forall k | 0 <= k <= index :: r[k] == v[k]
  {
    v[..index + 1] + [point]
  }

  /** The stretch of one edge between a point on segment `index1` and a point on segment `index2`. */
  function PartialPart(v: seq<Point>, p1: Point, index1: int, p2: Point, index2: int): (r: seq<Point>)
    requires -1 <= index1 <= index2 < |v|
    ensures |r| == index2 - index1 + 2 && r[0] == p1 && Last(r) == p2
    ensures forall k | 1 <= k <= index2 - index1 :: r[k] == v[index1 + k]
  {
    [p1] + v[index1 + 1..index2 + 1] + [p2]
  }

  /** A stretch inside one edge is the edge cut at its start and then cut again at its end. */
  lemma PartialIsInitialThenEnding(v: seq<Point>, p1: Point, index1: int, p2: Point, index2: int)
    requires -1 <= index1 <= index2 < |v|
    ensures PartialPart(v, p1, index1, p2, index2) == EndingPart(InitialPart(v, p1, index1), p2, index2 - index1)
  {
    var w := InitialPart(v, p1, index1);
    assert w[..index2 - index1 + 1] == [p1] + v[index1 + 1..index2 + 1];
  }

  /**
   * Cutting an edge at a point of segment `index`, the part that ends there and the part that
   * starts there give back the whole polyline with the point inserted after vertex `index`.
   */
  lemma EndingThenInitial(v: seq<Point>, point: Point, index: int)
    requires -1 <= index < |v|
    ensures EndingPart(v, point, index) + InitialPart(v, point, index)[1..] == v[..index + 1] + [point] + v[index + 1..]
  {
  }

  /** The edges a list of sections lies on. */
  function EdgesOf(ss: seq<Section>): set<Network.Edge> {
    set s | s in ss :: s.edge
  }

  /** The lengths of the sections' line strings, summed in order. */
  function SumLengths(ss: seq<Section>, length: LengthOf): (r: real)
    ensures r >= 0.0
  {
    if ss == [] then 0.0 else SumLengths(ss[..|ss| - 1], length) + length(ss[|ss| - 1].vertices)
  }

  /** `Route.getLength`: infinite for an empty route, otherwise the sum of the section lengths. */
  function RouteLength(ss: seq<Section>, length: LengthOf): (r: XReal)
    ensures ss == [] <==> r.PosInf?
    ensures ss != [] ==> r.Fin? && r.r >= 0.0
  {
    if ss == [] then PosInf else Fin(SumLengths(ss, length))
  }

  /** The length of two routes joined is the sum of their lengths. */
  lemma {:induction false} SumLengthsAppend(a: seq<Section>, b: seq<Section>, length: LengthOf)
    ensures SumLengths(a + b, length) == SumLengths(a, length) + SumLengths(b, length)
    decreases |b|
  {
    if b == [] {
      assert a + b == a;
    } else {
      assert (a + b)[..|a + b| - 1] == a + b[..|b| - 1];
      assert (a + b)[|a + b| - 1] == b[|b| - 1];
      SumLengthsAppend(a, b[..|b| - 1], length);
    }
  }

  /**
   * The vertices `getLineString` has gathered after the first `n` sections: each section's
   * vertices are appended, and the last collected vertex is dropped again after every section
   * but the final one (it is the first vertex of the next section).
   */
  function Gathered(ss: seq<Section>, n: nat): seq<Point>
    requires n <= |ss|
  {
    if n == 0 then []
    else
      var w := Gathered(ss, n - 1) + ss[n - 1].vertices;
      if n < |ss| && w != [] then w[..|w| - 1] else w
  }

  /** `vertices.remove(size - 1)` in `getLineString` never meets an empty list. */
  predicate Joinable(ss: seq<Section>) {
    forall k | 0 <= k < |ss| - 1 :: Gathered(ss, k) + ss[k].vertices != []
  }

  /** The sum of the sections' vertex counts. */
  function Sizes(ss: seq<Section>): nat {
    if ss == [] then 0 else Sizes(ss[..|ss| - 1]) + |ss[|ss| - 1].vertices|
  }

  /** Every section has at least one vertex, as every section the `add` methods make for a linked edge does. */
  predicate NonEmptySections(ss: seq<Section>) {
    forall k | 0 <= k < |ss| :: ss[k].vertices != []
  }

  /** Before the final section, the gathered vertices are the sections' vertices less one per section. */
  lemma {:induction false} GatheredSize(ss: seq<Section>, n: nat)
    requires n < |ss| && NonEmptySections(ss)
    ensures |Gathered(ss, n)| == Sizes(ss[..n]) - n
  {
    if n > 0 {
      GatheredSize(ss, n - 1);
      assert ss[..n][..n - 1] == ss[..n - 1];
      assert ss[n - 1].vertices != [];
    }
  }

  /**
   * A route of non-empty sections can be drawn, and its line string has one vertex per section
   * vertex except the joint vertex dropped between consecutive sections.
   */
  lemma LineStringSize(ss: seq<Section>)
    requires ss != [] && NonEmptySections(ss)
    ensures Joinable(ss)
    ensures |Gathered(ss, |ss|)| == Sizes(ss) - (|ss| - 1)
  {
    forall k | 0 <= k < |ss| - 1 ensures Gathered(ss, k) + ss[k].vertices != [] {
      assert ss[k].vertices != [];
    }
    GatheredSize(ss, |ss| - 1);
    assert ss[..|ss|][..|ss| - 1] == ss[..|ss| - 1];
    assert ss[..|ss|] == ss;
  }

  /** The final section's vertices are kept whole, so a route's line string ends where its last section ends. */
  lemma LineStringEnd(ss: seq<Section>)
    requires ss != []
    ensures Gathered(ss, |ss|) == Gathered(ss, |ss| - 1) + ss[|ss| - 1].vertices
    ensures ss[|ss| - 1].vertices != [] ==>
      var line := Gathered(ss, |ss|); var last := ss[|ss| - 1].vertices;
      line != [] && line[|line| - 1] == last[|last| - 1]
  {
  }

  /** `Route`: the ordered list of sections. */
  class Route {
    var sections: seq<Section>

    constructor ()
      ensures sections == []
    {
      sections := [];
    }

    /** `addInitialSection`: the first point, then the start edge's vertices after segment `index`. */
    method AddInitialSection(startEdge: Network.Edge, point: Point, index: int) returns (section: Section)
      requires -1 <= index < |startEdge.vertices|
      modifies this
      ensures section == Section(InitialPart(startEdge.vertices, point, index), startEdge)
      ensures sections == old(sections) + [section]
    {
      section := Section([point] + startEdge.vertices[index + 1..], startEdge);
      sections := sections + [section];
    }

    /** `addEndingSection`: the end edge's vertices up to segment `index`, then the last point. */
    method AddEndingSection(endEdge: Network.Edge, point: Point, index: int) returns (section: Section)
      requires -1 <= index < |endEdge.vertices|
      modifies this
      ensures section == Section(EndingPart(endEdge.vertices, point, index), endEdge)
      ensures sections == old(sections) + [section]
    {
      section := Section(endEdge.vertices[..index + 1] + [point], endEdge);
      sections := sections + [section];
    }

    /** `addSection(edge)`: the whole edge, holding the edge's vertex list. */
    method AddSection(edge: Network.Edge) returns (section: Section)
      modifies this
      ensures section == Section(edge.vertices, edge)
      ensures sections == old(sections) + [section]
    {
      section := Section(edge.vertices, edge);
      sections := sections + [section];
    }

    /** `addSection(edge, p1, index1, p2, index2)`: the stretch of one edge between two points. */
    method AddPartialSection(edge: Network.Edge, p1: Point, index1: int, p2: Point, index2: int)
      returns (section: Section)
      requires -1 <= index1 <= index2 < |edge.vertices|
      modifies this
      ensures section == Section(PartialPart(edge.vertices, p1, index1, p2, index2), edge)
      ensures sections == old(sections) + [section]
    {
      section := Section([p1] + edge.vertices[index1 + 1..index2 + 1] + [p2], edge);
      sections := sections + [section];
    }

    predicate IsEmpty()
      reads this
    {
      sections == []
    }

    /** `getOrigin`: absent for an empty route, otherwise the first vertex of the first section. */
    function Origin(): (r: Option<Point>)
      reads this
      requires sections == [] || sections[0].vertices != []
      ensures r.None? <==> IsEmpty()
      ensures r.Some? ==> r.value == sections[0].vertices[0]
    {
      if sections == [] then None else Some(sections[0].vertices[0])
    }

    /** `getDestination`: absent for an empty route, otherwise the last vertex of the last section. */
    function Destination(): (r: Option<Point>)
      reads this
      requires sections == [] || Last(sections).vertices != []
      ensures r.None? <==> IsEmpty()
      ensures r.Some? ==> r.value == Last(Last(sections).vertices)
    {
      if sections == [] then None else Some(Last(Last(sections).vertices))
    }

    /** `getLength`: infinite for an empty route, otherwise the section lengths summed in order. */
    method GetLength(length: LengthOf) returns (total: XReal)
      ensures total == RouteLength(sections, length)
    {
      if sections == [] {
        total := PosInf;
      } else {
        total := Fin(0.0);
        var i := 0;
        while i < |sections|
          invariant 0 <= i <= |sections|
          invariant total == Fin(SumLengths(sections[..i], length))
        {
          assert sections[..i + 1][..i] == sections[..i];
          total := Add(total, Fin(length(sections[i].vertices)));
          i := i + 1;
        }
        assert sections[..i] == sections;
      }
    }

    /**
     * `getLineString`: the sections' vertices one after the other, dropping the last gathered
     * vertex after every section but the final one.
     */
    method GetLineString() returns (vertices: seq<Point>)
      requires Joinable(sections)
      ensures vertices == Gathered(sections, |sections|)
    {
      var lastSection := |sections| - 1;
      vertices := [];
      var i := 0;
      while i < |sections|
        invariant 0 <= i <= |sections|
        invariant vertices == Gathered(sections, i)
      {
        vertices := vertices + sections[i].vertices;
        if i < lastSection {
          vertices := vertices[..|vertices| - 1];
        }
        i := i + 1;
      }
    }
  }
}
