/**
 * `Finder`: hit-testing the features of a layer. `findByPoint` keeps, in the caller's pick,
 * the nearest point feature or line segment within the tolerance, the first one met winning
 * ties; `findByBox` selects the features whose bounding box lies inside a box. Distances and
 * bounding boxes are oracles.
 */
module Finding {
  import opened Geom
  import opened XReals
  import opened Wrappers
  import opened Boxes
  import opened Selections

  /** The fields of a pick, as a value. */
  datatype PickState<F> = PickState(
    feature: Option<F>, worldPoint: Point, onFeaturePoint: Point, distance: XReal, edgeSegmentIndex: int)

  /**
   * `PickInfo`: the feature picked so far, the query point, the point of the feature nearest
   * to it, its distance and, for a line string, the index of the segment that was hit.
   */
  class Pick<F(==)> {
    var feature: Option<F>
    var worldPoint: Point
    var onFeaturePoint: Point
    var distance: XReal
    var edgeSegmentIndex: int

    function State(): PickState<F>
      reads this
    {
      PickState(feature, worldPoint, onFeaturePoint, distance, edgeSegmentIndex)
    }

    constructor ()
      ensures feature.None? && distance == PosInf
    {
      feature := None;
      worldPoint := Point(0.0, 0.0, 0.0);
      onFeaturePoint := Point(0.0, 0.0, 0.0);
      distance := PosInf;
      edgeSegmentIndex := 0;
    }

    /** `clear`: no feature is picked and any distance is an improvement. */
    method Clear()
      modifies this
      ensures State() == old(State()).(feature := None, distance := PosInf)
    {
      feature := None;
      distance := PosInf;
    }
  }

  /**
   * One thing `findByPoint` measures, in the order it measures them: a point feature, or one
   * segment of a line-string feature. `index` is the feature's position in the layer.
   */
  datatype Candidate<F> = Candidate(index: nat, feature: F, distance: real, onPoint: Point, segment: Option<int>)

  /** The candidates of segments `0 .. n - 1` of a line string. */
  function SegmentCandidates<F>(index: nat, feature: F, v: seq<Point>, world: Point, seg: SegmentDistance, n: nat)
    : (r: seq<Candidate<F>>)
    requires n < |v| || n == 0
    ensures |r| == n
    ensures forall k | 0 <= k < n :: r[k].index == index && r[k].feature == feature && r[k].segment == Some(k)
  {
    if n == 0 then []
    else
      var hit := seg(world, v[n - 1], v[n]);
      SegmentCandidates(index, feature, v, world, seg, n - 1) + [Candidate(index, feature, hit.0, hit.1, Some(n - 1))]
  }

  /** The candidates of one feature: its position, each segment of its line string, or nothing for a polygon. */
  function FeatureCandidates<F>(index: nat, feature: F, g: Geometry, world: Point, dist: Distance, seg: SegmentDistance)
    : seq<Candidate<F>>
  {
    match g
    case PointGeometry(p) => [Candidate(index, feature, dist(p, world), p, None)]
    case LineGeometry(v) => if |v| <= 1 then [] else SegmentCandidates(index, feature, v, world, seg, |v| - 1)
    case PolygonGeometry(_) => []
  }

  /** The candidates of the first `n` features, in the order `findByPoint` visits them. */
  function Candidates<F>(features: seq<F>, geometries: seq<Geometry>, n: nat, world: Point, dist: Distance, seg: SegmentDistance)
    : seq<Candidate<F>>
    requires n <= |features| == |geometries|
  {
    if n == 0 then []
    else
      Candidates(features, geometries, n - 1, world, dist, seg)
        + FeatureCandidates(n - 1, features[n - 1], geometries[n - 1], world, dist, seg)
  }

  /**
   * Every candidate is a point feature or a segment of a line-string feature of the layer;
   * polygons give none. A segment index lies in `0 .. |vertices| - 2`.
   */
  predicate FromLayer<F(==)>(c: Candidate<F>, features: seq<F>, geometries: seq<Geometry>)
    requires |features| == |geometries|
  {
    && c.index < |features| && c.feature == features[c.index]
    && !geometries[c.index].PolygonGeometry?
    && (geometries[c.index].PointGeometry? ==> c.segment.None? && c.onPoint == geometries[c.index].position)
    && (geometries[c.index].LineGeometry? ==> c.segment.Some? && 0 <= c.segment.value < |geometries[c.index].vertices| - 1)
  }

  predicate AllFromLayer<F(==)>(cs: seq<Candidate<F>>, features: seq<F>, geometries: seq<Geometry>)
    requires |features| == |geometries|
  {
    forall k | 0 <= k < |cs| :: FromLayer(cs[k], features, geometries)
  }

  lemma AllFromLayerAppend<F>(a: seq<Candidate<F>>, b: seq<Candidate<F>>, features: seq<F>, geometries: seq<Geometry>)
    requires |features| == |geometries|
    requires AllFromLayer(a, features, geometries) && AllFromLayer(b, features, geometries)
    ensures AllFromLayer(a + b, features, geometries)
  {
    forall k | 0 <= k < |a + b| ensures FromLayer((a + b)[k], features, geometries) {
      if k >= |a| {
        assert (a + b)[k] == b[k - |a|];
      }
    }
  }

  lemma {:induction false} CandidatesFromLayer<F>(features: seq<F>, geometries: seq<Geometry>, n: nat,
                                                world: Point, dist: Distance, seg: SegmentDistance)
    requires n <= |features| == |geometries|
    ensures AllFromLayer(Candidates(features, geometries, n, world, dist, seg), features, geometries)
  {
    if n > 0 {
      CandidatesFromLayer(features, geometries, n - 1, world, dist, seg);
      CandidatesStep(features, geometries, n, world, dist, seg);
    }
  }

  /** The candidates of one more feature come from the layer when the earlier ones do. */
  lemma CandidatesStep<F>(features: seq<F>, geometries: seq<Geometry>, n: nat,
                          world: Point, dist: Distance, seg: SegmentDistance)
    requires 0 < n <= |features| == |geometries|
    requires AllFromLayer(Candidates(features, geometries, n - 1, world, dist, seg), features, geometries)
    ensures AllFromLayer(Candidates(features, geometries, n, world, dist, seg), features, geometries)
  {
    var a := Candidates(features, geometries, n - 1, world, dist, seg);
    var b := FeatureCandidates(n - 1, features[n - 1], geometries[n - 1], world, dist, seg);
    assert Candidates(features, geometries, n, world, dist, seg) == a + b;
    FeatureCandidatesFromLayer(features, geometries, n - 1, world, dist, seg);
    AllFromLayerAppend(a, b, features, geometries);
  }

  lemma FeatureCandidatesFromLayer<F>(features: seq<F>, geometries: seq<Geometry>, i: nat,
                                      world: Point, dist: Distance, seg: SegmentDistance)
    requires i < |features| == |geometries|
    ensures AllFromLayer(FeatureCandidates(i, features[i], geometries[i], world, dist, seg), features, geometries)
  {
  }

  /** A candidate is adopted when it is within the tolerance and strictly nearer than the pick so far. */
  predicate Admits<F>(c: Candidate<F>, tolerance: XReal, current: XReal) {
    Le(Fin(c.distance), tolerance) && Lt(Fin(c.distance), current)
  }

  /** The pick after one candidate is measured. */
  function Offer<F>(st: PickState<F>, c: Candidate<F>, world: Point, tolerance: XReal): PickState<F> {
    if Admits(c, tolerance, st.distance) then
      PickState(Some(c.feature), world, c.onPoint, Fin(c.distance),
                if c.segment.Some? then c.segment.value else st.edgeSegmentIndex)
    else st
  }

  /** The pick after all candidates are measured, one after the other. */
  function Scan<F>(st: PickState<F>, cs: seq<Candidate<F>>, world: Point, tolerance: XReal): PickState<F> {
    if cs == [] then st else Offer(Scan(st, cs[..|cs| - 1], world, tolerance), cs[|cs| - 1], world, tolerance)
  }

  lemma ScanSnoc<F>(st: PickState<F>, cs: seq<Candidate<F>>, c: Candidate<F>, world: Point, tolerance: XReal)
    ensures Scan(st, cs + [c], world, tolerance) == Offer(Scan(st, cs, world, tolerance), c, world, tolerance)
  {
    assert (cs + [c])[..|cs|] == cs;
  }

  lemma ScanAppend<F>(st: PickState<F>, a: seq<Candidate<F>>, b: seq<Candidate<F>>, world: Point, tolerance: XReal)
    ensures Scan(st, a + b, world, tolerance) == Scan(Scan(st, a, world, tolerance), b, world, tolerance)
    decreases |b|
  {
    if b == [] {
      assert a + b == a;
    } else {
      assert (a + b)[..|a + b| - 1] == a + b[..|b| - 1];
      assert (a + b)[|a + b| - 1] == b[|b| - 1];
      ScanAppend(st, a, b[..|b| - 1], world, tolerance);
    }
  }

  /** The position of the candidate the pick was last taken from, or -1 when none was adopted. */
  function Winner<F>(st: PickState<F>, cs: seq<Candidate<F>>, world: Point, tolerance: XReal): (w: int)
    ensures -1 <= w < |cs|
  {
    if cs == [] then -1
    else if Admits(cs[|cs| - 1], tolerance, Scan(st, cs[..|cs| - 1], world, tolerance).distance) then |cs| - 1
    else Winner(st, cs[..|cs| - 1], world, tolerance)
  }

  /**
   * The selection rule of `findByPoint`: without an adopted candidate the pick is unchanged;
   * otherwise it holds the winning candidate, which is within the tolerance, nearer than the
   * pick was, no farther than any candidate within the tolerance, and strictly nearer than
   * every earlier one within the tolerance (the first of equally near candidates wins).
   */
  lemma {:induction false} ScanPicksFirstNearest<F>(st: PickState<F>, cs: seq<Candidate<F>>, world: Point, tolerance: XReal)
    requires !st.distance.NaN?
    ensures var r := Scan(st, cs, world, tolerance); var w := Winner(st, cs, world, tolerance);
      && !r.distance.NaN? && Le(r.distance, st.distance)
      && (forall k | 0 <= k < |cs| && Le(Fin(cs[k].distance), tolerance) :: Le(r.distance, Fin(cs[k].distance)))
      && (w == -1 ==> r == st)
      && (w >= 0 ==>
            && r.feature == Some(cs[w].feature) && r.worldPoint == world && r.onFeaturePoint == cs[w].onPoint
            && r.distance == Fin(cs[w].distance) && Le(Fin(cs[w].distance), tolerance) && Lt(Fin(cs[w].distance), st.distance)
            && (cs[w].segment.Some? ==> r.edgeSegmentIndex == cs[w].segment.value)
            && (forall k | 0 <= k < w && Le(Fin(cs[k].distance), tolerance) :: cs[w].distance < cs[k].distance))
  {
    if cs != [] {
      var init := cs[..|cs| - 1];
      var c := cs[|cs| - 1];
      ScanPicksFirstNearest(st, init, world, tolerance);
      var p := Scan(st, init, world, tolerance);
      assert forall k | 0 <= k < |init| :: init[k] == cs[k];
      LtIsStrictOrder(Fin(c.distance), p.distance, st.distance);
      if Admits(c, tolerance, p.distance) {
        forall k | 0 <= k < |init| && Le(Fin(cs[k].distance), tolerance)
          ensures c.distance < cs[k].distance
        {
          LtIsStrictOrder(Fin(c.distance), p.distance, Fin(cs[k].distance));
        }
      } else {
        LtIsStrictOrder(p.distance, Fin(c.distance), Fin(c.distance));
        var w := Winner(st, init, world, tolerance);
        if w >= 0 {
          assert init[w] == cs[w];
        }
      }
    }
  }

  /**
   * A pick that starts empty can only end up holding a point or line-string feature of the
   * layer and, for a line string, the index of one of its segments.
   */
  lemma ScanFromLayer<F>(st: PickState<F>, features: seq<F>, geometries: seq<Geometry>, world: Point, tolerance: XReal,
                         dist: Distance, seg: SegmentDistance)
    requires |features| == |geometries| && st.feature.None? && !st.distance.NaN?
    ensures var r := Scan(st, Candidates(features, geometries, |features|, world, dist, seg), world, tolerance);
      r.feature.Some? ==> exists k | 0 <= k < |features| ::
        && r.feature.value == features[k] && !geometries[k].PolygonGeometry?
        && (geometries[k].LineGeometry? ==> 0 <= r.edgeSegmentIndex < |geometries[k].vertices| - 1)
  {
    var cs := Candidates(features, geometries, |features|, world, dist, seg);
    ScanPicksFirstNearest(st, cs, world, tolerance);
    CandidatesFromLayer(features, geometries, |features|, world, dist, seg);
    var w := Winner(st, cs, world, tolerance);
    if w >= 0 {
      assert FromLayer(cs[w], features, geometries);
    }
  }

  /**
   * `findByPoint`: measures every point feature and every segment of every line-string
   * feature, keeping in `pick` the candidate the selection rule adopts; returns whether the
   * pick holds a feature, which may be one it held before the call.
   */
  method FindByPoint<F(==)>(features: seq<F>, geometries: seq<Geometry>, world: Point, tolerance: XReal,
                        pick: Pick<F>, dist: Distance, seg: SegmentDistance) returns (found: bool)
    requires |features| == |geometries|
    modifies pick
    ensures pick.State() == Scan(old(pick.State()), Candidates(features, geometries, |features|, world, dist, seg), world, tolerance)
    ensures found <==> pick.feature.Some?
  {
    ghost var st0 := pick.State();
    var f := 0;
    while f < |features|
      invariant 0 <= f <= |features|
      invariant pick.State() == Scan(st0, Candidates(features, geometries, f, world, dist, seg), world, tolerance)
    {
      ScanNextFeature(st0, features, geometries, f, world, tolerance, dist, seg);
      OfferFeature(f, features[f], geometries[f], world, tolerance, pick, dist, seg);
      f := f + 1;
    }
    found := pick.feature.Some?;
  }

  /** Scanning the first `f + 1` features is scanning the first `f`, then the candidates of feature `f`. */
  lemma ScanNextFeature<F>(st: PickState<F>, features: seq<F>, geometries: seq<Geometry>, f: nat, world: Point,
                           tolerance: XReal, dist: Distance, seg: SegmentDistance)
    requires f < |features| == |geometries|
    ensures Scan(st, Candidates(features, geometries, f + 1, world, dist, seg), world, tolerance)
         == Scan(Scan(st, Candidates(features, geometries, f, world, dist, seg), world, tolerance),
                 FeatureCandidates(f, features[f], geometries[f], world, dist, seg), world, tolerance)
  {
    ScanAppend(st, Candidates(features, geometries, f, world, dist, seg),
               FeatureCandidates(f, features[f], geometries[f], world, dist, seg), world, tolerance);
  }

  /** One feature of `findByPoint`: its position, each of its segments, or nothing for a polygon. */
  method OfferFeature<F(==)>(index: nat, feature: F, geometry: Geometry, world: Point, tolerance: XReal,
                             pick: Pick<F>, dist: Distance, seg: SegmentDistance)
    modifies pick
    ensures pick.State() == Scan(old(pick.State()), FeatureCandidates(index, feature, geometry, world, dist, seg), world, tolerance)
  {
    match geometry {
      case PointGeometry(position) =>
        OfferPoint(index, feature, position, world, tolerance, pick, dist);
      case LineGeometry(vertices) =>
        OfferLine(index, feature, vertices, world, tolerance, pick, seg);
      case PolygonGeometry(_) =>
    }
  }

  /** The point-feature branch of `findByPoint`. */
  method OfferPoint<F(==)>(index: nat, feature: F, position: Point, world: Point, tolerance: XReal,
                           pick: Pick<F>, dist: Distance)
    modifies pick
    ensures pick.State() == Scan(old(pick.State()), [Candidate(index, feature, dist(position, world), position, None)], world, tolerance)
  {
    var distance := dist(position, world);
    var c := Candidate(index, feature, distance, position, None);
    ScanSnoc(old(pick.State()), [], c, world, tolerance);
    Consider(c, world, tolerance, pick);
  }

  /**
   * The adoption rule of both branches: a candidate within the tolerance and strictly nearer
   * than the pick so far becomes the pick; a segment candidate also sets the segment index.
   */
  method Consider<F>(c: Candidate<F>, world: Point, tolerance: XReal, pick: Pick<F>)
    modifies pick
    ensures pick.State() == Offer(old(pick.State()), c, world, tolerance)
  {
    if Admits(c, tolerance, pick.distance) {
      pick.worldPoint := world;
      pick.feature := Some(c.feature);
      pick.onFeaturePoint := c.onPoint;
      pick.distance := Fin(c.distance);
      if c.segment.Some? {
        pick.edgeSegmentIndex := c.segment.value;
      }
    }
  }

  /** The line-string branch of `findByPoint`: one candidate per segment, in order. */
  method OfferLine<F(==)>(index: nat, feature: F, vertices: seq<Point>, world: Point, tolerance: XReal,
                          pick: Pick<F>, seg: SegmentDistance)
    modifies pick
    ensures pick.State()
         == Scan(old(pick.State()), SegmentCandidates(index, feature, vertices, world, seg, if |vertices| <= 1 then 0 else |vertices| - 1), world, tolerance)
  {
    ghost var st0 := pick.State();
    ghost var done: seq<Candidate<F>> := [];
    var i := 0;
    while i < |vertices| - 1
      invariant 0 <= i && (i < |vertices| || i == 0)
      invariant done == SegmentCandidates(index, feature, vertices, world, seg, i)
      invariant pick.State() == Scan(st0, done, world, tolerance)
    {
      done := OfferSegment(index, feature, vertices, i, world, tolerance, pick, seg, st0, done);
      i := i + 1;
    }
    assert i == if |vertices| <= 1 then 0 else |vertices| - 1;
  }

  /** Segment `i` of a line string, measured after segments `0 .. i - 1`. */
  method OfferSegment<F(==)>(index: nat, feature: F, vertices: seq<Point>, i: nat, world: Point, tolerance: XReal,
                             pick: Pick<F>, seg: SegmentDistance, ghost st0: PickState<F>, ghost done: seq<Candidate<F>>)
    returns (ghost done': seq<Candidate<F>>)
    requires i + 1 < |vertices| && done == SegmentCandidates(index, feature, vertices, world, seg, i)
    requires pick.State() == Scan(st0, done, world, tolerance)
    modifies pick
    ensures done' == SegmentCandidates(index, feature, vertices, world, seg, i + 1)
    ensures pick.State() == Scan(st0, done', world, tolerance)
  {
    var hit := seg(world, vertices[i], vertices[i + 1]);
    var c := Candidate(index, feature, hit.0, hit.1, Some(i));
    ScanSnoc(st0, done, c, world, tolerance);
    Consider(c, world, tolerance, pick);
    done' := done + [c];
  }

  /** The features whose bounding box lies inside `box`. */
  function Inside<F(==)>(features: seq<F>, geometries: seq<Geometry>, box: Bounds, boundsOf: Geometry -> Bounds, n: nat): set<F>
    requires n <= |features| == |geometries|
  {
    set k | 0 <= k < n && HasBox(box, boundsOf(geometries[k])) :: features[k]
  }

  /**
   * `findByBox`: adds to the selection every feature whose bounding box `box` contains,
   * removes nothing, and returns whether at least one feature qualified.
   */
  method FindByBox<F(==)>(features: seq<F>, geometries: seq<Geometry>, box: Box, boundsOf: Geometry -> Bounds,
                      selection: Selection<F>) returns (found: bool)
    requires |features| == |geometries|
    modifies selection
    ensures selection.elements == old(selection.elements) + Inside(features, geometries, box.Value(), boundsOf, |features|)
    ensures found <==> Inside(features, geometries, box.Value(), boundsOf, |features|) != {}
  {
    found := false;
    var k := 0;
    while k < |features|
      invariant 0 <= k <= |features|
      invariant selection.elements == old(selection.elements) + Inside(features, geometries, box.Value(), boundsOf, k)
      invariant found <==> Inside(features, geometries, box.Value(), boundsOf, k) != {}
    {
      ghost var before := Inside(features, geometries, box.Value(), boundsOf, k);
      if HasBox(box.Value(), boundsOf(geometries[k])) {
        assert Inside(features, geometries, box.Value(), boundsOf, k + 1) == before + {features[k]};
        var _ := selection.Add(features[k]);
        found := true;
      } else {
        assert Inside(features, geometries, box.Value(), boundsOf, k + 1) == before;
      }
      k := k + 1;
    }
  }
}
