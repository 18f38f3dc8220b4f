/**
 * Points and geometries of the map. Coordinates are exact reals; the floating-point
 * geometry of the source (Euclidean distances, polyline lengths) is abstracted into
 * oracles that are only known to be non-negative.
 */
module Geom {

  /** A `Point3d` position, compared by exact equality of its coordinates. */
  datatype Point = Point(x: real, y: real, z: real)

  /** A feature's geometry: its shape decides how `Finder` hit-tests it. */
  datatype Geometry =
    | PointGeometry(position: Point)
    | LineGeometry(vertices: seq<Point>)
    | PolygonGeometry(ring: seq<Point>)

  /** The length of a polyline (`LineString.getLength`), known only to be non-negative. */
  type LengthOf = f: seq<Point> -> real | forall s :: f(s) >= 0.0
    witness (s: seq<Point>) => 0.0

  /** A distance oracle on positions (`Point3d.distance`), known only to be non-negative. */
  type Distance = d: (Point, Point) -> real | forall p, q :: d(p, q) >= 0.0
    witness (p: Point, q: Point) => 0.0

  /**
   * `Finder.pointToSegmentDistance(pt, p1, p2, onObject)`: the distance from `pt` to the
   * segment `p1`-`p2` and the point of the segment it was measured to, known only to be a
   * non-negative distance.
   */
  type SegmentDistance = f: (Point, Point, Point) -> (real, Point) | forall pt, p1, p2 :: f(pt, p1, p2).0 >= 0.0
    witness AtSegmentStart

  /** A segment distance that measures every point to be at the segment's start, at no distance. */
  function AtSegmentStart(pt: Point, p1: Point, p2: Point): (real, Point) {
    (0.0, p1)
  }
}
