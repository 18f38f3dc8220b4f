/**
 * `Box`: an axis-aligned bounding box, six `double` bounds. A reset box has every minimum at
 * +infinity and every maximum at -infinity, so it is undefined and `extend` of any point
 * fixes the point as the box.
 */
module Boxes {
  import opened XReals
  import opened Geom

  /** The six bounds of a box, as a value. */
  datatype Bounds = Bounds(xmin: XReal, ymin: XReal, zmin: XReal, xmax: XReal, ymax: XReal, zmax: XReal)

  /** The bounds `reset` gives. */
  const Empty := Bounds(PosInf, PosInf, PosInf, NegInf, NegInf, NegInf)

  /** `isUndefined`: some minimum lies above its maximum. */
  predicate Undefined(b: Bounds) {
    Lt(b.xmax, b.xmin) || Lt(b.ymax, b.ymin) || Lt(b.zmax, b.zmin)
  }

  /** No bound is NaN, which is what every box built from points keeps. */
  predicate Ordered(b: Bounds) {
    !b.xmin.NaN? && !b.ymin.NaN? && !b.zmin.NaN? && !b.xmax.NaN? && !b.ymax.NaN? && !b.zmax.NaN?
  }

  /** `contains(point)`: no bound excludes the point. */
  predicate HasPoint(b: Bounds, p: Point) {
    && !Lt(Fin(p.x), b.xmin) && !Lt(b.xmax, Fin(p.x))
    && !Lt(Fin(p.y), b.ymin) && !Lt(b.ymax, Fin(p.y))
    && !Lt(Fin(p.z), b.zmin) && !Lt(b.zmax, Fin(p.z))
  }

  /** `contains(box)`: the other box's bounds lie within these on every axis. */
  predicate HasBox(b: Bounds, c: Bounds) {
    && Le(b.xmin, c.xmin) && Le(c.xmax, b.xmax)
    && Le(b.ymin, c.ymin) && Le(c.ymax, b.ymax)
    && Le(b.zmin, c.zmin) && Le(c.zmax, b.zmax)
  }

  /** `overlaps(box)`: neither box lies wholly beyond the other on any axis. */
  predicate Meets(b: Bounds, c: Bounds) {
    && !Lt(c.xmax, b.xmin) && !Lt(b.xmax, c.xmin)
    && !Lt(c.ymax, b.ymin) && !Lt(b.ymax, c.ymin)
    && !Lt(c.zmax, b.zmin) && !Lt(b.zmax, c.zmin)
  }

  /** The lower bound after `extend`: replaced when the new value lies below it. */
  function Lower(bound: XReal, v: XReal): XReal {
    if Lt(v, bound) then v else bound
  }

  /** The upper bound after `extend`: replaced when the new value lies above it. */
  function Upper(bound: XReal, v: XReal): XReal {
    if Lt(bound, v) then v else bound
  }

  /** `extend(point)`. */
  function WithPoint(b: Bounds, p: Point): (r: Bounds)
    ensures Ordered(b) ==> Ordered(r) && HasPoint(r, p) && !Undefined(r)
    ensures forall q :: Ordered(b) && HasPoint(b, q) ==> HasPoint(r, q)
  {
    Bounds(Lower(b.xmin, Fin(p.x)), Lower(b.ymin, Fin(p.y)), Lower(b.zmin, Fin(p.z)),
           Upper(b.xmax, Fin(p.x)), Upper(b.ymax, Fin(p.y)), Upper(b.zmax, Fin(p.z)))
  }

  /** `extend(box)`. */
  function WithBox(b: Bounds, c: Bounds): (r: Bounds)
    ensures Ordered(b) && Ordered(c) ==> Ordered(r) && HasBox(r, c) && HasBox(r, b)
  {
    Bounds(Lower(b.xmin, c.xmin), Lower(b.ymin, c.ymin), Lower(b.zmin, c.zmin),
           Upper(b.xmax, c.xmax), Upper(b.ymax, c.ymax), Upper(b.zmax, c.zmax))
  }

  /** `move(vector)`: every bound shifted by its axis' component. */
  function Moved(b: Bounds, v: Point): Bounds {
    Bounds(Add(b.xmin, Fin(v.x)), Add(b.ymin, Fin(v.y)), Add(b.zmin, Fin(v.z)),
           Add(b.xmax, Fin(v.x)), Add(b.ymax, Fin(v.y)), Add(b.zmax, Fin(v.z)))
  }

  /** `scale(factor)`: every bound multiplied by the factor. */
  function Scaled(b: Bounds, k: real): Bounds {
    Bounds(Scale(b.xmin, k), Scale(b.ymin, k), Scale(b.zmin, k), Scale(b.xmax, k), Scale(b.ymax, k), Scale(b.zmax, k))
  }

  /** `getWidth`. */
  function Width(b: Bounds): XReal {
    Sub(b.xmax, b.xmin)
  }

  /** `getHeight`. */
  function Height(b: Bounds): XReal {
    Sub(b.ymax, b.ymin)
  }

  /** A reset box is undefined and contains no point. */
  lemma EmptyIsUndefined(p: Point)
    ensures Undefined(Empty) && Ordered(Empty) && !HasPoint(Empty, p)
  {
  }

  /** For a box that is not undefined, containing another box means overlapping it. */
  lemma ContainsOverlaps(b: Bounds, c: Bounds)
    requires !Undefined(c) && HasBox(b, c)
    ensures Meets(b, c)
  {
  }

  /** `overlaps` does not depend on the order of the two boxes. */
  lemma OverlapsSymmetric(b: Bounds, c: Bounds)
    ensures Meets(b, c) == Meets(c, b)
  {
  }

  /** A box containing a box contains every point of it. */
  lemma ContainsPoints(b: Bounds, c: Bounds, p: Point)
    requires HasBox(b, c) && HasPoint(c, p)
    ensures HasPoint(b, p)
  {
    LtIsStrictOrder(b.xmin, c.xmin, Fin(p.x));
    LtIsStrictOrder(c.xmax, b.xmax, Fin(p.x));
  }

  /** Shifting one bound by `d` and back by `-d` gives it back, and keeps its distance to another shifted bound. */
  lemma ShiftBack(a: XReal, c: XReal, d: real)
    ensures Add(Add(a, Fin(d)), Fin(-d)) == a
    ensures Sub(Add(a, Fin(d)), Add(c, Fin(d))) == Sub(a, c)
  {
  }

  /** `move(v)` then `move(-v)` gives the bounds back; `move` keeps the width and the height. */
  lemma MoveBack(b: Bounds, v: Point)
    ensures Moved(Moved(b, v), Point(-v.x, -v.y, -v.z)) == b
    ensures Width(Moved(b, v)) == Width(b) && Height(Moved(b, v)) == Height(b)
  {
    ShiftBack(b.xmin, b.xmin, v.x);
    ShiftBack(b.ymin, b.ymin, v.y);
    ShiftBack(b.zmin, b.zmin, v.z);
    ShiftBack(b.xmax, b.xmin, v.x);
    ShiftBack(b.ymax, b.ymin, v.y);
    ShiftBack(b.zmax, b.zmin, v.z);
  }

  /** Scaling a box of finite bounds by a positive factor scales its width by that factor. */
  lemma ScaledWidth(b: Bounds, k: real)
    requires b.xmin.Fin? && b.xmax.Fin? && k > 0.0
    ensures Width(Scaled(b, k)) == Fin((b.xmax.r - b.xmin.r) * k)
  {
  }

  /** `Box`: the six bound fields. */
  class Box {
    var xmin: XReal
    var ymin: XReal
    var zmin: XReal
    var xmax: XReal
    var ymax: XReal
    var zmax: XReal

    function Value(): Bounds
      reads this
    {
      Bounds(xmin, ymin, zmin, xmax, ymax, zmax)
    }

    /** `new Box()`: a reset box. */
    constructor ()
      ensures Value() == Empty && IsUndefined()
    {
      xmin, ymin, zmin := PosInf, PosInf, PosInf;
      xmax, ymax, zmax := NegInf, NegInf, NegInf;
    }

    /** `new Box(xmin, ..., zmax)`. */
    constructor Of(b: Bounds)
      ensures Value() == b
    {
      xmin, ymin, zmin, xmax, ymax, zmax := b.xmin, b.ymin, b.zmin, b.xmax, b.ymax, b.zmax;
    }

    predicate IsUndefined()
      reads this
    {
      Undefined(Value())
    }

    /** `contains(point)`. */
    predicate ContainsPoint(p: Point)
      reads this
    {
      HasPoint(Value(), p)
    }

    /** `contains(box)`. */
    predicate Contains(box: Box)
      reads this, box
    {
      HasBox(Value(), box.Value())
    }

    /** `overlaps(box)`. */
    predicate Overlaps(box: Box)
      reads this, box
    {
      Meets(Value(), box.Value())
    }

    method Reset()
      modifies this
      ensures Value() == Empty && IsUndefined()
    {
      xmin, ymin, zmin := PosInf, PosInf, PosInf;
      xmax, ymax, zmax := NegInf, NegInf, NegInf;
    }

    /** `extend(point)`: each bound is widened to the point's coordinate when it lies outside. */
    method ExtendPoint(p: Point)
      modifies this
      ensures Value() == WithPoint(old(Value()), p)
    {
      if Lt(xmax, Fin(p.x)) { xmax := Fin(p.x); }
      if Lt(Fin(p.x), xmin) { xmin := Fin(p.x); }
      if Lt(ymax, Fin(p.y)) { ymax := Fin(p.y); }
      if Lt(Fin(p.y), ymin) { ymin := Fin(p.y); }
      if Lt(zmax, Fin(p.z)) { zmax := Fin(p.z); }
      if Lt(Fin(p.z), zmin) { zmin := Fin(p.z); }
    }

    /** `extend(box)`: each bound is widened to the other box's bound when that lies outside. */
    method Extend(box: Box)
      modifies this
      ensures Value() == WithBox(old(Value()), old(box.Value()))
    {
      var b := box.Value();
      if Lt(b.xmin, xmin) { xmin := b.xmin; }
      if Lt(xmax, b.xmax) { xmax := b.xmax; }
      if Lt(b.ymin, ymin) { ymin := b.ymin; }
      if Lt(ymax, b.ymax) { ymax := b.ymax; }
      if Lt(b.zmin, zmin) { zmin := b.zmin; }
      if Lt(zmax, b.zmax) { zmax := b.zmax; }
    }

    method Move(v: Point)
      modifies this
      ensures Value() == Moved(old(Value()), v)
    {
      xmin := Add(xmin, Fin(v.x));
      xmax := Add(xmax, Fin(v.x));
      ymin := Add(ymin, Fin(v.y));
      ymax := Add(ymax, Fin(v.y));
      zmin := Add(zmin, Fin(v.z));
      zmax := Add(zmax, Fin(v.z));
    }

    method Scale(k: real)
      modifies this
      ensures Value() == Scaled(old(Value()), k)
    {
      xmin := XReals.Scale(xmin, k);
      xmax := XReals.Scale(xmax, k);
      ymin := XReals.Scale(ymin, k);
      ymax := XReals.Scale(ymax, k);
      zmin := XReals.Scale(zmin, k);
      zmax := XReals.Scale(zmax, k);
    }

    /** `set(box)`: all six bounds copied. */
    method Set(box: Box)
      modifies this
      ensures Value() == old(box.Value())
    {
      xmin, ymin, zmin := box.xmin, box.ymin, box.zmin;
      xmax, ymax, zmax := box.xmax, box.ymax, box.zmax;
    }

    function GetWidth(): XReal
      reads this
    {
      Width(Value())
    }

    function GetHeight(): XReal
      reads this
    {
      Height(Value())
    }
  }
}
