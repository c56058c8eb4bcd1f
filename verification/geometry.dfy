/** Points, axis-aligned boxes and squared distances over exact reals. */
module Geometry {

  datatype Point2 = Point2(x: real, y: real)
  datatype Point3 = Point3(x: real, y: real, z: real)

  /** Axis-aligned box: `lo` holds the per-axis minima, `hi` the per-axis maxima. */
  datatype Box2 = Box2(lo: Point2, hi: Point2)
  datatype Box3 = Box3(lo: Point3, hi: Point3)

  function Sq(a: real): real { a * a }

  function Min(a: real, b: real): real { if a <= b then a else b }
  function Max(a: real, b: real): real { if a <= b then b else a }

  /** Squared Euclidean distance; the model compares squared lengths instead of taking roots. */
  function DistSq(p: Point2, q: Point2): real { Sq(p.x - q.x) + Sq(p.y - q.y) }

  // ---------------------------------------------------------------- real-arithmetic helpers

  lemma MulNonNegative(x: real, y: real)
    requires 0.0 <= x && 0.0 <= y
    ensures 0.0 <= x * y
  {
  }

  /** A product of two positive reals is positive. */
  lemma MulPositive(x: real, y: real)
    requires 0.0 < x && 0.0 < y
    ensures 0.0 < x * y
  {
  }

  /** Multiplying both sides by a positive factor keeps `<=`. */
  lemma MulLe(a: real, b: real, c: real)
    requires a <= b && 0.0 < c
    ensures a * c <= b * c
  {
    MulNonNegative(b - a, c);
    calc {
      b * c - a * c;
      == (b - a) * c;
      >= 0.0;
    }
  }

  /** Multiplying both sides by a positive factor keeps `<`. */
  lemma MulLt(a: real, b: real, c: real)
    requires a < b && 0.0 < c
    ensures a * c < b * c
  {
    MulPositive(b - a, c);
    calc {
      b * c - a * c;
      == (b - a) * c;
      > 0.0;
    }
  }

  /** The quotient times the divisor gives back the dividend. */
  lemma DivMul(x: real, y: real)
    requires y != 0.0
    ensures (x / y) * y == x
  {
  }

  /** Squaring distributes over a product. */
  lemma SqScale(s: real, a: real)
    ensures Sq(s * a) == Sq(s) * Sq(a)
  {
  }

  /** A value within [-a, a] has a square no larger than `a * a`. */
  lemma SqMonotone(t: real, a: real)
    requires -a <= t <= a
    ensures Sq(t) <= Sq(a)
  {
    MulNonNegative(a - t, a + t);
    calc {
      Sq(a) - Sq(t);
      == a * a - t * t;
      == (a - t) * (a + t);
      >= 0.0;
    }
  }

  /** Multiplying both sides by a non-negative factor keeps `<=`. */
  lemma ScaleLe(s2: real, q: real, bound: real)
    requires 0.0 <= s2 && q <= bound
    ensures s2 * q <= s2 * bound
  {
    assert s2 * (bound - q) >= 0.0;
  }

  // ---------------------------------------------------------------- boxes

  predicate InBox(p: Point2, b: Box2) {
    b.lo.x <= p.x <= b.hi.x && b.lo.y <= p.y <= b.hi.y
  }

  /** The XY shadow of a 3D box. */
  function Footprint(b: Box3): Box2 {
    Box2(Point2(b.lo.x, b.lo.y), Point2(b.hi.x, b.hi.y))
  }

  /** The box grown outward by `p` on every side. */
  function Expand(b: Box2, p: real): (e: Box2)
    ensures e.hi.x - e.lo.x == b.hi.x - b.lo.x + 2.0 * p
    ensures e.hi.y - e.lo.y == b.hi.y - b.lo.y + 2.0 * p
    ensures Center2(e) == Center2(b)
  {
    Box2(Point2(b.lo.x - p, b.lo.y - p), Point2(b.hi.x + p, b.hi.y + p))
  }

  /** Midpoint of a box. */
  function Center2(b: Box2): Point2 {
    Point2((b.lo.x + b.hi.x) / 2.0, (b.lo.y + b.hi.y) / 2.0)
  }

  /**
   * The four corners of a box, counter-clockwise from the minimum corner:
   * (lo.x, lo.y), (hi.x, lo.y), (hi.x, hi.y), (lo.x, hi.y).
   */
  function CornersCCW(b: Box2): (cs: seq<Point2>)
    ensures |cs| == 4
  {
    [b.lo, Point2(b.hi.x, b.lo.y), b.hi, Point2(b.lo.x, b.hi.y)]
  }

  /** Per-axis minima and maxima of a non-empty point cloud (numpy's `min(0)` and `max(0)`). */
  function BoundsOf(ps: seq<Point2>): (b: Box2)
    requires |ps| > 0
    ensures forall k :: 0 <= k < |ps| ==> InBox(ps[k], b)
    decreases |ps|
  {
    if |ps| == 1 then Box2(ps[0], ps[0])
    else
      var b := BoundsOf(ps[..|ps| - 1]);
      var p := ps[|ps| - 1];
      Box2(Point2(Min(b.lo.x, p.x), Min(b.lo.y, p.y)), Point2(Max(b.hi.x, p.x), Max(b.hi.y, p.y)))
  }

  /** Every bound of `BoundsOf` is the coordinate of some point: the box is the tightest one. */
  lemma {:induction false} BoundsAttained(ps: seq<Point2>)
    requires |ps| > 0
    ensures exists k :: 0 <= k < |ps| && ps[k].x == BoundsOf(ps).lo.x
    ensures exists k :: 0 <= k < |ps| && ps[k].y == BoundsOf(ps).lo.y
    ensures exists k :: 0 <= k < |ps| && ps[k].x == BoundsOf(ps).hi.x
    ensures exists k :: 0 <= k < |ps| && ps[k].y == BoundsOf(ps).hi.y
    decreases |ps|
  {
    if |ps| > 1 {
      var init := ps[..|ps| - 1];
      var last := |ps| - 1;
      BoundsAttained(init);
      var b := BoundsOf(init);
      var k0 :| 0 <= k0 < |init| && init[k0].x == b.lo.x;
      var k1 :| 0 <= k1 < |init| && init[k1].y == b.lo.y;
      var k2 :| 0 <= k2 < |init| && init[k2].x == b.hi.x;
      var k3 :| 0 <= k3 < |init| && init[k3].y == b.hi.y;
      assert ps[k0] == init[k0] && ps[k1] == init[k1] && ps[k2] == init[k2] && ps[k3] == init[k3];
      if ps[last].x < b.lo.x { assert ps[last].x == BoundsOf(ps).lo.x; } else { assert ps[k0].x == BoundsOf(ps).lo.x; }
      if ps[last].y < b.lo.y { assert ps[last].y == BoundsOf(ps).lo.y; } else { assert ps[k1].y == BoundsOf(ps).lo.y; }
      if ps[last].x > b.hi.x { assert ps[last].x == BoundsOf(ps).hi.x; } else { assert ps[k2].x == BoundsOf(ps).hi.x; }
      if ps[last].y > b.hi.y { assert ps[last].y == BoundsOf(ps).hi.y; } else { assert ps[k3].y == BoundsOf(ps).hi.y; }
    } else {
      assert ps[0].x == BoundsOf(ps).lo.x;
    }
  }
}
