/**
 * Canvas normalisation: a uniform affine map taking a slice's 2D vertices into a
 * square canvas of side C with margin M. The bounding box's centre goes to
 * (C // 2, C // 2) and the half-diagonal of the box is scaled to the radius of
 * the dashed guide circle, (C - 2M) / 2.
 *
 * The Euclidean norm needs a square root, which exact reals do not provide as a
 * function; it is a parameter `sqrt`, and the lemmas assume it is a true square root.
 */
module Canvas {
  import opened Geometry

  /** Placement of a slice: translate `center` to (mid, mid), then scale by `scale` on both axes. */
  datatype Frame = Frame(center: Point2, scale: real, mid: real)

  /**
   * Canvas centre coordinate: `canvas_size // 2`. Python's `//` floors; for the
   * divisor 2 it agrees with Dafny's Euclidean `/`, which the ensures pins down.
   */
  function CanvasMid(canvasSize: int): (r: real)
    ensures r == r.Floor as real
    ensures 2.0 * r <= canvasSize as real < 2.0 * r + 2.0
  {
    (canvasSize / 2) as real
  }

  /** Radius of the guide circle: `(canvas_size - 2 * margin) / 2` with true division. */
  function BaseRadius(canvasSize: int, margin: int): real {
    (canvasSize - 2 * margin) as real / 2.0
  }

  /** `sqrt` returns the non-negative square root of every non-negative real. */
  ghost predicate IsSqrt(sqrt: real -> real) {
    forall x: real :: 0.0 <= x ==> 0.0 <= sqrt(x) && sqrt(x) * sqrt(x) == x
  }

  /** Half the length of the box's diagonal (`norm(max - min) / 2`). */
  function HalfDiagonal(b: Box2, sqrt: real -> real): real {
    sqrt(Sq(b.hi.x - b.lo.x) + Sq(b.hi.y - b.lo.y)) / 2.0
  }

  /** `base_radius / span`, or 1 when `span` is zero (no division happens then). */
  function ScaleFor(baseRadius: real, span: real): (s: real)
    ensures span != 0.0 ==> s * span == baseRadius
    ensures span == 0.0 ==> s == 1.0
  {
    if span != 0.0 then baseRadius / span else 1.0
  }

  function Apply(t: Frame, v: Point2): Point2 {
    Point2((v.x - t.center.x) * t.scale + t.mid, (v.y - t.center.y) * t.scale + t.mid)
  }

  /**
   * The frame applied pointwise. The ensures only expose the comprehension to the
   * prover; ApplyAllScalesDistances states what the transform does to the slice.
   */
  function ApplyAll(t: Frame, vs: seq<Point2>): (r: seq<Point2>)
    ensures |r| == |vs|
    ensures forall k :: 0 <= k < |vs| ==> r[k] == Apply(t, vs[k])
  {
    seq(|vs|, k requires 0 <= k < |vs| => Apply(t, vs[k]))
  }

  /** The frame a slice with vertices `verts` is drawn in; the box centre lands on the canvas centre. */
  function FrameFor(verts: seq<Point2>, canvasSize: int, margin: int, sqrt: real -> real): (t: Frame)
    requires |verts| > 0
    ensures Apply(t, Center2(BoundsOf(verts))) == Point2(CanvasMid(canvasSize), CanvasMid(canvasSize))
  {
    var box := BoundsOf(verts);
    Frame(Center2(box), ScaleFor(BaseRadius(canvasSize, margin), HalfDiagonal(box, sqrt)), CanvasMid(canvasSize))
  }

  /** The canvas centre as a point. */
  function MidPoint(canvasSize: int): Point2 {
    Point2(CanvasMid(canvasSize), CanvasMid(canvasSize))
  }

  // ---------------------------------------------------------------- properties

  /**
   * The map is uniform: both axes are stretched by the same factor, so it is a
   * similarity and squared distances scale by `scale * scale`.
   */
  lemma ApplyIsSimilarity(t: Frame, a: Point2, b: Point2)
    ensures Apply(t, a).x - Apply(t, b).x == t.scale * (a.x - b.x)
    ensures Apply(t, a).y - Apply(t, b).y == t.scale * (a.y - b.y)
    ensures DistSq(Apply(t, a), Apply(t, b)) == Sq(t.scale) * DistSq(a, b)
  {
    var ax, ay := Apply(t, a).x - Apply(t, b).x, Apply(t, a).y - Apply(t, b).y;
    assert ax == t.scale * (a.x - b.x);
    assert ay == t.scale * (a.y - b.y);
    SqScale(t.scale, a.x - b.x);
    SqScale(t.scale, a.y - b.y);
  }

  /** Transforming a whole vertex list scales the squared distance of every pair of vertices by `scale^2`. */
  lemma ApplyAllScalesDistances(t: Frame, vs: seq<Point2>)
    ensures forall a, b :: 0 <= a < |vs| && 0 <= b < |vs| ==>
      DistSq(ApplyAll(t, vs)[a], ApplyAll(t, vs)[b]) == Sq(t.scale) * DistSq(vs[a], vs[b])
  {
    forall a, b | 0 <= a < |vs| && 0 <= b < |vs|
      ensures DistSq(ApplyAll(t, vs)[a], ApplyAll(t, vs)[b]) == Sq(t.scale) * DistSq(vs[a], vs[b])
    {
      ApplyIsSimilarity(t, vs[a], vs[b]);
    }
  }

  /** With a true square root, `span` is non-negative and its square is a quarter of the squared diagonal. */
  lemma HalfDiagonalSquared(b: Box2, sqrt: real -> real)
    requires IsSqrt(sqrt)
    ensures 0.0 <= HalfDiagonal(b, sqrt)
    ensures Sq(HalfDiagonal(b, sqrt)) == (Sq(b.hi.x - b.lo.x) + Sq(b.hi.y - b.lo.y)) / 4.0
  {
    var d := Sq(b.hi.x - b.lo.x) + Sq(b.hi.y - b.lo.y);
    assert 0.0 <= d;
    var r := sqrt(d);
    assert 0.0 <= r && r * r == d;
  }

  /** A point of the box is within half the diagonal of its centre. */
  lemma InBoxNearCenter(b: Box2, v: Point2)
    requires InBox(v, b)
    ensures DistSq(v, Center2(b)) <= (Sq(b.hi.x - b.lo.x) + Sq(b.hi.y - b.lo.y)) / 4.0
  {
    var c := Center2(b);
    var hx, hy := (b.hi.x - b.lo.x) / 2.0, (b.hi.y - b.lo.y) / 2.0;
    SqMonotone(v.x - c.x, hx);
    SqMonotone(v.y - c.y, hy);
    assert Sq(hx) == Sq(b.hi.x - b.lo.x) / 4.0;
    assert Sq(hy) == Sq(b.hi.y - b.lo.y) / 4.0;
  }

  /** Scaling a squared distance at most `span^2` by `scale^2` stays within `base_radius^2`. */
  lemma ScaledWithin(s: real, span: real, br: real, d: real)
    requires 0.0 <= d <= Sq(span)
    requires span != 0.0 ==> s * span == br
    ensures Sq(s) * d <= Sq(br)
  {
    if span != 0.0 {
      ScaleLe(Sq(s), d, Sq(span));
      SqScale(s, span);
    } else {
      assert d == 0.0;
    }
  }

  lemma SqZero(a: real)
    ensures 0.0 <= Sq(a)
    ensures Sq(a) == 0.0 <==> a == 0.0
  {
    if a > 0.0 {
      calc { Sq(a); == a * a; > 0.0; }
    } else if a < 0.0 {
      calc { Sq(a); == (-a) * (-a); > 0.0; }
    }
  }

  /** The box degenerates to a point exactly when its half-diagonal is zero. */
  lemma ZeroSpanIsPointBox(b: Box2, sqrt: real -> real)
    requires IsSqrt(sqrt)
    ensures HalfDiagonal(b, sqrt) == 0.0 <==> b.lo == b.hi
  {
    var span := HalfDiagonal(b, sqrt);
    var dx, dy := b.hi.x - b.lo.x, b.hi.y - b.lo.y;
    HalfDiagonalSquared(b, sqrt);
    SqZero(dx);
    SqZero(dy);
    SqZero(span);
  }

  /** The bounding box of a point cloud is a single point exactly when all points coincide. */
  lemma PointBoxIffAllEqual(verts: seq<Point2>)
    requires |verts| > 0
    ensures BoundsOf(verts).lo == BoundsOf(verts).hi <==> (forall k :: 0 <= k < |verts| ==> verts[k] == verts[0])
  {
    var box := BoundsOf(verts);
    BoundsAttained(verts);
    if box.lo == box.hi {
      forall k | 0 <= k < |verts|
        ensures verts[k] == box.lo
      {
        assert InBox(verts[k], box);
      }
    } else if box.lo.x != box.hi.x {
      var i :| 0 <= i < |verts| && verts[i].x == box.lo.x;
      var j :| 0 <= j < |verts| && verts[j].x == box.hi.x;
      assert verts[i] != verts[0] || verts[j] != verts[0];
    } else {
      var i :| 0 <= i < |verts| && verts[i].y == box.lo.y;
      var j :| 0 <= j < |verts| && verts[j].y == box.hi.y;
      assert verts[i] != verts[0] || verts[j] != verts[0];
    }
  }

  /**
   * `span` is zero exactly when every vertex coincides; then the scale is 1 and
   * every vertex is drawn at the canvas centre.
   */
  lemma ZeroSpanCollapses(verts: seq<Point2>, canvasSize: int, margin: int, sqrt: real -> real)
    requires |verts| > 0 && IsSqrt(sqrt)
    ensures HalfDiagonal(BoundsOf(verts), sqrt) == 0.0 <==> (forall k :: 0 <= k < |verts| ==> verts[k] == verts[0])
    ensures HalfDiagonal(BoundsOf(verts), sqrt) == 0.0 ==>
      && FrameFor(verts, canvasSize, margin, sqrt).scale == 1.0
      && forall k :: 0 <= k < |verts| ==>
           Apply(FrameFor(verts, canvasSize, margin, sqrt), verts[k]) == MidPoint(canvasSize)
  {
    var box := BoundsOf(verts);
    ZeroSpanIsPointBox(box, sqrt);
    PointBoxIffAllEqual(verts);
    if HalfDiagonal(box, sqrt) == 0.0 {
      var t := FrameFor(verts, canvasSize, margin, sqrt);
      forall k | 0 <= k < |verts|
        ensures Apply(t, verts[k]) == MidPoint(canvasSize)
      {
        assert InBox(verts[k], box);
        assert verts[k] == Center2(box);
      }
    }
  }

  /** A point of the box, mapped by a frame centred on the box, lies within `br` of the centre's image. */
  lemma FrameVertexFits(t: Frame, box: Box2, v: Point2, span: real, br: real)
    requires t.center == Center2(box) && InBox(v, box)
    requires 0.0 <= span && Sq(span) == (Sq(box.hi.x - box.lo.x) + Sq(box.hi.y - box.lo.y)) / 4.0
    requires span != 0.0 ==> t.scale * span == br
    ensures DistSq(Apply(t, v), Point2(t.mid, t.mid)) <= Sq(br)
  {
    assert Apply(t, t.center) == Point2(t.mid, t.mid);
    ApplyIsSimilarity(t, v, t.center);
    InBoxNearCenter(box, v);
    SqZero(v.x - t.center.x);
    SqZero(v.y - t.center.y);
    ScaledWithin(t.scale, span, br, DistSq(v, t.center));
  }

  /** One vertex, mapped by the slice's frame, lies inside the guide circle. */
  lemma VertexFits(verts: seq<Point2>, canvasSize: int, margin: int, sqrt: real -> real, k: int)
    requires |verts| > 0 && IsSqrt(sqrt) && 0 <= k < |verts|
    ensures DistSq(Apply(FrameFor(verts, canvasSize, margin, sqrt), verts[k]), MidPoint(canvasSize))
      <= Sq(BaseRadius(canvasSize, margin))
  {
    var box := BoundsOf(verts);
    var t := FrameFor(verts, canvasSize, margin, sqrt);
    var span := HalfDiagonal(box, sqrt);
    var br := BaseRadius(canvasSize, margin);
    assert Sq(span) == (Sq(box.hi.x - box.lo.x) + Sq(box.hi.y - box.lo.y)) / 4.0 && 0.0 <= span by {
      HalfDiagonalSquared(box, sqrt);
    }
    assert t.center == Center2(box) && t.mid == CanvasMid(canvasSize) && (span != 0.0 ==> t.scale * span == br);
    FrameVertexFits(t, box, verts[k], span, br);
  }

  /**
   * Every vertex is drawn inside the dashed guide circle centred at
   * (C // 2, C // 2) with radius `base_radius`, stated with squared distances.
   */
  lemma FitsInGuideCircle(verts: seq<Point2>, canvasSize: int, margin: int, sqrt: real -> real)
    requires |verts| > 0 && IsSqrt(sqrt)
    ensures forall k :: 0 <= k < |verts| ==>
      DistSq(Apply(FrameFor(verts, canvasSize, margin, sqrt), verts[k]), MidPoint(canvasSize))
        <= Sq(BaseRadius(canvasSize, margin))
  {
    forall k | 0 <= k < |verts|
      ensures DistSq(Apply(FrameFor(verts, canvasSize, margin, sqrt), verts[k]), MidPoint(canvasSize))
        <= Sq(BaseRadius(canvasSize, margin))
    {
      VertexFits(verts, canvasSize, margin, sqrt, k);
    }
  }

  /** A point at squared distance `span^2` from the centre is drawn at squared distance `base_radius^2`. */
  lemma ScaledExactly(s: real, span: real, br: real, d: real)
    requires d == Sq(span) && s * span == br
    ensures Sq(s) * d == Sq(br)
  {
    SqScale(s, span);
  }

  /** Under a frame centred on the box, one box corner is drawn at distance `br` from the centre. */
  lemma FrameCornerExact(t: Frame, box: Box2, span: real, br: real, k: int)
    requires 0 <= k < 4 && t.center == Center2(box)
    requires Sq(span) == (Sq(box.hi.x - box.lo.x) + Sq(box.hi.y - box.lo.y)) / 4.0
    requires t.scale * span == br
    ensures DistSq(Apply(t, CornersCCW(box)[k]), Point2(t.mid, t.mid)) == Sq(br)
  {
    assert Apply(t, t.center) == Point2(t.mid, t.mid);
    var c := CornersCCW(box)[k];
    ApplyIsSimilarity(t, c, t.center);
    CornerDistance(box, k);
    ScaledExactly(t.scale, span, br, DistSq(c, t.center));
  }

  /** Under such a frame the box's diagonal is drawn with squared length `4 * br^2`. */
  lemma FrameDiagonalExact(t: Frame, box: Box2, span: real, br: real)
    requires Sq(span) == (Sq(box.hi.x - box.lo.x) + Sq(box.hi.y - box.lo.y)) / 4.0
    requires t.scale * span == br
    ensures DistSq(Apply(t, box.lo), Apply(t, box.hi)) == 4.0 * Sq(br)
  {
    ApplyIsSimilarity(t, box.lo, box.hi);
    var d := DistSq(box.lo, box.hi);
    assert d == 4.0 * Sq(span);
    ScaledExactly(t.scale, span, br, Sq(span));
    calc {
      Sq(t.scale) * d;
      == Sq(t.scale) * (4.0 * Sq(span));
      == 4.0 * (Sq(t.scale) * Sq(span));
      == 4.0 * Sq(br);
    }
  }

  /** Under a frame centred on the box, all four corners and the diagonal are drawn at the guide radius. */
  lemma FrameBoxExact(t: Frame, box: Box2, span: real, br: real)
    requires t.center == Center2(box)
    requires Sq(span) == (Sq(box.hi.x - box.lo.x) + Sq(box.hi.y - box.lo.y)) / 4.0
    requires t.scale * span == br
    ensures forall k :: 0 <= k < 4 ==> DistSq(Apply(t, CornersCCW(box)[k]), Point2(t.mid, t.mid)) == Sq(br)
    ensures DistSq(Apply(t, box.lo), Apply(t, box.hi)) == 4.0 * Sq(br)
  {
    forall k | 0 <= k < 4
      ensures DistSq(Apply(t, CornersCCW(box)[k]), Point2(t.mid, t.mid)) == Sq(br)
    {
      FrameCornerExact(t, box, span, br, k);
    }
    FrameDiagonalExact(t, box, span, br);
  }

  /** For a non-zero span the scale maps the half diagonal onto the base radius. */
  lemma ScaleForTimesSpan(br: real, span: real)
    requires span != 0.0
    ensures ScaleFor(br, span) * span == br
  {
  }

  /** The slice's frame is centred on the box and scales its half diagonal to `base_radius`. */
  lemma FrameForFits(verts: seq<Point2>, canvasSize: int, margin: int, sqrt: real -> real)
    requires |verts| > 0
    requires HalfDiagonal(BoundsOf(verts), sqrt) != 0.0
    ensures var t := FrameFor(verts, canvasSize, margin, sqrt);
      && t.center == Center2(BoundsOf(verts))
      && t.scale * HalfDiagonal(BoundsOf(verts), sqrt) == BaseRadius(canvasSize, margin)
      && MidPoint(canvasSize) == Point2(t.mid, t.mid)
  {
    var box := BoundsOf(verts);
    var span := HalfDiagonal(box, sqrt);
    var br := BaseRadius(canvasSize, margin);
    assert FrameFor(verts, canvasSize, margin, sqrt) == Frame(Center2(box), ScaleFor(br, span), CanvasMid(canvasSize));
    ScaleForTimesSpan(br, span);
  }

  /**
   * When `span` is non-zero the four corners of the bounding box land exactly on
   * the guide circle, and the box's diagonal is drawn with length 2 * base_radius.
   */
  lemma BoxCornersOnGuideCircle(verts: seq<Point2>, canvasSize: int, margin: int, sqrt: real -> real)
    requires |verts| > 0 && IsSqrt(sqrt)
    requires HalfDiagonal(BoundsOf(verts), sqrt) != 0.0
    ensures forall k :: 0 <= k < 4 ==>
      DistSq(Apply(FrameFor(verts, canvasSize, margin, sqrt), CornersCCW(BoundsOf(verts))[k]), MidPoint(canvasSize))
        == Sq(BaseRadius(canvasSize, margin))
    ensures var t := FrameFor(verts, canvasSize, margin, sqrt);
      DistSq(Apply(t, BoundsOf(verts).lo), Apply(t, BoundsOf(verts).hi)) == 4.0 * Sq(BaseRadius(canvasSize, margin))
  {
    HalfDiagonalSquared(BoundsOf(verts), sqrt);
    FrameForFits(verts, canvasSize, margin, sqrt);
    FrameBoxExact(FrameFor(verts, canvasSize, margin, sqrt), BoundsOf(verts),
      HalfDiagonal(BoundsOf(verts), sqrt), BaseRadius(canvasSize, margin));
  }

  /** Each corner of a box is half a diagonal away from its centre. */
  lemma CornerDistance(b: Box2, k: int)
    requires 0 <= k < 4
    ensures DistSq(CornersCCW(b)[k], Center2(b)) == (Sq(b.hi.x - b.lo.x) + Sq(b.hi.y - b.lo.y)) / 4.0
  {
  }
}
