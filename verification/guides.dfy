/**
 * Alignment guides: four thin vertical rods at the corners of the mesh's XY
 * bounding box grown by a small padding, each spanning the mesh's full Z extent.
 * The cylinder meshes themselves come from the geometry library; the model keeps
 * each rod's axis segment, radius and tessellation count.
 */
module Guides {
  import opened Geometry

  /** Outward padding of the corner positions (source constant). */
  const Padding: real := 0.01
  /** Rod radius handed to the cylinder builder (source constant). */
  const RodRadius: real := 0.1
  /** Angular sections per rod (source constant). */
  const RodSections: nat := 12

  datatype Segment3 = Segment3(start: Point3, end: Point3)
  datatype Rod = Rod(axis: Segment3, radius: real, sections: nat)

  /** Corner positions of the padded XY bounding box, in the source's order. */
  function GuideCorners(b: Box3, p: real): (cs: seq<Point2>)
    ensures |cs| == 4
  {
    CornersCCW(Expand(Footprint(b), p))
  }

  /**
   * One vertical rod per guide corner, from the bottom to the top of the box.
   * The ensures spell out the comprehension for the prover; GuideRodsSpanMesh
   * states what the rods are.
   */
  function GuideRods(b: Box3, p: real): (rods: seq<Rod>)
    ensures |rods| == 4
    ensures forall k :: 0 <= k < 4 ==>
      var c := GuideCorners(b, p)[k];
      && rods[k].axis.start == Point3(c.x, c.y, b.lo.z)
      && rods[k].axis.end == Point3(c.x, c.y, b.hi.z)
      && rods[k].radius == RodRadius && rods[k].sections == RodSections
  {
    var cs := GuideCorners(b, p);
    seq(4, k requires 0 <= k < 4 =>
      Rod(Segment3(Point3(cs[k].x, cs[k].y, b.lo.z), Point3(cs[k].x, cs[k].y, b.hi.z)),
          RodRadius, RodSections))
  }

  /**
   * The guide corners are, in order, (x_min-p, y_min-p), (x_max+p, y_min-p),
   * (x_max+p, y_max+p), (x_min-p, y_max+p); for p > 0 each lies strictly
   * outside the box's XY extent on both axes.
   */
  lemma GuideCornersOutsideBox(b: Box3, p: real)
    ensures GuideCorners(b, p) == [
      Point2(b.lo.x - p, b.lo.y - p), Point2(b.hi.x + p, b.lo.y - p),
      Point2(b.hi.x + p, b.hi.y + p), Point2(b.lo.x - p, b.hi.y + p)]
    ensures p > 0.0 ==> forall k :: 0 <= k < 4 ==>
      var c := GuideCorners(b, p)[k];
      && (c.x < b.lo.x || b.hi.x < c.x)
      && (c.y < b.lo.y || b.hi.y < c.y)
  {
  }

  /** Z extent of the cylinder built around a rod's axis: its caps sit at the segment's ends. */
  function RodZExtent(r: Rod): (real, real) {
    (Min(r.axis.start.z, r.axis.end.z), Max(r.axis.start.z, r.axis.end.z))
  }

  /**
   * Z extent of a mesh concatenated with rods: the smallest bottom and largest top
   * over all parts (what the library's `bounds` reports for the merged mesh).
   */
  function MergedZExtent(z: (real, real), rods: seq<Rod>): (m: (real, real))
    ensures m.0 <= z.0 && z.1 <= m.1
    ensures forall k :: 0 <= k < |rods| ==> m.0 <= RodZExtent(rods[k]).0 && RodZExtent(rods[k]).1 <= m.1
    decreases |rods|
  {
    if |rods| == 0 then z
    else
      var m := MergedZExtent(z, rods[..|rods| - 1]);
      var r := RodZExtent(rods[|rods| - 1]);
      (Min(m.0, r.0), Max(m.1, r.1))
  }

  /** Rods that stay inside [lo, hi] in Z do not change the merged extent. */
  lemma {:induction false} MergedZExtentOfContainedRods(z: (real, real), rods: seq<Rod>)
    requires z.0 <= z.1
    requires forall k :: 0 <= k < |rods| ==> z.0 <= RodZExtent(rods[k]).0 && RodZExtent(rods[k]).1 <= z.1
    ensures MergedZExtent(z, rods) == z
    decreases |rods|
  {
    if |rods| > 0 {
      MergedZExtentOfContainedRods(z, rods[..|rods| - 1]);
    }
  }

  /**
   * Each rod is vertical, stands at its guide corner, and spans exactly the mesh's
   * Z extent; for p > 0 its axis is strictly outside the box's XY extent.
   */
  lemma GuideRodsSpanMesh(b: Box3, p: real)
    requires b.lo.z <= b.hi.z
    ensures forall k :: 0 <= k < |GuideRods(b, p)| ==>
      && GuideRods(b, p)[k].axis.start == Point3(GuideCorners(b, p)[k].x, GuideCorners(b, p)[k].y, b.lo.z)
      && GuideRods(b, p)[k].axis.end == Point3(GuideCorners(b, p)[k].x, GuideCorners(b, p)[k].y, b.hi.z)
      && RodZExtent(GuideRods(b, p)[k]) == (b.lo.z, b.hi.z)
      && GuideRods(b, p)[k].axis.start.x == GuideRods(b, p)[k].axis.end.x
      && GuideRods(b, p)[k].axis.start.y == GuideRods(b, p)[k].axis.end.y
      && (p > 0.0 ==>
            && (GuideRods(b, p)[k].axis.start.x < b.lo.x || b.hi.x < GuideRods(b, p)[k].axis.start.x)
            && (GuideRods(b, p)[k].axis.start.y < b.lo.y || b.hi.y < GuideRods(b, p)[k].axis.start.y))
  {
    GuideCornersOutsideBox(b, p);
  }

  /**
   * Adding the guide rods leaves the mesh's Z extent unchanged, so the heights
   * re-read from the merged mesh are the original mesh's z_min and z_max.
   */
  lemma GuidesKeepZExtent(b: Box3, p: real)
    requires b.lo.z <= b.hi.z
    ensures MergedZExtent((b.lo.z, b.hi.z), GuideRods(b, p)) == (b.lo.z, b.hi.z)
  {
    GuideRodsSpanMesh(b, p);
    MergedZExtentOfContainedRods((b.lo.z, b.hi.z), GuideRods(b, p));
  }
}
