/**
 * Section entities and the filter applied before drawing. A section's entities
 * are polylines given as indices into the section's vertex list; discretising
 * one against a vertex list looks its points up, and an index past the end
 * raises. Only entities with at least two points are drawn.
 */
module Entities {
  import opened Wrappers
  import opened Geometry

  /** A polyline entity: indices into the vertex list of its section. */
  datatype Entity = Entity(points: seq<nat>)

  /** Fewest points a drawn polyline has. */
  const MinDrawnPoints: nat := 2

  predicate IndicesIn(e: Entity, n: nat) {
    forall k :: 0 <= k < |e.points| ==> e.points[k] < n
  }

  /** The entity's points looked up in `verts`; `None` when an index is out of range. */
  function Discrete(e: Entity, verts: seq<Point2>): Option<seq<Point2>> {
    if IndicesIn(e, |verts|) then Some(seq(|e.points|, k requires 0 <= k < |e.points| => verts[e.points[k]]))
    else None
  }

  /**
   * Discretises every entity, in order; fails when any entity has an index out of range.
   * The ensures spell out the comprehension for the prover; DiscreteAfterTransform
   * relates it to the canvas transform.
   */
  function DiscreteAll(es: seq<Entity>, verts: seq<Point2>): (r: Option<seq<seq<Point2>>>)
    ensures r.Some? <==> forall j :: 0 <= j < |es| ==> IndicesIn(es[j], |verts|)
    ensures r.Some? ==> |r.value| == |es|
    ensures r.Some? ==> forall j :: 0 <= j < |es| ==> |r.value[j]| == |es[j].points|
    ensures r.Some? ==> forall j, k :: 0 <= j < |es| && 0 <= k < |es[j].points| ==>
      r.value[j][k] == verts[es[j].points[k]]
  {
    if forall j :: 0 <= j < |es| ==> IndicesIn(es[j], |verts|)
    then Some(seq(|es|, j requires 0 <= j < |es| => Discrete(es[j], verts).value))
    else None
  }

  /** The polylines that get drawn: those with at least two points, in their original order. */
  function Drawable(ps: seq<seq<Point2>>): (r: seq<seq<Point2>>)
    ensures |r| <= |ps|
    ensures forall k :: 0 <= k < |r| ==> MinDrawnPoints <= |r[k]|
    decreases |ps|
  {
    if |ps| == 0 then []
    else
      var last := ps[|ps| - 1];
      Drawable(ps[..|ps| - 1]) + (if MinDrawnPoints <= |last| then [last] else [])
  }

  /** Positions, in increasing order, of the polylines with at least two points. */
  function KeptPositions(ps: seq<seq<Point2>>): seq<nat>
    decreases |ps|
  {
    if |ps| == 0 then []
    else KeptPositions(ps[..|ps| - 1]) + (if MinDrawnPoints <= |ps[|ps| - 1]| then [|ps| - 1] else [])
  }

  lemma {:induction false} KeptPositionsBounded(ps: seq<seq<Point2>>)
    ensures forall k :: 0 <= k < |KeptPositions(ps)| ==> KeptPositions(ps)[k] < |ps|
    ensures forall k1, k2 :: 0 <= k1 < k2 < |KeptPositions(ps)| ==> KeptPositions(ps)[k1] < KeptPositions(ps)[k2]
    decreases |ps|
  {
    if |ps| > 0 {
      KeptPositionsBounded(ps[..|ps| - 1]);
    }
  }

  lemma {:induction false} KeptPositionsExact(ps: seq<seq<Point2>>)
    ensures forall j :: 0 <= j < |ps| ==> (j in KeptPositions(ps) <==> MinDrawnPoints <= |ps[j]|)
    decreases |ps|
  {
    if |ps| > 0 {
      var init := ps[..|ps| - 1];
      KeptPositionsExact(init);
      KeptPositionsBounded(init);
      var kpi := KeptPositions(init);
      forall j | 0 <= j < |ps|
        ensures j in KeptPositions(ps) <==> MinDrawnPoints <= |ps[j]|
      {
        if j < |init| {
          assert ps[j] == init[j];
        } else {
          assert j !in kpi;
        }
      }
    }
  }

  lemma {:induction false} DrawableAtKeptPositions(ps: seq<seq<Point2>>)
    ensures |Drawable(ps)| == |KeptPositions(ps)|
    ensures forall k :: 0 <= k < |KeptPositions(ps)| ==>
      KeptPositions(ps)[k] < |ps| && Drawable(ps)[k] == ps[KeptPositions(ps)[k]]
    decreases |ps|
  {
    KeptPositionsBounded(ps);
    if |ps| > 0 {
      var init := ps[..|ps| - 1];
      DrawableAtKeptPositions(init);
      KeptPositionsBounded(init);
      var kpi := KeptPositions(init);
      forall k | 0 <= k < |KeptPositions(ps)|
        ensures Drawable(ps)[k] == ps[KeptPositions(ps)[k]]
      {
        if k < |kpi| {
          assert Drawable(ps)[k] == Drawable(init)[k];
          assert KeptPositions(ps)[k] == kpi[k];
          assert ps[kpi[k]] == init[kpi[k]];
        }
      }
    }
  }

  /**
   * The filter keeps exactly the polylines with at least two points: the k-th
   * drawn polyline is, unchanged, the input at the k-th kept position; kept
   * positions strictly increase (order is preserved); and a position is kept
   * if and only if its polyline has at least two points.
   */
  lemma DrawableKeepsExactlyLongPolylines(ps: seq<seq<Point2>>)
    ensures |Drawable(ps)| == |KeptPositions(ps)|
    ensures forall k :: 0 <= k < |KeptPositions(ps)| ==>
      KeptPositions(ps)[k] < |ps| && Drawable(ps)[k] == ps[KeptPositions(ps)[k]]
    ensures forall k1, k2 :: 0 <= k1 < k2 < |KeptPositions(ps)| ==> KeptPositions(ps)[k1] < KeptPositions(ps)[k2]
    ensures forall j :: 0 <= j < |ps| ==> (j in KeptPositions(ps) <==> MinDrawnPoints <= |ps[j]|)
  {
    KeptPositionsBounded(ps);
    KeptPositionsExact(ps);
    DrawableAtKeptPositions(ps);
  }
}
