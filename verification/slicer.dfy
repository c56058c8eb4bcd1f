/**
 * The slicing run: add the guide rods, schedule the cut heights, and for each
 * height whose section is non-empty normalise the section into the canvas,
 * keep the drawable polylines and write `layer_{i:04d}.png`.
 *
 * The mesh, its sectioning and the square root are outside the model: the run
 * receives the mesh's bounds, a `section` function from a cut height to the
 * planar section there (`None` when the plane misses the mesh), and `sqrt`.
 */
module Slicer {
  import opened Wrappers
  import opened Geometry
  import opened Guides
  import opened Schedule
  import opened Naming
  import opened Canvas
  import opened Entities

  /** Exceptions the run can raise; each ends it, keeping the files already written. */
  datatype Error =
    | NonFiniteLayerCount    // layer height 0: the ceiling of an infinite or NaN quotient is not an int
    | EmptyVertexArray       // min/max reduction over a section without vertices
    | VertexIndexOutOfRange  // an entity refers past the end of its section's vertex list

  /** The keyword parameters of the run. */
  datatype Settings = Settings(layerHeight: real, canvasSize: int, margin: int)

  const DefaultSettings: Settings := Settings(0.05, 1024, 50)

  /** A planar section: 2D vertices and polyline entities indexing into them. */
  datatype Section = Section(vertices: seq<Point2>, entities: seq<Entity>)

  datatype Circle = Circle(center: Point2, radius: real)

  /** What one layer image shows: the dashed guide circle and the polylines, all drawn in black. */
  datatype Drawing = Drawing(guide: Circle, polylines: seq<seq<Point2>>)

  datatype Layer = Layer(index: nat, name: string, drawing: Drawing)

  /** The layers written, in order, and the error that stopped the run, if any. */
  datatype Run = Run(layers: seq<Layer>, error: Option<Error>)

  function GuideCircle(canvasSize: int, margin: int): Circle {
    Circle(MidPoint(canvasSize), BaseRadius(canvasSize, margin))
  }

  predicate IndicesValid(s: Section) {
    forall j :: 0 <= j < |s.entities| ==> IndicesIn(s.entities[j], |s.vertices|)
  }

  /** Normalises one non-empty section into the canvas and selects what is drawn. */
  function RenderLayer(s: Section, canvasSize: int, margin: int, sqrt: real -> real): (r: Result<Drawing, Error>)
    ensures |s.vertices| == 0 ==> r == Failure(EmptyVertexArray)
    ensures 0 < |s.vertices| ==> (r.Success? <==> IndicesValid(s))
    ensures 0 < |s.vertices| && !IndicesValid(s) ==> r == Failure(VertexIndexOutOfRange)
    ensures r.Success? ==> r.value.guide == GuideCircle(canvasSize, margin)
    ensures r.Success? ==> forall k :: 0 <= k < |r.value.polylines| ==> MinDrawnPoints <= |r.value.polylines[k]|
  {
    if |s.vertices| == 0 then Failure(EmptyVertexArray)
    else
      var t := FrameFor(s.vertices, canvasSize, margin, sqrt);
      match DiscreteAll(s.entities, ApplyAll(t, s.vertices))
      case None => Failure(VertexIndexOutOfRange)
      case Some(pls) => Success(Drawing(GuideCircle(canvasSize, margin), Drawable(pls)))
  }

  /**
   * Discretising against the transformed vertices is transforming the discretised
   * points: both succeed or fail together, and each point is the transform of the
   * point the entity names in the section's own coordinates.
   */
  lemma DiscreteAfterTransform(es: seq<Entity>, vs: seq<Point2>, t: Frame)
    ensures DiscreteAll(es, ApplyAll(t, vs)).Some? <==> DiscreteAll(es, vs).Some?
    ensures DiscreteAll(es, vs).Some? ==>
      && |DiscreteAll(es, ApplyAll(t, vs)).value| == |DiscreteAll(es, vs).value|
      && forall j :: 0 <= j < |es| ==>
           && |DiscreteAll(es, ApplyAll(t, vs)).value[j]| == |DiscreteAll(es, vs).value[j]|
           && forall k :: 0 <= k < |DiscreteAll(es, vs).value[j]| ==>
                DiscreteAll(es, ApplyAll(t, vs)).value[j][k] == Apply(t, DiscreteAll(es, vs).value[j][k])
  {
  }

  /** With the default settings the guide circle is centred at (512, 512) with radius 462. */
  lemma DefaultGuideCircle()
    ensures GuideCircle(DefaultSettings.canvasSize, DefaultSettings.margin) == Circle(Point2(512.0, 512.0), 462.0)
  {
  }

  /**
   * The drawn polylines are exactly the entities with at least two points, in
   * their original order, each with its points mapped into the canvas and
   * otherwise unchanged.
   */
  lemma RenderedPolylines(s: Section, canvasSize: int, margin: int, sqrt: real -> real)
    requires RenderLayer(s, canvasSize, margin, sqrt).Success?
    ensures var d := RenderLayer(s, canvasSize, margin, sqrt).value;
      var t := FrameFor(s.vertices, canvasSize, margin, sqrt);
      var kept := KeptPositions(DiscreteAll(s.entities, ApplyAll(t, s.vertices)).value);
      && |d.polylines| == |kept|
      && (forall k1, k2 :: 0 <= k1 < k2 < |kept| ==> kept[k1] < kept[k2])
      && (forall j :: 0 <= j < |s.entities| ==> (j in kept <==> MinDrawnPoints <= |s.entities[j].points|))
      && (forall k :: 0 <= k < |kept| ==>
            && kept[k] < |s.entities|
            && |d.polylines[k]| == |s.entities[kept[k]].points|
            && forall m :: 0 <= m < |d.polylines[k]| ==>
                 d.polylines[k][m] == Apply(t, s.vertices[s.entities[kept[k]].points[m]]))
  {
    var t := FrameFor(s.vertices, canvasSize, margin, sqrt);
    var vs := ApplyAll(t, s.vertices);
    var pls := DiscreteAll(s.entities, vs).value;
    DrawableKeepsExactlyLongPolylines(pls);
  }

  /** Every point of every drawn polyline lies inside the dashed guide circle. */
  lemma RenderedInsideGuideCircle(s: Section, canvasSize: int, margin: int, sqrt: real -> real)
    requires IsSqrt(sqrt)
    requires RenderLayer(s, canvasSize, margin, sqrt).Success?
    ensures var d := RenderLayer(s, canvasSize, margin, sqrt).value;
      forall k, m :: 0 <= k < |d.polylines| && 0 <= m < |d.polylines[k]| ==>
        DistSq(d.polylines[k][m], d.guide.center) <= Sq(d.guide.radius)
  {
    var d := RenderLayer(s, canvasSize, margin, sqrt).value;
    var t := FrameFor(s.vertices, canvasSize, margin, sqrt);
    RenderedPolylines(s, canvasSize, margin, sqrt);
    FitsInGuideCircle(s.vertices, canvasSize, margin, sqrt);
    var kept := KeptPositions(DiscreteAll(s.entities, ApplyAll(t, s.vertices)).value);
    forall k, m | 0 <= k < |d.polylines| && 0 <= m < |d.polylines[k]|
      ensures DistSq(d.polylines[k][m], d.guide.center) <= Sq(d.guide.radius)
    {
      var idx := s.entities[kept[k]].points[m];
      assert idx < |s.vertices|;
      assert d.polylines[k][m] == Apply(t, s.vertices[idx]);
    }
  }

  // ---------------------------------------------------------------- the layer loop

  /**
   * Layers for loop indices i, i+1, ..., n-1, where `cut(j)` is the section at
   * the j-th scheduled height: skip empty sections, stop at the first error.
   */
  function RunFrom(i: nat, n: int, cut: nat -> Option<Section>, render: Section -> Result<Drawing, Error>): Run
    decreases n - i
  {
    if n <= i then Run([], None)
    else
      match cut(i)
      case None => RunFrom(i + 1, n, cut, render)
      case Some(s) =>
        match render(s)
        case Failure(e) => Run([], Some(e))
        case Success(d) =>
          var rest := RunFrom(i + 1, n, cut, render);
          Run([Layer(i, LayerName(i), d)] + rest.layers, rest.error)
  }

  /** The section cut for loop index `i` of a run whose lowest height is `zMin`. */
  function CutAt(section: real -> Option<Section>, zMin: real, layerHeight: real): nat -> Option<Section> {
    (i: nat) => section(LayerZ(zMin, layerHeight, i))
  }

  /** Rendering with the run's canvas settings. */
  function Renderer(cfg: Settings, sqrt: real -> real): Section -> Result<Drawing, Error> {
    s => RenderLayer(s, cfg.canvasSize, cfg.margin, sqrt)
  }

  /** The whole run on a mesh with bounds `bounds`. */
  function SliceStlToLayers(bounds: Box3, cfg: Settings,
                            section: real -> Option<Section>, sqrt: real -> real): (r: Run)
    ensures cfg.layerHeight == 0.0 ==> r == Run([], Some(NonFiniteLayerCount))
  {
    var z := MergedZExtent((bounds.lo.z, bounds.hi.z), GuideRods(bounds, Padding));
    match LayerCount(z.1 - z.0, cfg.layerHeight)
    case None => Run([], Some(NonFiniteLayerCount))
    case Some(n) => RunFrom(0, n, CutAt(section, z.0, cfg.layerHeight), Renderer(cfg, sqrt))
  }

  /** The indices of the written layers, in order; the ensures only expose the comprehension to the prover. */
  function Indices(ls: seq<Layer>): (r: seq<int>)
    ensures |r| == |ls|
    ensures forall k :: 0 <= k < |ls| ==> r[k] == ls[k].index
  {
    seq(|ls|, k requires 0 <= k < |ls| => ls[k].index)
  }

  /** A layer as written for its index: named after it, from a non-empty section, drawn from that section. */
  predicate WrittenFor(l: Layer, cut: nat -> Option<Section>, render: Section -> Result<Drawing, Error>) {
    && l.name == LayerName(l.index)
    && cut(l.index).Some?
    && render(cut(l.index).value) == Success(l.drawing)
  }

  /**
   * The run `r` over [i, n) stopped at index j: the section cut there is
   * non-empty and rendering it raised `r`'s error, every layer written has a
   * smaller index, and every non-empty section before j was written.
   */
  predicate StoppedAt(r: Run, i: int, j: nat, n: int, cut: nat -> Option<Section>, render: Section -> Result<Drawing, Error>) {
    && r.error.Some?
    && i <= j < n
    && FailsAt(j, cut, render, r.error.value)
    && (forall k :: 0 <= k < |r.layers| ==> r.layers[k].index < j)
    && Covers(r.layers, i, j, cut)
  }

  /** Every index in [lo, hi) whose section is non-empty has a layer in `ls`. */
  predicate Covers(ls: seq<Layer>, lo: int, hi: int, cut: nat -> Option<Section>) {
    forall j: nat :: lo <= j < hi && cut(j).Some? ==> j in Indices(ls)
  }

  /** The section cut for index `j` is non-empty and rendering it raises `e`. */
  predicate FailsAt(j: nat, cut: nat -> Option<Section>, render: Section -> Result<Drawing, Error>, e: Error) {
    && cut(j).Some?
    && render(cut(j).value) == Failure(e)
  }

  /** Every layer has an index in [lo, n) and was written for that index. */
  predicate AllWritten(ls: seq<Layer>, lo: int, n: int, cut: nat -> Option<Section>, render: Section -> Result<Drawing, Error>) {
    forall k :: 0 <= k < |ls| ==> lo <= ls[k].index < n && WrittenFor(ls[k], cut, render)
  }

  predicate IndicesIncrease(ls: seq<Layer>) {
    forall k1, k2 :: 0 <= k1 < k2 < |ls| ==> ls[k1].index < ls[k2].index
  }

  lemma PrependWritten(l: Layer, ls: seq<Layer>, lo: int, n: int,
                       cut: nat -> Option<Section>, render: Section -> Result<Drawing, Error>)
    requires lo <= l.index < n && WrittenFor(l, cut, render)
    requires AllWritten(ls, l.index + 1, n, cut, render)
    ensures AllWritten([l] + ls, lo, n, cut, render)
  {
    var r := [l] + ls;
    forall k | 0 <= k < |r|
      ensures lo <= r[k].index < n && WrittenFor(r[k], cut, render)
    {
      if k > 0 {
        assert r[k] == ls[k - 1];
      }
    }
  }

  lemma PrependCovers(l: Layer, ls: seq<Layer>, lo: int, hi: int, cut: nat -> Option<Section>)
    requires l.index == lo && Covers(ls, lo + 1, hi, cut)
    ensures Covers([l] + ls, lo, hi, cut)
  {
    var r := [l] + ls;
    forall j: nat | lo <= j < hi && cut(j).Some?
      ensures j in Indices(r)
    {
      if j == lo {
        assert Indices(r)[0] == j;
      } else {
        var k :| 0 <= k < |Indices(ls)| && Indices(ls)[k] == j;
        assert Indices(r)[k + 1] == j;
      }
    }
  }

  lemma SkipCovers(ls: seq<Layer>, lo: nat, hi: int, cut: nat -> Option<Section>)
    requires cut(lo).None? && Covers(ls, lo + 1, hi, cut)
    ensures Covers(ls, lo, hi, cut)
  {
  }

  /** Each written layer has a scheduled index, is named after that loop index and comes from a non-empty section. */
  lemma {:induction false} RunFromSound(i: nat, n: int, cut: nat -> Option<Section>, render: Section -> Result<Drawing, Error>)
    ensures AllWritten(RunFrom(i, n, cut, render).layers, i, n, cut, render)
    decreases n - i
  {
    if i < n {
      var rest := RunFrom(i + 1, n, cut, render);
      RunFromSound(i + 1, n, cut, render);
      match cut(i)
      case None =>
      case Some(s) =>
        match render(s)
        case Failure(e) =>
        case Success(d) =>
          PrependWritten(Layer(i, LayerName(i), d), rest.layers, i, n, cut, render);
    }
  }

  lemma AllWrittenAbove(ls: seq<Layer>, lo: int, n: int, cut: nat -> Option<Section>, render: Section -> Result<Drawing, Error>)
    requires AllWritten(ls, lo, n, cut, render)
    ensures forall k :: 0 <= k < |ls| ==> lo <= ls[k].index
  {
  }

  /** Putting a layer in front of increasing layers with larger indices keeps them increasing. */
  lemma PrependIncreasing(l: Layer, ls: seq<Layer>)
    requires IndicesIncrease(ls)
    requires forall k :: 0 <= k < |ls| ==> l.index < ls[k].index
    ensures IndicesIncrease([l] + ls)
  {
    var r := [l] + ls;
    forall k1, k2 | 0 <= k1 < k2 < |r|
      ensures r[k1].index < r[k2].index
    {
      assert r[k2] == ls[k2 - 1];
      if k1 > 0 {
        assert r[k1] == ls[k1 - 1];
      }
    }
  }

  /** Layer indices strictly increase along the run, so the files are written in height order. */
  lemma {:induction false} RunFromIncreasing(i: nat, n: int, cut: nat -> Option<Section>, render: Section -> Result<Drawing, Error>)
    ensures IndicesIncrease(RunFrom(i, n, cut, render).layers)
    decreases n - i
  {
    if i < n {
      var rest := RunFrom(i + 1, n, cut, render);
      RunFromIncreasing(i + 1, n, cut, render);
      match cut(i)
      case None =>
      case Some(s) =>
        match render(s)
        case Failure(e) =>
        case Success(d) =>
          RunFromSound(i + 1, n, cut, render);
          AllWrittenAbove(rest.layers, i + 1, n, cut, render);
          PrependIncreasing(Layer(i, LayerName(i), d), rest.layers);
    }
  }

  /** A run that ends without error has written a layer for every non-empty section. */
  lemma {:induction false} RunFromComplete(i: nat, n: int, cut: nat -> Option<Section>, render: Section -> Result<Drawing, Error>)
    requires RunFrom(i, n, cut, render).error.None?
    ensures Covers(RunFrom(i, n, cut, render).layers, i, n, cut)
    decreases n - i
  {
    if i < n {
      var rest := RunFrom(i + 1, n, cut, render);
      match cut(i)
      case None =>
        RunFromComplete(i + 1, n, cut, render);
        SkipCovers(rest.layers, i, n, cut);
      case Some(s) =>
        match render(s)
        case Failure(e) =>
        case Success(d) =>
          RunFromComplete(i + 1, n, cut, render);
          PrependCovers(Layer(i, LayerName(i), d), rest.layers, i, n, cut);
    }
  }

  /** Writing layer i in front of a run over [i+1, n) that stopped at j gives a run over [i, n) stopped at j. */
  lemma StoppedAtAfterWrite(rest: Run, d: Drawing, i: nat, j: nat, n: int,
                            cut: nat -> Option<Section>, render: Section -> Result<Drawing, Error>)
    requires StoppedAt(rest, i + 1, j, n, cut, render)
    ensures StoppedAt(Run([Layer(i, LayerName(i), d)] + rest.layers, rest.error), i, j, n, cut, render)
  {
    var ls := [Layer(i, LayerName(i), d)] + rest.layers;
    forall k | 0 <= k < |ls|
      ensures ls[k].index < j
    {
      if k > 0 {
        assert ls[k] == rest.layers[k - 1];
      }
    }
    PrependCovers(Layer(i, LayerName(i), d), rest.layers, i, j, cut);
  }

  /**
   * A run that ends with an error stopped at a non-empty section whose rendering
   * raised it: every layer written before has a smaller index, and every
   * non-empty section before it was written.
   */
  lemma {:induction false} RunFromStopsAtFailure(i: nat, n: int, cut: nat -> Option<Section>, render: Section -> Result<Drawing, Error>)
    requires RunFrom(i, n, cut, render).error.Some?
    ensures exists j: nat :: StoppedAt(RunFrom(i, n, cut, render), i, j, n, cut, render)
    decreases n - i
  {
    var r := RunFrom(i, n, cut, render);
    var rest := RunFrom(i + 1, n, cut, render);
    match cut(i)
    case None =>
      assert r == rest;
      RunFromStopsAtFailure(i + 1, n, cut, render);
      var j: nat :| StoppedAt(rest, i + 1, j, n, cut, render);
      SkipCovers(rest.layers, i, j, cut);
      assert StoppedAt(r, i, j, n, cut, render);
    case Some(s) =>
      match render(s)
      case Failure(e) =>
        assert StoppedAt(r, i, i, n, cut, render);
      case Success(d) =>
        assert r == Run([Layer(i, LayerName(i), d)] + rest.layers, rest.error);
        RunFromStopsAtFailure(i + 1, n, cut, render);
        var j: nat :| StoppedAt(rest, i + 1, j, n, cut, render);
        StoppedAtAfterWrite(rest, d, i, j, n, cut, render);
  }

  // ---------------------------------------------------------------- whole-run properties

  /** Number of indices scheduled for a mesh with bounds `bounds` (meaningful for a non-zero layer height). */
  function ScheduledCount(bounds: Box3, cfg: Settings): int {
    match LayerCount(bounds.hi.z - bounds.lo.z, cfg.layerHeight)
    case Some(n) => n
    case None => 0
  }

  /** Every layer's cut height lies in [lo, hi). */
  predicate HeightsWithin(ls: seq<Layer>, zMin: real, layerHeight: real, lo: real, hi: real) {
    forall k :: 0 <= k < |ls| ==> lo <= LayerZ(zMin, layerHeight, ls[k].index) < hi
  }

  predicate NamesDistinct(ls: seq<Layer>) {
    forall k1, k2 :: 0 <= k1 < |ls| && 0 <= k2 < |ls| && k1 != k2 ==> ls[k1].name != ls[k2].name
  }

  /** File names sort, as Python strings, in the order the layers were written. */
  predicate NamesSorted(ls: seq<Layer>) {
    forall k1, k2 :: 0 <= k1 < k2 < |ls| ==> StrLess(ls[k1].name, ls[k2].name)
  }

  /**
   * The guide rods do not move the Z extent, so with a positive layer height the
   * run is the layer loop over [0, ceil(H / h)) cut upward from the mesh's own z_min.
   */
  lemma SliceStlToLayersUnfold(bounds: Box3, cfg: Settings, section: real -> Option<Section>, sqrt: real -> real)
    requires bounds.lo.z <= bounds.hi.z && cfg.layerHeight != 0.0
    ensures LayerCount(bounds.hi.z - bounds.lo.z, cfg.layerHeight) == Some(ScheduledCount(bounds, cfg))
    ensures SliceStlToLayers(bounds, cfg, section, sqrt)
      == RunFrom(0, ScheduledCount(bounds, cfg), CutAt(section, bounds.lo.z, cfg.layerHeight), Renderer(cfg, sqrt))
  {
    GuidesKeepZExtent(bounds, Padding);
  }

  /** Layers whose indices are below `n` and whose names are made from those indices. */
  predicate NamedBelow(ls: seq<Layer>, n: int) {
    forall k :: 0 <= k < |ls| ==> ls[k].index < n && ls[k].name == LayerName(ls[k].index)
  }

  lemma AllWrittenNamedBelow(ls: seq<Layer>, lo: int, n: int, cut: nat -> Option<Section>, render: Section -> Result<Drawing, Error>)
    requires AllWritten(ls, lo, n, cut, render)
    ensures NamedBelow(ls, n)
  {
  }

  /** Indices scheduled by `ceil(H / h)` put every layer's cut height in [z_min, z_min + H). */
  lemma ScheduledHeightsWithin(ls: seq<Layer>, zMin: real, zMax: real, layerHeight: real)
    requires zMin <= zMax && 0.0 < layerHeight
    requires LayerCount(zMax - zMin, layerHeight).Some?
    requires NamedBelow(ls, LayerCount(zMax - zMin, layerHeight).value)
    ensures HeightsWithin(ls, zMin, layerHeight, zMin, zMax)
  {
    var height := zMax - zMin;
    forall k | 0 <= k < |ls|
      ensures zMin <= LayerZ(zMin, layerHeight, ls[k].index) < zMin + height
    {
      LayerHeightsInRange(zMin, height, layerHeight, ls[k].index);
    }
  }

  /** Distinct indices give distinct file names. */
  lemma IncreasingNamesDistinct(ls: seq<Layer>, n: int)
    requires NamedBelow(ls, n) && IndicesIncrease(ls)
    ensures NamesDistinct(ls)
  {
    forall k1, k2 | 0 <= k1 < |ls| && 0 <= k2 < |ls| && k1 != k2
      ensures ls[k1].name != ls[k2].name
    {
      LayerNameInjective(ls[k1].index, ls[k2].index);
    }
  }

  /** Below 10000, increasing indices give file names in increasing string order. */
  lemma IncreasingNamesSorted(ls: seq<Layer>, n: int)
    requires n <= 10000 && NamedBelow(ls, n) && IndicesIncrease(ls)
    ensures NamesSorted(ls)
  {
    forall k1, k2 | 0 <= k1 < k2 < |ls|
      ensures StrLess(ls[k1].name, ls[k2].name)
    {
      LayerNameOrder(ls[k1].index, ls[k2].index);
    }
  }

  /** The layer loop over the indices scheduled for the extent [zMin, zMax], on its own. */
  lemma ScheduledRunSound(zMin: real, zMax: real, layerHeight: real, n: int,
                          section: real -> Option<Section>, render: Section -> Result<Drawing, Error>)
    requires zMin <= zMax && 0.0 < layerHeight
    requires LayerCount(zMax - zMin, layerHeight) == Some(n)
    ensures AllWritten(RunFrom(0, n, CutAt(section, zMin, layerHeight), render).layers, 0, n,
                       CutAt(section, zMin, layerHeight), render)
    ensures IndicesIncrease(RunFrom(0, n, CutAt(section, zMin, layerHeight), render).layers)
    ensures HeightsWithin(RunFrom(0, n, CutAt(section, zMin, layerHeight), render).layers, zMin, layerHeight, zMin, zMax)
    ensures NamesDistinct(RunFrom(0, n, CutAt(section, zMin, layerHeight), render).layers)
    ensures n <= 10000 ==> NamesSorted(RunFrom(0, n, CutAt(section, zMin, layerHeight), render).layers)
  {
    var cut := CutAt(section, zMin, layerHeight);
    var ls := RunFrom(0, n, cut, render).layers;
    RunFromSound(0, n, cut, render);
    RunFromIncreasing(0, n, cut, render);
    AllWrittenNamedBelow(ls, 0, n, cut, render);
    ScheduledHeightsWithin(ls, zMin, zMax, layerHeight);
    IncreasingNamesDistinct(ls, n);
    if n <= 10000 {
      IncreasingNamesSorted(ls, n);
    }
  }

  /**
   * With a positive layer height, every written layer comes from a scheduled
   * index whose cut height lies in [z_min, z_max) of the mesh, in increasing
   * index order; file names are pairwise distinct, and when at most 10000
   * indices are scheduled the names sort as strings in the order written.
   */
  lemma SliceStlToLayersSound(bounds: Box3, cfg: Settings, section: real -> Option<Section>, sqrt: real -> real)
    requires bounds.lo.z <= bounds.hi.z && 0.0 < cfg.layerHeight
    ensures AllWritten(SliceStlToLayers(bounds, cfg, section, sqrt).layers, 0, ScheduledCount(bounds, cfg),
                       CutAt(section, bounds.lo.z, cfg.layerHeight), Renderer(cfg, sqrt))
    ensures IndicesIncrease(SliceStlToLayers(bounds, cfg, section, sqrt).layers)
    ensures HeightsWithin(SliceStlToLayers(bounds, cfg, section, sqrt).layers, bounds.lo.z, cfg.layerHeight,
                          bounds.lo.z, bounds.hi.z)
    ensures NamesDistinct(SliceStlToLayers(bounds, cfg, section, sqrt).layers)
    ensures ScheduledCount(bounds, cfg) <= 10000 ==> NamesSorted(SliceStlToLayers(bounds, cfg, section, sqrt).layers)
  {
    SliceStlToLayersUnfold(bounds, cfg, section, sqrt);
    ScheduledRunSound(bounds.lo.z, bounds.hi.z, cfg.layerHeight, ScheduledCount(bounds, cfg), section, Renderer(cfg, sqrt));
  }

  /** A flat mesh or a negative layer height schedules no index: nothing is written and nothing raised. */
  lemma NothingScheduled(bounds: Box3, cfg: Settings, section: real -> Option<Section>, sqrt: real -> real)
    requires bounds.lo.z <= bounds.hi.z && cfg.layerHeight != 0.0
    requires bounds.lo.z == bounds.hi.z || cfg.layerHeight < 0.0
    ensures SliceStlToLayers(bounds, cfg, section, sqrt) == Run([], None)
  {
    SliceStlToLayersUnfold(bounds, cfg, section, sqrt);
    if bounds.lo.z == bounds.hi.z {
      LayerCountFlat(cfg.layerHeight);
    } else {
      LayerCountNegativeStep(bounds.hi.z - bounds.lo.z, cfg.layerHeight);
    }
  }

  /** A run that ends without error wrote a layer for every scheduled index whose section is non-empty. */
  lemma SliceStlToLayersComplete(bounds: Box3, cfg: Settings, section: real -> Option<Section>, sqrt: real -> real)
    requires bounds.lo.z <= bounds.hi.z && cfg.layerHeight != 0.0
    requires SliceStlToLayers(bounds, cfg, section, sqrt).error.None?
    ensures forall j: nat :: j < ScheduledCount(bounds, cfg) && section(LayerZ(bounds.lo.z, cfg.layerHeight, j)).Some? ==>
      j in Indices(SliceStlToLayers(bounds, cfg, section, sqrt).layers)
  {
    SliceStlToLayersUnfold(bounds, cfg, section, sqrt);
    var cut := CutAt(section, bounds.lo.z, cfg.layerHeight);
    RunFromComplete(0, ScheduledCount(bounds, cfg), cut, Renderer(cfg, sqrt));
    forall j: nat | j < ScheduledCount(bounds, cfg) && section(LayerZ(bounds.lo.z, cfg.layerHeight, j)).Some?
      ensures j in Indices(SliceStlToLayers(bounds, cfg, section, sqrt).layers)
    {
      assert cut(j) == section(LayerZ(bounds.lo.z, cfg.layerHeight, j));
    }
  }

  /** Every point of every drawn polyline lies inside the guide circle of the canvas. */
  predicate DrawnInside(ls: seq<Layer>, cfg: Settings) {
    forall k, p, m :: 0 <= k < |ls| && 0 <= p < |ls[k].drawing.polylines| && 0 <= m < |ls[k].drawing.polylines[p]| ==>
      DistSq(ls[k].drawing.polylines[p][m], MidPoint(cfg.canvasSize)) <= Sq(BaseRadius(cfg.canvasSize, cfg.margin))
  }

  /** Every point drawn in any written layer lies inside the guide circle. */
  lemma SliceStlToLayersInsideGuideCircle(bounds: Box3, cfg: Settings, section: real -> Option<Section>, sqrt: real -> real)
    requires IsSqrt(sqrt)
    ensures DrawnInside(SliceStlToLayers(bounds, cfg, section, sqrt).layers, cfg)
  {
    var r := SliceStlToLayers(bounds, cfg, section, sqrt);
    var z := MergedZExtent((bounds.lo.z, bounds.hi.z), GuideRods(bounds, Padding));
    if r.layers != [] {
      var n := LayerCount(z.1 - z.0, cfg.layerHeight).value;
      var cut := CutAt(section, z.0, cfg.layerHeight);
      assert r == RunFrom(0, n, cut, Renderer(cfg, sqrt));
      RunFromSound(0, n, cut, Renderer(cfg, sqrt));
      forall k, p, m | 0 <= k < |r.layers| && 0 <= p < |r.layers[k].drawing.polylines|
          && 0 <= m < |r.layers[k].drawing.polylines[p]|
        ensures DistSq(r.layers[k].drawing.polylines[p][m], MidPoint(cfg.canvasSize))
          <= Sq(BaseRadius(cfg.canvasSize, cfg.margin))
      {
        var s := cut(r.layers[k].index).value;
        assert WrittenFor(r.layers[k], cut, Renderer(cfg, sqrt));
        assert RenderLayer(s, cfg.canvasSize, cfg.margin, sqrt) == Success(r.layers[k].drawing);
        RenderedInsideGuideCircle(s, cfg.canvasSize, cfg.margin, sqrt);
      }
    }
  }
}
