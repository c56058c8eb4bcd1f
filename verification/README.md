# STL slicing into layer images — a Dafny model

This project models `slice_stl_to_layers` in `cmd_app.py`, the routine that turns a
triangle mesh into one PNG image per horizontal slice. It covers:

- adding four vertical guide rods whose axes stand 0.01 outside the corners of the
  mesh's XY bounding box. With radius 0.1 each rod also reaches 0.09 into the box on
  both axes, so it can overlap the mesh near a corner. The rods leave the Z extent
  unchanged;
- scheduling `ceil((z_max - z_min) / layer_height)` cut heights `z_min + i * layer_height`;
- for every cut whose section is non-empty:
  - fitting the section's 2D vertices into a square canvas, with the bounding box's
    half-diagonal scaled to the radius of a dashed guide circle;
  - keeping the polylines with at least two points;
  - writing the image as `layer_{i:04d}.png`.

The model is split along the routine's own stages:

| module | file | what it holds |
|---|---|---|
| `Wrappers` | `wrappers.dfy` | `Option` and `Result` |
| `Geometry` | `geometry.dfy` | 2D/3D points, boxes, squared distances, per-axis bounds of a point cloud (`verts.min(0)`, `verts.max(0)`) |
| `Guides` | `guides.dfy` | padded guide corners, the four rods and their effect on the merged mesh's Z extent |
| `Schedule` | `schedule.dfy` | layer count (`int(np.ceil(H / h))`) and cut heights |
| `Naming` | `naming.dfy` | `layer_{i:04d}.png`: decimal digits, zero padding, parsing back, Python string order |
| `Canvas` | `canvas.dfy` | the per-slice transform `(v - center) * scale + C // 2` and the guide circle |
| `Entities` | `entities.dfy` | discretising polyline entities against the vertex list and the `len(pts) < 2` filter |
| `Slicer` | `slicer.dfy` | one layer's drawing, the layer loop and the whole run |

What sits outside the model is passed in as parameters:

- The mesh enters as its bounding box.
- Sectioning enters as a function `section` from a cut height to `Some(section)`, or to
  `None` when the plane misses the mesh.
- The Euclidean norm needs a square root. It is a parameter `sqrt`; the lemmas about
  the canvas require it to be a true non-negative square root (`Canvas.IsSqrt`).
- Writing a file is modelled by the `Layer` record the run produces: its loop index,
  its file name and what is drawn on it.

A run returns the layers written, in order, together with the exception that stopped
it, if any. On an exception the files already written stay on disk, as they do in the
source.

Facts about the code that shape the model:

- every polyline is drawn in black (`cmd_app.py:72`), so a drawing is its guide circle
  and its polylines;
- nothing rejects `margin >= canvas_size / 2` (`cmd_app.py:53`); the guide radius then is
  zero or negative, and the guide-circle statements, made with squared distances, still hold;
- a non-positive layer height is not rejected up front:
  - zero makes `int(np.ceil(inf or nan))` raise at `cmd_app.py:39`, modelled as
    `NonFiniteLayerCount`;
  - a negative height gives an empty `range` at `cmd_app.py:41`, so no layers and no error;
- the image is saved tightly cropped (`cmd_app.py:75`). Cropping happens in the plotting
  library and is not modelled.

## Model

| member | source | states |
|---|---|---|
| Guides.GuideCornersOutsideBox | cmd_app.py:11-22 | the guide corners are, in this order, (x_min-p, y_min-p), (x_max+p, y_min-p), (x_max+p, y_max+p), (x_min-p, y_max+p); for p > 0 each corner lies strictly outside the mesh's XY extent on both axes |
| Geometry.Expand | cmd_app.py:17-22 | padding widens the box by 2p on each axis and keeps its centre |
| Guides.GuideCorners | cmd_app.py:17-22 | its own contract only fixes the count of four corners; the corner list and their position outside the box are stated by Guides.GuideCornersOutsideBox |
| Guides.GuideRodsSpanMesh | cmd_app.py:23-32 | rod k's axis runs from guide corner k at z_min to the same corner at z_max, so every rod is vertical and its Z extent is exactly (z_min, z_max); for p > 0 its axis lies strictly outside the box's XY extent |
| Guides.MergedZExtent | cmd_app.py:34-38 | the merged mesh's Z extent contains the mesh's own extent and every rod's extent |
| Guides.MergedZExtentOfContainedRods | cmd_app.py:34-38 | rods inside [z_min, z_max] leave the merged extent equal to [z_min, z_max] |
| Guides.GuidesKeepZExtent | cmd_app.py:34-38 | z_min and z_max re-read after adding the guide rods equal the mesh's own |
| Schedule.LayerCount | cmd_app.py:39 | the count is missing (the conversion raises) exactly when the layer height is 0; otherwise it is the ceiling of H / h over exact reals: H / h <= n < H / h + 1 |
| Schedule.LayerZ | cmd_app.py:42 | carries no contract of its own; its spacing and range are stated by Schedule.LayerHeightsIncreasing and Schedule.LayerHeightsInRange |
| Schedule.Ceil | cmd_app.py:39 | the result is the least integer not below x: x <= c < x + 1 |
| Schedule.LayerCountCovers | cmd_app.py:39 | for H > 0 and h > 0 the count n is at least 1, n * h >= H and (n - 1) * h < H |
| Schedule.LayerCountFlat | cmd_app.py:39 | a flat mesh (H = 0) gives 0 layers for every non-zero h |
| Schedule.LayerCountNegativeStep | cmd_app.py:39-41 | a negative layer height gives a count <= 0, so the loop runs zero times |
| Schedule.LayerCountSingle | cmd_app.py:39 | for H > 0, a layer height at least H gives exactly one layer |
| Schedule.LayerHeightsIncreasing | cmd_app.py:41-42 | with h > 0 the cut heights strictly increase with the loop index |
| Schedule.LayerHeightsInRange | cmd_app.py:39-42 | every scheduled cut height lies in [z_min, z_min + H) |
| Naming.LayerName | cmd_app.py:74 | carries no contract of its own; its properties are stated by Naming.LayerNameRoundTrip, Naming.LayerNameInjective, Naming.LayerNameLength and Naming.LayerNameOrder |
| Naming.Decimal | cmd_app.py:74 | the decimal rendering of i is a non-empty digit string with no leading zero except for 0 itself |
| Naming.ZeroPad | cmd_app.py:74 | padding to width 4 prepends only zeros, reaches length max(4, len) and keeps the digits as they were (never truncates) |
| Naming.IndexFieldValue | cmd_app.py:74 | the padded index field reads back as i and ends with the decimal digits of i |
| Naming.LayerNameRoundTrip | cmd_app.py:74 | parsing `layer_{i:04d}.png` recovers i |
| Naming.LayerNameInjective | cmd_app.py:74 | distinct loop indices give distinct file names |
| Naming.LayerNameLength | cmd_app.py:74 | a name is "layer_" + the padded field + ".png"; below 10000 every name has length 14 |
| Naming.LayerNameOrder | cmd_app.py:74 | for indices below 10000, i < j exactly when name i sorts before name j as a Python string |
| Naming.LayerNameOrderBreaksAt10000 | cmd_app.py:74 | index 10000 gets a five-digit field (a 15-character name), and that name sorts before the name of index 9999 |
| Geometry.BoundsOf | cmd_app.py:50 | every vertex lies in the per-axis min/max box |
| Geometry.BoundsAttained | cmd_app.py:50 | every bound of that box is the coordinate of some vertex, so the box is the tightest one |
| Canvas.CanvasMid | cmd_app.py:55 | the centre coordinate is the integer n with 2n <= C < 2n + 2, which is Python's floor `C // 2`; for the divisor 2 this agrees with Dafny's Euclidean division, negative C included |
| Canvas.BaseRadius | cmd_app.py:53 | carries no contract of its own; it is `(C - 2 * margin) / 2` with true division, and its meaning is stated by Canvas.FitsInGuideCircle, Canvas.BoxCornersOnGuideCircle and Slicer.DefaultGuideCircle |
| Canvas.ScaleFor | cmd_app.py:53-54 | scale * span = base_radius when span is non-zero, and scale = 1 when span is zero |
| Canvas.FrameFor | cmd_app.py:50-55 | the bounding box's centre is mapped to (C // 2, C // 2) |
| Canvas.Apply | cmd_app.py:55 | carries no contract of its own; its properties are stated by Canvas.ApplyIsSimilarity, Canvas.FrameFor and Canvas.FitsInGuideCircle |
| Canvas.ApplyAllScalesDistances | cmd_app.py:55 | transforming the vertex array scales the squared distance of every pair of vertices by scale^2, so the drawing is a uniformly scaled copy |
| Canvas.HalfDiagonal | cmd_app.py:52 | carries no contract of its own; its properties are stated by Canvas.HalfDiagonalSquared and Canvas.ZeroSpanCollapses |
| Canvas.ApplyIsSimilarity | cmd_app.py:55 | both axes are scaled by the same factor, so squared distances scale by scale^2 |
| Canvas.HalfDiagonalSquared | cmd_app.py:52 | span >= 0 and span^2 = (dx^2 + dy^2) / 4 |
| Canvas.ZeroSpanCollapses | cmd_app.py:50-55 | span is 0 exactly when all vertices coincide, and then every vertex is drawn at the canvas centre |
| Canvas.FitsInGuideCircle | cmd_app.py:50-65 | every transformed vertex lies within the guide circle of radius base_radius about (C // 2, C // 2) |
| Canvas.BoxCornersOnGuideCircle | cmd_app.py:50-65 | when span is non-zero the four bounding-box corners land exactly on the guide circle, and the box's diagonal is drawn with squared length 4 * base_radius^2 |
| Slicer.DiscreteAfterTransform | cmd_app.py:55-68 | discretising the entities against the transformed vertices succeeds exactly when discretising against the raw vertices does, and each point is the transform of the raw point the entity names |
| Entities.Drawable | cmd_app.py:67-72 | at most as many polylines are drawn as there are entities, each with at least two points |
| Entities.DrawableKeepsExactlyLongPolylines | cmd_app.py:67-72 | the drawn polylines are exactly the inputs with at least two points, in their original order and unchanged |
| Slicer.RenderLayer | cmd_app.py:46-72 | no vertices raises, an out-of-range entity index raises, and otherwise the drawing succeeds with the guide circle and only polylines of two or more points |
| Slicer.RenderedPolylines | cmd_app.py:67-72 | the polylines of a drawn layer are the entities with at least two points, in order, with each point being the transformed vertex the entity names |
| Slicer.RenderedInsideGuideCircle | cmd_app.py:50-72 | every point of every drawn polyline lies within the layer's guide circle |
| Slicer.RunFrom | cmd_app.py:41-76 | carries no contract of its own; its behaviour is stated by Slicer.RunFromSound, Slicer.RunFromIncreasing, Slicer.RunFromComplete and Slicer.RunFromStopsAtFailure |
| Slicer.RunFromSound | cmd_app.py:41-76 | each written layer has a scheduled index, a non-empty section at that index, the name made from that index and the drawing of that section |
| Slicer.RunFromIncreasing | cmd_app.py:41-76 | layers are written in strictly increasing index order |
| Slicer.RunFromComplete | cmd_app.py:41-76 | a run without an exception writes a layer for every scheduled index whose section is non-empty, so empty sections only leave gaps in the numbering |
| Slicer.RunFromStopsAtFailure | cmd_app.py:41-76 | a run with an exception stopped at a non-empty section whose drawing raised it, having written every earlier non-empty section and nothing later |
| Slicer.GuideCircle | cmd_app.py:63-65 | carries no contract of its own; it is the circle drawn about (C // 2, C // 2) with radius base_radius, and its meaning is stated by Slicer.DefaultGuideCircle, Slicer.RenderedInsideGuideCircle and Slicer.SliceStlToLayersInsideGuideCircle |
| Slicer.CutAt | cmd_app.py:42-43 | carries no contract of its own; loop index i cuts the mesh at z_min + i * layer_height, and which cuts are written is stated by Slicer.ScheduledRunSound and Slicer.SliceStlToLayersComplete |
| Slicer.DefaultGuideCircle | cmd_app.py:7 | with the default canvas size 1024 and margin 50, the guide circle is centred at (512, 512) with radius 462 |
| Slicer.SliceStlToLayers | cmd_app.py:7-76 | a zero layer height raises before anything is written |
| Slicer.SliceStlToLayersUnfold | cmd_app.py:34-41 | after adding the rods, the run is the layer loop over [0, ceil(H / h)) cut upward from the mesh's own z_min |
| Slicer.ScheduledRunSound | cmd_app.py:39-76 | for any extent [z_min, z_max] and h > 0, the loop over the ceil(H / h) scheduled indices writes only scheduled, non-empty, correctly named layers, in increasing index order, with cut heights in [z_min, z_max), pairwise distinct names, and names in string order when at most 10000 indices are scheduled |
| Slicer.SliceStlToLayersSound | cmd_app.py:38-76 | with h > 0 every written layer comes from a scheduled index, with its cut height in [z_min, z_max); indices increase; names are pairwise distinct; and with at most 10000 scheduled indices the names sort as strings in the order written |
| Slicer.NothingScheduled | cmd_app.py:38-45 | with a non-zero layer height, a flat mesh or a negative layer height writes nothing and raises nothing |
| Slicer.SliceStlToLayersComplete | cmd_app.py:41-76 | a run without an exception wrote a layer for every scheduled height whose section is non-empty |
| Slicer.SliceStlToLayersInsideGuideCircle | cmd_app.py:41-72 | in every written layer every drawn point lies inside the guide circle |

## Left out

- Loading the STL file, the cylinder meshes and `trimesh.util.concatenate` are not modelled. The mesh is its bounding box, a rod is its axis segment, radius and section count, and the merged mesh's Z extent is the smallest bottom and largest top of the parts. Rod caps sit at the segment ends.
- Plane sectioning (`mesh.section`) and `to_2D` are a parameter `section` of the run. The projection's own rotation of the plane is therefore outside the model.
- Only line (polyline) entities are modelled. `discrete` is an index lookup, and arcs and curves, which the library samples into points, are not modelled.
- `np.linalg.norm` is the square-root parameter `sqrt`. IEEE-754 rounding is not modelled, except that a zero layer height raises: all arithmetic is over exact reals.
- Schedule.LayerCount: is the exact ceiling of `H / h`, not the ceiling of the rounded float64 quotient. The two can differ: with `H = 1.0` and `h = 0.3333333333333333` the float quotient is exactly `3.0`, so the program cuts 3 layers where the model schedules 4.
- Schedule.LayerCount: returns a count for every non-zero `h`, but a float64 quotient that overflows to infinity (`H = 1.0`, `h = 5e-324`) makes `int(np.ceil(...))` at cmd_app.py:39 raise. Overflow is not modelled.
- Plotting and saving the image (`plt.subplots`, axis limits, line style, colour, `savefig` with tight cropping, `plt.close`) are not modelled. A written layer is the record of its name, its guide circle and its polylines.
- `os.makedirs` and `os.path.join` are not modelled: the output directory is assumed to exist, and a file is identified by its name.
- `main` (the tkinter dialogs and the console prompt for the layer height) is not modelled. `app/layers/views.py` is not part of this model.
- Canvas.FitsInGuideCircle: states containment with squared distances and assumes a true square root, so rounding of `norm` and of the transform is not covered.
- Naming.LayerNameOrder: stated only for indices below 10000. From 10000 on the field has five digits and string order no longer follows numeric order (Naming.LayerNameOrderBreaksAt10000).
- Slicer.SliceStlToLayersSound: the name-order conjunct is stated only when at most 10000 layers are scheduled, for the same reason.
