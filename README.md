# Pixel-filling routines of a software rasterizer, in Dafny

This project models `impl ColorBuffer` in `src/drawing.rs` of a CPU-only 3D
renderer: the routines that turn a dot grid, a rectangle, a line, a triangle
wireframe and a filled or "textured" triangle into writes of integer-addressed
pixels. Each routine is an imperative method on the class
`Drawing.ColorBuffer`, which holds a `width x height` array of colours. Every
routine is proved to set exactly one set of pixels to their colours and to
leave every other pixel unchanged. That pixel set is a specification function
or predicate (`Line.LinePixels`, `Line.WireframePixels`, `Fill.Covers`). The
lemmas beside them prove what the routines promise: how many pixels a line
plots, that it has no gaps, which scanlines a triangle covers, that every
corner is filled, and that everything stays inside the buffer.

Modules, one per concern:

- `Numeric` (Numeric.dfy): the `f32` operations the code uses, on exact reals.
  `f32::round` is `Round` (nearest, ties away from zero). A cast `as usize` is
  `AsUsize`: it truncates toward zero and saturates negative values to 0.
- `Types` (Types.dfy): `Color`, `Vec2`, `Tex2`, `Triangle`, `Texture` and the
  integer `Point`.
- `Line` (Line.dfy): the DDA pixel sequence of `draw_line`, the wireframe of
  `draw_triangle`, and their lemmas.
- `Fill` (Fill.dfy): the scanline coverage of `draw_filled_triangle` and
  `draw_textured_triangle`: floored and sorted vertices, edge intercepts,
  per-row spans, and their lemmas.
- `Drawing` (Drawing.dfy): `class ColorBuffer` with `Set` and the drawing
  methods, plus the in-place sort of the three vertices.

The Rust bodies of `ColorBuffer::set`, `ColorBuffer::new`, `width()` and
`height()` lie outside `src/drawing.rs`. `Set`, `Width`, `Height` and the
constructor stand in for them with the contracts stated here. `Set` requires
an in-bounds pixel and changes only that cell. Because of that, each
drawing method requires exactly that every pixel it would write lies in the
buffer (`LineInBounds`, `TriangleInBounds`). Lemmas give simple sufficient
conditions for these: `Line.EndpointsInBounds`, `Line.WireframeInBounds` and
`Fill.CornersInBounds`. The constructor takes a background colour.

`draw_filled_triangle` and `draw_textured_triangle` run the same loops and
differ only in the colour they write. Both call `FillTriangle` with a `Paint`:
either one solid colour or the fixed black/green checkerboard. The two passes
are the methods `ScanFlatBottom` and `ScanFlatTop`, and the innermost loop is
`FillSpan`.

What the code does, and the model with it:

- `draw_line` loops `0..side_length`. It plots `side_length` pixels, never the
  end point, and nothing at all when the endpoints coincide.
- `draw_textured_triangle` never reads its texture. It paints a black/green
  checkerboard over the same pixels `draw_filled_triangle` fills.
- None of these routines performs a depth test.

## Model

| member | source | states |
|---|---|---|
| Numeric.Round | src/drawing.rs:39 | `f32::round`: the result is within 1/2 of the value, and halfway cases go away from zero |
| Numeric.AsUsize | src/drawing.rs:105 | `as usize`: for a non-negative value, the largest integer not above it; 0 for a negative one |
| Numeric.Abs | src/drawing.rs:30 | `isize::abs` as in `dx.abs()` and `dy.abs()`: `n` or `-n`, whichever is non-negative; also the `.abs()` of an integral `f32` difference at lines 86, 92, 113 and 119 |
| Numeric.RoundStep | src/drawing.rs:39-41 | rounding two non-negative values at most 1 apart gives integers at most 1 apart |
| Numeric.PixelCoordBetween | src/drawing.rs:39 | a value between two non-negative integers rounds and casts to a pixel between them |
| Numeric.PixelCoord | src/drawing.rs:39 | definition: `v.round() as usize`, that is `AsUsize(Round(v))` |
| Numeric.Sign | src/drawing.rs:27-33 | the direction of a coordinate difference: `Sign(n) * n == abs(n)`, and 0 exactly for a zero difference |
| Line.SideLength | src/drawing.rs:27-30 | `side_length` is the larger of `abs(dx)` and `abs(dy)` |
| Line.Increment | src/drawing.rs:32-33 | definition: `dx as f32 / side_length as f32`, and 0 when `side_length` is 0 (the loop then runs no step, so the quotient is never used) |
| Line.Coord | src/drawing.rs:35-41 | definition: the accumulator after `i` steps of `x += x_inc` from `x0 as f32`, as the exact value `x0 + i * x_inc` |
| Line.LinePoint | src/drawing.rs:39 | definition: the pixel `(x.round() as usize, y.round() as usize)` written in step `i` |
| Line.LinePixels | src/drawing.rs:38-39 | definition: the pixels written in steps `0..side_length`, in order |
| Line.CoordNext | src/drawing.rs:40-41 | one more `x += x_inc` step moves the exact accumulator by one increment |
| Line.CoordBetween | src/drawing.rs:32-41 | the accumulator stays between the two endpoints for every step up to `side_length` |
| Line.IncrementBound | src/drawing.rs:32-33 | each per-step increment lies in [-1, 1] |
| Line.MajorCoord | src/drawing.rs:32-41 | on the major axis the increment is exactly plus or minus 1, so step `i` lands on `start + sign(d) * i` |
| Line.MinorStep | src/drawing.rs:32-41 | on the minor axis consecutive rounded pixels are at most 1 apart |
| Line.LineLength | src/drawing.rs:30-38 | a line plots exactly `max(abs(dx), abs(dy))` pixels, and none exactly when the endpoints coincide |
| Line.LineStart | src/drawing.rs:35-39 | the first plotted pixel is `(x0, y0)` |
| Line.LineMajorAxis | src/drawing.rs:30-41 | pixel `i` is exactly `i` steps from the start on the major axis |
| Line.LineSteps | src/drawing.rs:30-41 | no gaps: consecutive pixels differ by exactly 1, towards the end point, on the major axis and by at most 1 on the minor axis |
| Line.LineDistinct | src/drawing.rs:38-41 | the plotted pixels are pairwise distinct |
| Line.LineExcludesEnd | src/drawing.rs:38 | the end point `(x1, y1)` is never plotted |
| Line.LineWithinBox | src/drawing.rs:30-41 | every plotted pixel lies in the bounding box of the endpoints |
| Line.EndpointsInBounds | src/drawing.rs:26-42 | endpoints inside the buffer keep the whole line inside it |
| Line.WireframeCorners | src/drawing.rs:45-71 | the three lines plot every truncated corner, unless all three corners coincide, in which case they plot nothing |
| Line.WireframeInBounds | src/drawing.rs:45-71 | corners inside the buffer keep all three lines inside it |
| Line.Truncate | src/drawing.rs:48-51 | definition: a corner cast `as usize` coordinate by coordinate, as passed to `draw_line` |
| Line.WireframePixels | src/drawing.rs:45-71 | definition: the pixels of the lines A to B, then B to C, then C to A between the truncated corners |
| Fill.FloorPoint | src/drawing.rs:76-80 | `floor()` of each coordinate: the largest integer not above it |
| Fill.SortedByY | src/drawing.rs:82 | the three vertices come out ascending by y and are a rearrangement of the input |
| Fill.Vertices | src/drawing.rs:76-82 | v0, v1, v2 are the floored corners sorted ascending by y |
| Fill.RearrangesMembers | src/drawing.rs:82 | sorting keeps exactly the three vertices |
| Fill.BottomSpan | src/drawing.rs:99-105 | a flat-bottom row's span, from the truncated smaller intercept to the truncated larger one, is never empty |
| Fill.TopSpan | src/drawing.rs:126-132 | a flat-top row's span, ordered after truncation, is never empty |
| Fill.InverseSlope | src/drawing.rs:85-95 | definition: `(to.x - from.x) / abs(to.y - from.y)`, and 0 for a horizontal edge; the same expression at lines 112-122 |
| Fill.Intercept | src/drawing.rs:99-100 | definition: `through.x + (y as f32 - through.y) * slope`; the same expression at lines 126-127 |
| Fill.Row | src/drawing.rs:98 | definition: a vertex's y cast `as usize`, the bound of the row loop; the same cast at line 125 |
| Fill.InBottom | src/drawing.rs:97-108 | definition: the flat-bottom pass runs when `v1.y - v0.y != 0`, over rows `v0.y as usize..=v1.y as usize`, and fills `BottomSpan` on each |
| Fill.InTop | src/drawing.rs:124-135 | definition: the flat-top pass runs when `v2.y - v1.y != 0`, over rows `v1.y as usize..=v2.y as usize`, and fills `TopSpan` on each |
| Fill.Covers | src/drawing.rs:97-135 | definition: a pixel is filled by the flat-bottom pass or the flat-top pass over the floored, sorted vertices |
| Fill.EdgeIntercept | src/drawing.rs:99-100 | on an edge the intercept stays between the endpoints' x, and the edge gives the same intercept taken through either endpoint |
| Fill.NonnegativeVertices | src/drawing.rs:76-82 | non-negative corners floor and sort to non-negative vertices |
| Fill.BottomRows | src/drawing.rs:97-108 | the flat-bottom pass fills only when `v1.y != v0.y`, only rows `v0.y..=v1.y`, and at least one pixel on each of them |
| Fill.TopRows | src/drawing.rs:124-135 | the flat-top pass fills only when `v2.y != v1.y`, only rows `v1.y..=v2.y`, and at least one pixel on each of them |
| Fill.CoveredRows | src/drawing.rs:97-135 | no row outside `[v0.y, v2.y]` is touched, and three corners on one row fill nothing |
| Fill.TopVertexCovered | src/drawing.rs:97-135 | the top vertex lies in its scanline's span |
| Fill.MiddleVertexCovered | src/drawing.rs:97-135 | the middle vertex lies in its scanline's span |
| Fill.BottomVertexCovered | src/drawing.rs:97-135 | the bottom vertex lies in its scanline's span |
| Fill.CornersCovered | src/drawing.rs:74-136 | unless all three floored corners share a row, every floored corner is filled |
| Fill.CoveredWithinBox | src/drawing.rs:97-135 | every filled pixel lies in the bounding box of the floored corners |
| Fill.CornersInBounds | src/drawing.rs:74-136 | corners inside the buffer keep every filled pixel inside it |
| Fill.RightTriangleExample | src/drawing.rs:74-136 | the triangle (0,0), (4,0), (0,4) fills exactly the 15 pixels with `0 <= y <= 4` and `0 <= x <= 4 - y` |
| Drawing.SortByY | src/drawing.rs:82 | the in-place sort leaves the array equal to `SortedByY` of its old contents |
| Drawing.OnGridLine | src/drawing.rs:11 | definition: the guard of each write, `x % 10 == 0` or `y % 10 == 0` |
| Drawing.Shade | src/drawing.rs:177 | definition: a solid colour, or black where `x % 2 == 0 && y % 2 == 0` and (0, 0xFF, 0) elsewhere; the same expression at line 204 |
| Drawing.ColorBuffer.Set | src/drawing.rs:106 | `set(x, y, color)` as the routines call it: pixel (x, y) gets `color` and every other pixel is unchanged; the caller keeps (x, y) inside the buffer |
| Drawing.ColorBuffer.Width | src/drawing.rs:9 | definition: `self.width()`, the array's first dimension, the bound of the x loop |
| Drawing.ColorBuffer.Height | src/drawing.rs:10 | definition: `self.height()`, the array's second dimension, the bound of the y loop |
| Drawing.ColorBuffer.DrawGrid | src/drawing.rs:8-16 | colour (0x55, 0x55, 0x55) lands exactly on the pixels whose x and y are both multiples of 10; every other pixel is unchanged |
| Drawing.ColorBuffer.DrawRect | src/drawing.rs:18-24 | exactly the pixels `(x + xi, y + yi)` with `xi < width` and `yi < height` get `color`; every other pixel is unchanged |
| Drawing.ColorBuffer.DrawLine | src/drawing.rs:26-43 | exactly the pixels of `LinePixels` get `color`, pixel `i` being `(round(x0 + i*dx/s), round(y0 + i*dy/s))`; every other pixel is unchanged |
| Drawing.ColorBuffer.DrawTriangle | src/drawing.rs:45-72 | the effect of the lines A to B, B to C and C to A between the truncated corners: their pixels get `color`, every other pixel is unchanged |
| Drawing.ColorBuffer.FillSpan | src/drawing.rs:105-107 | exactly `xStart..=xEnd` on row `y` gets the paint; every other pixel is unchanged |
| Drawing.ColorBuffer.ScanFlatBottom | src/drawing.rs:84-109 | exactly the flat-bottom pixels get the paint; every other pixel is unchanged |
| Drawing.ColorBuffer.ScanFlatTop | src/drawing.rs:111-136 | exactly the flat-top pixels get the paint; every other pixel is unchanged |
| Drawing.ColorBuffer.FillTriangle | src/drawing.rs:74-137 | exactly the pixels `Covers` names get the paint; every other pixel is unchanged |
| Drawing.ColorBuffer.DrawFilledTriangle | src/drawing.rs:74-137 | exactly the covered pixels get `color`; every other pixel is unchanged |
| Drawing.ColorBuffer.DrawTexturedTriangle | src/drawing.rs:139-208 | the same pixels as `DrawFilledTriangle`: black where x and y are both even, (0, 0xFF, 0) elsewhere; the texture is not read; every other pixel is unchanged |

## Left out

- Floating point: every `f32` value is an exact real. This hides three things. The DDA accumulator `x += x_inc` never drifts from `x0 + i * x_inc`. Intercepts at a vertex's row equal the vertex's x exactly. There is no NaN.
- Casts `as usize` do not model saturation at `usize::MAX`. The `usize` additions `x + xi` in `draw_rect` are unbounded integers. The `as isize` casts of `draw_line` (src/drawing.rs:27-28) do not model wrap-around above `isize::MAX`, and its `as f32` casts (src/drawing.rs:32-36) are exact, with no rounding of large integers. None of these cases arises while `LineInBounds` or the other in-bounds requirements hold for a buffer of realistic size.
- The Rust bodies of `ColorBuffer::set`, `ColorBuffer::new`, `width()` and `height()`, and the original pixel storage, lie outside `src/drawing.rs`; `Set`, the constructor, `Width` and `Height` stand in for them. The buffer is an `array2<Color>` indexed `[x, y]`. `Set` requires an in-bounds pixel, because what the original does out of bounds is not visible.
- Fill.SortedByY: its contract states that the result is sorted and a rearrangement of the input. It does not state that the sort is stable, as `sort_by` is. The definition keeps equal keys in input order.
- Fill.CoveredRows, like `CornersCovered`, `CoveredWithinBox`, `BottomRows` and `TopRows`, assumes non-negative corners. For negative corners the saturating casts still define `Covers`, and `FillTriangle` is proved against it, but no lemma describes that case.
- `draw_textured_triangle` sorts `Vertex` records that carry texture coordinates. The texture coordinates are never read, so the model sorts positions only.
- `Triangle` holds only the corner positions and texture coordinates. Any other fields of `Triangle` are not part of this model.
- Depth testing, texture sampling, geometry preparation (`prepare_triangles`), render-mode dispatch (`render`) and buffer clearing are not part of this model.
- `src/main.rs` (windowing, input, frame timing), `src/scene/reader.rs` (scene and asset loading) and `src/mesh.rs` (a plain data record) are I/O or data with no drawing behaviour.
