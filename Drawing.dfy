/** `ColorBuffer` and the pixel-filling routines of `drawing.rs`. Every
    routine writes through `Set` and is specified by the set of pixels it
    changes and the colour each of them gets; every other pixel keeps its
    colour. */
module Drawing {
  import opened Numeric
  import opened Types
  import opened Line
  import opened Fill

  /** The grey of the background dot grid. */
  const GridColor := Color(0x55, 0x55, 0x55)

  /** The two colours of the checkerboard `draw_textured_triangle` paints. */
  const Black := Color(0, 0, 0)
  const Green := Color(0, 0xFF, 0)

  /** The test `draw_grid` applies before each write. */
  predicate OnGridLine(x: nat, y: nat)
  {
    x % 10 == 0 || y % 10 == 0
  }

  /** How a scan-converted triangle is coloured: one colour throughout, or the
      checkerboard that stands in for texture sampling. */
  datatype Paint = Solid(color: Color) | Checkerboard

  /** The colour `paint` gives pixel (x, y). */
  function Shade(paint: Paint, x: nat, y: nat): Color
  {
    match paint
    case Solid(c) => c
    case Checkerboard => if x % 2 == 0 && y % 2 == 0 then Black else Green
  }

  /** `vertices.sort_by(|a, b| a.y.partial_cmp(&b.y))` on the three floored
      corners, in place. */
  method SortByY(v: array<Point>)
    requires v.Length == 3
    modifies v
    ensures v[..] == SortedByY(old(v[0]), old(v[1]), old(v[2]))
  {
    if v[1].y < v[0].y {
      v[0], v[1] := v[1], v[0];
    }
    if v[2].y < v[1].y {
      v[1], v[2] := v[2], v[1];
      if v[1].y < v[0].y {
        v[0], v[1] := v[1], v[0];
      }
    }
  }

  /** A `width` x `height` grid of colours addressed by integer (x, y). */
  class ColorBuffer {
    const pixels: array2<Color>

    function Width(): nat { pixels.Length0 }

    function Height(): nat { pixels.Length1 }

    constructor (width: nat, height: nat, background: Color)
      ensures Width() == width && Height() == height && fresh(pixels)
      ensures forall x, y :: 0 <= x < width && 0 <= y < height ==> pixels[x, y] == background
    {
      pixels := new Color[width, height]((x, y) => background);
    }

    /** Writes one pixel; the caller keeps (x, y) inside the buffer. */
    method Set(x: nat, y: nat, color: Color)
      requires x < Width() && y < Height()
      modifies pixels
      ensures pixels[x, y] == color
      ensures forall px, py :: 0 <= px < Width() && 0 <= py < Height() && (px != x || py != y) ==>
        pixels[px, py] == old(pixels[px, py])
    {
      pixels[x, y] := color;
    }

    /** `draw_grid`: a grey dot at every pixel whose x and y are both multiples
        of 10. */
    method DrawGrid()
      modifies pixels
      ensures forall x, y :: 0 <= x < Width() && 0 <= y < Height() ==>
        pixels[x, y] == if x % 10 == 0 && y % 10 == 0 then GridColor else old(pixels[x, y])
    {
      var x := 0;
      while x < Width()
        invariant x % 10 == 0
        invariant forall px, py :: 0 <= px < Width() && 0 <= py < Height() ==>
          pixels[px, py] == if px % 10 == 0 && py % 10 == 0 && px < x then GridColor else old(pixels[px, py])
      {
        var y := 0;
        while y < Height()
          invariant y % 10 == 0
          invariant forall px, py :: 0 <= px < Width() && 0 <= py < Height() ==>
            pixels[px, py] ==
              if px % 10 == 0 && py % 10 == 0 && (px < x || (px == x && py < y)) then GridColor
              else old(pixels[px, py])
        {
          // Under step_by(10) this test always holds.
          assert OnGridLine(x, y);
          if OnGridLine(x, y) {
            Set(x, y, GridColor);
          }
          y := y + 10;
        }
        x := x + 10;
      }
    }

    /** `draw_rect`: fills the `width` x `height` rectangle whose top-left
        pixel is (x, y). */
    method DrawRect(x: nat, y: nat, width: nat, height: nat, color: Color)
      requires width == 0 || height == 0 || (x + width <= Width() && y + height <= Height())
      modifies pixels
      ensures forall px, py :: 0 <= px < Width() && 0 <= py < Height() ==>
        pixels[px, py] ==
          if x <= px < x + width && y <= py < y + height then color else old(pixels[px, py])
    {
      for xi := 0 to width
        invariant forall px, py :: 0 <= px < Width() && 0 <= py < Height() ==>
          pixels[px, py] ==
            if x <= px < x + xi && y <= py < y + height then color else old(pixels[px, py])
      {
        for yi := 0 to height
          invariant forall px, py :: 0 <= px < Width() && 0 <= py < Height() ==>
            pixels[px, py] ==
              if (x <= px < x + xi && y <= py < y + height) || (px == x + xi && y <= py < y + yi) then color
              else old(pixels[px, py])
        {
          Set(x + xi, y + yi, color);
        }
      }
    }

    /** `draw_line`: the DDA walk from (x0, y0) towards (x1, y1), plotting the
        rounded accumulator before each of `side_length` steps. */
    method DrawLine(x0: nat, y0: nat, x1: nat, y1: nat, color: Color)
      requires LineInBounds(Width(), Height(), x0, y0, x1, y1)
      modifies pixels
      ensures forall px, py :: 0 <= px < Width() && 0 <= py < Height() ==>
        pixels[px, py] == if Point(px, py) in LinePixels(x0, y0, x1, y1) then color else old(pixels[px, py])
    {
      var dx := x1 - x0;
      var dy := y1 - y0;
      var sideLength := if Abs(dx) >= Abs(dy) then Abs(dx) else Abs(dy);
      // `draw_line` divides even when sideLength is 0; the quotient is then never used.
      var xInc := if sideLength == 0 then 0.0 else dx as real / sideLength as real;
      var yInc := if sideLength == 0 then 0.0 else dy as real / sideLength as real;
      var x := x0 as real;
      var y := y0 as real;
      ghost var line := LinePixels(x0, y0, x1, y1);
      for i := 0 to sideLength
        invariant x == Coord(x0, dx, sideLength, i) && y == Coord(y0, dy, sideLength, i)
        invariant forall px, py :: 0 <= px < Width() && 0 <= py < Height() ==>
          pixels[px, py] == if Point(px, py) in line[..i] then color else old(pixels[px, py])
      {
        assert line[i] == Point(PixelCoord(x), PixelCoord(y));
        assert line[i] in line;
        Set(PixelCoord(x), PixelCoord(y), color);
        assert line[..i + 1] == line[..i] + [line[i]];
        CoordNext(x0, dx, sideLength, i);
        CoordNext(y0, dy, sideLength, i);
        x := x + xInc;
        y := y + yInc;
      }
      assert line[..sideLength] == line;
    }

    /** `draw_triangle`: the wireframe, as three lines A to B, B to C and C to
        A between the corners cast `as usize`. */
    method DrawTriangle(t: Triangle, color: Color)
      requires var a, b, c := Truncate(t.points[0]), Truncate(t.points[1]), Truncate(t.points[2]);
        LineInBounds(Width(), Height(), a.x, a.y, b.x, b.y)
        && LineInBounds(Width(), Height(), b.x, b.y, c.x, c.y)
        && LineInBounds(Width(), Height(), c.x, c.y, a.x, a.y)
      modifies pixels
      ensures forall px, py :: 0 <= px < Width() && 0 <= py < Height() ==>
        pixels[px, py] == if Point(px, py) in WireframePixels(t) then color else old(pixels[px, py])
    {
      DrawLine(AsUsize(t.points[0].x), AsUsize(t.points[0].y), AsUsize(t.points[1].x), AsUsize(t.points[1].y), color);
      DrawLine(AsUsize(t.points[1].x), AsUsize(t.points[1].y), AsUsize(t.points[2].x), AsUsize(t.points[2].y), color);
      DrawLine(AsUsize(t.points[2].x), AsUsize(t.points[2].y), AsUsize(t.points[0].x), AsUsize(t.points[0].y), color);
    }
  
    /** The innermost loop of both passes: paints `xStart..=xEnd` on row `y`. */
    method FillSpan(y: nat, xStart: nat, xEnd: nat, paint: Paint)
      requires xStart <= xEnd < Width() && y < Height()
      modifies pixels
      ensures forall px, py :: 0 <= px < Width() && 0 <= py < Height() ==>
        pixels[px, py] == if py == y && xStart <= px <= xEnd then Shade(paint, px, py) else old(pixels[px, py])
    {
      for x := xStart to xEnd + 1
        invariant forall px, py :: 0 <= px < Width() && 0 <= py < Height() ==>
          pixels[px, py] == if py == y && xStart <= px < x then Shade(paint, px, py) else old(pixels[px, py])
      {
        Set(x, y, Shade(paint, x, y));
      }
    }

    /** The flat-bottom pass over the sorted vertices v0, v1, v2: rows
        v0.y..=v1.y, run only when v1.y differs from v0.y. */
    method ScanFlatBottom(v0: Point, v1: Point, v2: Point, paint: Paint)
      requires v0.y <= v1.y <= v2.y
      requires forall px, py :: InBottom([v0, v1, v2], px, py) ==> px < Width() && py < Height()
      modifies pixels
      ensures forall px, py :: 0 <= px < Width() && 0 <= py < Height() ==>
        pixels[px, py] == if InBottom([v0, v1, v2], px, py) then Shade(paint, px, py) else old(pixels[px, py])
    {
      ghost var v := [v0, v1, v2];
      var slope1 := InverseSlope(v0, v1);
      var slope2 := InverseSlope(v0, v2);
      if v1.y - v0.y != 0 {
        for y := AsUsize(v0.y as real) to AsUsize(v1.y as real) + 1
          invariant forall px, py :: 0 <= px < Width() && 0 <= py < Height() ==>
            pixels[px, py] == if InBottom(v, px, py) && py < y then Shade(paint, px, py) else old(pixels[px, py])
        {
          var x0 := Intercept(v1, y, slope1);
          var x1 := Intercept(v0, y, slope2);
          var xStart := if x0 < x1 then x0 else x1;
          var xEnd := if x1 > x0 then x1 else x0;
          assert BottomSpan(v, y) == Span(AsUsize(xStart), AsUsize(xEnd));
          assert InBottom(v, AsUsize(xEnd), y);
          FillSpan(y, AsUsize(xStart), AsUsize(xEnd), paint);
        }
      }
    }

    /** The flat-top pass over the sorted vertices v0, v1, v2: rows
        v1.y..=v2.y, run only when v2.y differs from v1.y. */
    method ScanFlatTop(v0: Point, v1: Point, v2: Point, paint: Paint)
      requires v0.y <= v1.y <= v2.y
      requires forall px, py :: InTop([v0, v1, v2], px, py) ==> px < Width() && py < Height()
      modifies pixels
      ensures forall px, py :: 0 <= px < Width() && 0 <= py < Height() ==>
        pixels[px, py] == if InTop([v0, v1, v2], px, py) then Shade(paint, px, py) else old(pixels[px, py])
    {
      ghost var v := [v0, v1, v2];
      var slope1 := InverseSlope(v1, v2);
      var slope2 := InverseSlope(v0, v2);
      if v2.y - v1.y != 0 {
        for y := AsUsize(v1.y as real) to AsUsize(v2.y as real) + 1
          invariant forall px, py :: 0 <= px < Width() && 0 <= py < Height() ==>
            pixels[px, py] == if InTop(v, px, py) && py < y then Shade(paint, px, py) else old(pixels[px, py])
        {
          var x0 := Intercept(v1, y, slope1);
          var x1 := Intercept(v0, y, slope2);
          var xStart := if x0 < x1 then AsUsize(x0) else AsUsize(x1);
          var xEnd := if x1 > x0 then AsUsize(x1) else AsUsize(x0);
          assert TopSpan(v, y) == Span(xStart, xEnd);
          assert InTop(v, xEnd, y);
          FillSpan(y, xStart, xEnd, paint);
        }
      }
    }

    /** The scan conversion shared by `draw_filled_triangle` and
        `draw_textured_triangle`: floor and sort the corners, then run the
        flat-bottom pass and the flat-top pass. */
    method FillTriangle(t: Triangle, paint: Paint)
      requires TriangleInBounds(t, Width(), Height())
      modifies pixels
      ensures forall px, py :: 0 <= px < Width() && 0 <= py < Height() ==>
        pixels[px, py] == if Covers(t, px, py) then Shade(paint, px, py) else old(pixels[px, py])
    {
      // Integer vertices, then ascending y.
      var vertices := new Point[3];
      vertices[0], vertices[1], vertices[2] := FloorPoint(t.points[0]), FloorPoint(t.points[1]), FloorPoint(t.points[2]);
      SortByY(vertices);
      var v0, v1, v2 := vertices[0], vertices[1], vertices[2];
      assert [v0, v1, v2] == Vertices(t);
      forall px, py | InBottom([v0, v1, v2], px, py) || InTop([v0, v1, v2], px, py)
        ensures px < Width() && py < Height()
      {
        assert Covers(t, px, py);
      }
      ScanFlatBottom(v0, v1, v2, paint);
      ScanFlatTop(v0, v1, v2, paint);
    }

    /** `draw_filled_triangle`: every pixel the scan conversion covers gets
        `color`. */
    method DrawFilledTriangle(t: Triangle, color: Color)
      requires TriangleInBounds(t, Width(), Height())
      modifies pixels
      ensures forall px, py :: 0 <= px < Width() && 0 <= py < Height() ==>
        pixels[px, py] == if Covers(t, px, py) then color else old(pixels[px, py])
    {
      FillTriangle(t, Solid(color));
    }

    /** `draw_textured_triangle`: the same pixels as `draw_filled_triangle`,
        painted as a checkerboard, black where x and y are both even and green
        elsewhere; `texture` is never read. */
    method DrawTexturedTriangle(t: Triangle, texture: Texture)
      requires TriangleInBounds(t, Width(), Height())
      modifies pixels
      ensures forall px, py :: 0 <= px < Width() && 0 <= py < Height() ==>
        pixels[px, py] ==
          if Covers(t, px, py) then (if px % 2 == 0 && py % 2 == 0 then Black else Green)
          else old(pixels[px, py])
    {
      FillTriangle(t, Checkerboard);
    }
  }
}
