/** The pixels a DDA line visits (`ColorBuffer::draw_line`) and the
    wireframe made of three such lines (`ColorBuffer::draw_triangle`). */
module Line {
  import opened Numeric
  import opened Types

  /** `side_length`: the larger of |dx| and |dy|; also the number of steps. */
  function SideLength(x0: nat, y0: nat, x1: nat, y1: nat): (s: nat)
    ensures s >= Abs(x1 - x0) && s >= Abs(y1 - y0)
    ensures s == Abs(x1 - x0) || s == Abs(y1 - y0)
  {
    var dx, dy := x1 - x0, y1 - y0;
    if Abs(dx) >= Abs(dy) then Abs(dx) else Abs(dy)
  }

  /** The per-step increment `d / side_length`. `draw_line` divides even when
      `side_length` is 0; the quotient is then never used, so 0 stands for it. */
  function Increment(d: int, s: nat): real
  {
    if s == 0 then 0.0 else d as real / s as real
  }

  /** The accumulator after `i` increments, in exact arithmetic. */
  function Coord(start: nat, d: int, s: nat, i: nat): real
  {
    start as real + i as real * Increment(d, s)
  }

  /** The `i`-th pixel the line from (x0, y0) to (x1, y1) plots. */
  function LinePoint(x0: nat, y0: nat, x1: nat, y1: nat, i: nat): Point
  {
    var s := SideLength(x0, y0, x1, y1);
    Point(PixelCoord(Coord(x0, x1 - x0, s, i)), PixelCoord(Coord(y0, y1 - y0, s, i)))
  }

  /** Every pixel the line plots, in plotting order. */
  function LinePixels(x0: nat, y0: nat, x1: nat, y1: nat): seq<Point>
  {
    seq(SideLength(x0, y0, x1, y1), i requires 0 <= i => LinePoint(x0, y0, x1, y1, i))
  }

  /** Every pixel of the line lies inside a `w` x `h` buffer. */
  ghost predicate LineInBounds(w: nat, h: nat, x0: nat, y0: nat, x1: nat, y1: nat)
  {
    forall p :: p in LinePixels(x0, y0, x1, y1) ==> p.x < w && p.y < h
  }

  /** Along the major axis the increment is exactly one pixel. */
  lemma MajorCoord(start: nat, d: int, s: nat, i: nat)
    requires s == Abs(d) && i < s && start + d >= 0
    ensures PixelCoord(Coord(start, d, s, i)) == start + Sign(d) * i
  {
    if d > 0 {
      DivSelf(d as real);
      assert Increment(d, s) == 1.0;
    } else {
      DivSelf(s as real);
      assert Increment(d, s) == -1.0;
    }
    assert Coord(start, d, s, i) == (start + Sign(d) * i) as real;
    PixelCoordOfInt(start + Sign(d) * i);
  }

  /** The accumulator never leaves the range between the two endpoints. */
  lemma CoordBetween(start: nat, d: int, s: nat, i: nat)
    requires Abs(d) <= s && i <= s && start + d >= 0
    ensures Min(start, start + d) as real <= Coord(start, d, s, i) <= Max(start, start + d) as real
  {
    if s > 0 {
      LerpBetween(start as real, d as real, i as real, s as real);
    }
  }

  /** The increment never exceeds one pixel in either direction. */
  lemma IncrementBound(d: int, s: nat)
    requires Abs(d) <= s
    ensures -1.0 <= Increment(d, s) <= 1.0
  {
    if s > 0 {
      DivBound(d as real, s as real);
    }
  }

  /** One more step moves the accumulator by exactly one increment. */
  lemma CoordNext(start: nat, d: int, s: nat, i: nat)
    ensures Coord(start, d, s, i + 1) == Coord(start, d, s, i) + Increment(d, s)
  {
    var inc := Increment(d, s);
    assert (i + 1) as real * inc == i as real * inc + inc;
  }

  /** Along the minor axis consecutive pixels are at most one apart. */
  lemma MinorStep(start: nat, d: int, s: nat, i: nat)
    requires Abs(d) <= s && i + 1 <= s && start + d >= 0
    ensures Abs(PixelCoord(Coord(start, d, s, i + 1)) - PixelCoord(Coord(start, d, s, i))) <= 1
  {
    var a, b := Coord(start, d, s, i), Coord(start, d, s, i + 1);
    CoordBetween(start, d, s, i);
    CoordBetween(start, d, s, i + 1);
    CoordNext(start, d, s, i);
    IncrementBound(d, s);
    RoundStep(b, a);
  }

  /** A line plots exactly `max(|dx|, |dy|)` pixels, none when the endpoints coincide. */
  lemma LineLength(x0: nat, y0: nat, x1: nat, y1: nat)
    ensures |LinePixels(x0, y0, x1, y1)| == Max(Abs(x1 - x0), Abs(y1 - y0))
    ensures |LinePixels(x0, y0, x1, y1)| == 0 <==> x0 == x1 && y0 == y1
  {
  }

  /** The first pixel plotted is the start point. */
  lemma LineStart(x0: nat, y0: nat, x1: nat, y1: nat)
    requires x0 != x1 || y0 != y1
    ensures |LinePixels(x0, y0, x1, y1)| > 0 && LinePixels(x0, y0, x1, y1)[0] == Point(x0, y0)
  {
    PixelCoordOfInt(x0);
    PixelCoordOfInt(y0);
  }

  /** Pixel `i` sits exactly `i` steps from the start along the major axis. */
  lemma LineMajorAxis(x0: nat, y0: nat, x1: nat, y1: nat, i: nat)
    requires i < |LinePixels(x0, y0, x1, y1)|
    ensures Abs(x1 - x0) >= Abs(y1 - y0) ==> LinePixels(x0, y0, x1, y1)[i].x == x0 + Sign(x1 - x0) * i
    ensures Abs(x1 - x0) < Abs(y1 - y0) ==> LinePixels(x0, y0, x1, y1)[i].y == y0 + Sign(y1 - y0) * i
  {
    var s := SideLength(x0, y0, x1, y1);
    if Abs(x1 - x0) >= Abs(y1 - y0) {
      MajorCoord(x0, x1 - x0, s, i);
    } else {
      MajorCoord(y0, y1 - y0, s, i);
    }
  }

  /** No gaps: consecutive pixels differ by exactly 1 on the major axis and by
      at most 1 on the minor axis. */
  lemma LineSteps(x0: nat, y0: nat, x1: nat, y1: nat, i: nat)
    requires i + 1 < |LinePixels(x0, y0, x1, y1)|
    ensures var p, q := LinePixels(x0, y0, x1, y1)[i], LinePixels(x0, y0, x1, y1)[i + 1];
      if Abs(x1 - x0) >= Abs(y1 - y0) then
        Abs(q.x - p.x) == 1 && q.x - p.x == Sign(x1 - x0) && Abs(q.y - p.y) <= 1
      else
        Abs(q.y - p.y) == 1 && q.y - p.y == Sign(y1 - y0) && Abs(q.x - p.x) <= 1
  {
    var s := SideLength(x0, y0, x1, y1);
    LineMajorAxis(x0, y0, x1, y1, i);
    LineMajorAxis(x0, y0, x1, y1, i + 1);
    if Abs(x1 - x0) >= Abs(y1 - y0) {
      MinorStep(y0, y1 - y0, s, i);
    } else {
      MinorStep(x0, x1 - x0, s, i);
    }
  }

  /** The plotted pixels are pairwise distinct, so a line changes exactly
      `max(|dx|, |dy|)` pixels. */
  lemma LineDistinct(x0: nat, y0: nat, x1: nat, y1: nat)
    ensures forall i, j :: 0 <= i < j < |LinePixels(x0, y0, x1, y1)| ==>
      LinePixels(x0, y0, x1, y1)[i] != LinePixels(x0, y0, x1, y1)[j]
  {
    var ps := LinePixels(x0, y0, x1, y1);
    forall i, j | 0 <= i < j < |ps|
      ensures ps[i] != ps[j]
    {
      LineMajorAxis(x0, y0, x1, y1, i);
      LineMajorAxis(x0, y0, x1, y1, j);
    }
  }

  /** The end point is never plotted. */
  lemma LineExcludesEnd(x0: nat, y0: nat, x1: nat, y1: nat)
    ensures Point(x1, y1) !in LinePixels(x0, y0, x1, y1)
  {
    var ps := LinePixels(x0, y0, x1, y1);
    forall i | 0 <= i < |ps|
      ensures ps[i] != Point(x1, y1)
    {
      LineMajorAxis(x0, y0, x1, y1, i);
    }
  }

  /** Every plotted pixel lies in the bounding box of the two endpoints. */
  lemma LineWithinBox(x0: nat, y0: nat, x1: nat, y1: nat)
    ensures forall p :: p in LinePixels(x0, y0, x1, y1) ==>
      Min(x0, x1) <= p.x <= Max(x0, x1) && Min(y0, y1) <= p.y <= Max(y0, y1)
  {
    var s := SideLength(x0, y0, x1, y1);
    var ps := LinePixels(x0, y0, x1, y1);
    forall i | 0 <= i < |ps|
      ensures Min(x0, x1) <= ps[i].x <= Max(x0, x1) && Min(y0, y1) <= ps[i].y <= Max(y0, y1)
    {
      CoordBetween(x0, x1 - x0, s, i);
      CoordBetween(y0, y1 - y0, s, i);
      PixelCoordBetween(Coord(x0, x1 - x0, s, i), Min(x0, x1), Max(x0, x1));
      PixelCoordBetween(Coord(y0, y1 - y0, s, i), Min(y0, y1), Max(y0, y1));
    }
  }

  /** Two endpoints inside the buffer keep the whole line inside it. */
  lemma EndpointsInBounds(w: nat, h: nat, x0: nat, y0: nat, x1: nat, y1: nat)
    requires x0 < w && x1 < w && y0 < h && y1 < h
    ensures LineInBounds(w, h, x0, y0, x1, y1)
  {
    LineWithinBox(x0, y0, x1, y1);
  }

  /** A triangle corner cast `as usize`, the way `draw_triangle` passes it on. */
  function Truncate(p: Vec2): Point
  {
    Point(AsUsize(p.x), AsUsize(p.y))
  }

  /** The pixels of the wireframe, in plotting order: A to B, B to C, C to A. */
  function WireframePixels(t: Triangle): seq<Point>
  {
    var a, b, c := Truncate(t.points[0]), Truncate(t.points[1]), Truncate(t.points[2]);
    LinePixels(a.x, a.y, b.x, b.y) + LinePixels(b.x, b.y, c.x, c.y) + LinePixels(c.x, c.y, a.x, a.y)
  }

  /** Each truncated corner is plotted unless all three coincide, in which case
      nothing is. */
  lemma WireframeCorners(t: Triangle)
    ensures var a, b, c := Truncate(t.points[0]), Truncate(t.points[1]), Truncate(t.points[2]);
      if a == b == c then WireframePixels(t) == []
      else a in WireframePixels(t) && b in WireframePixels(t) && c in WireframePixels(t)
  {
    var a, b, c := Truncate(t.points[0]), Truncate(t.points[1]), Truncate(t.points[2]);
    var ab, bc, ca := LinePixels(a.x, a.y, b.x, b.y), LinePixels(b.x, b.y, c.x, c.y), LinePixels(c.x, c.y, a.x, a.y);
    assert WireframePixels(t) == ab + bc + ca;
    if a != b { LineStart(a.x, a.y, b.x, b.y); }
    if b != c { LineStart(b.x, b.y, c.x, c.y); }
    if c != a { LineStart(c.x, c.y, a.x, a.y); }
    if a == b == c {
      LineLength(a.x, a.y, b.x, b.y);
    } else {
      assert a in ab + ca || a in bc;
      assert b in ab + bc || b in ca;
      assert c in bc + ca || c in ab;
    }
  }

  /** Corners inside the buffer keep the whole wireframe inside it. */
  lemma WireframeInBounds(w: nat, h: nat, t: Triangle)
    requires forall i :: 0 <= i < 3 ==> 0.0 <= t.points[i].x < w as real && 0.0 <= t.points[i].y < h as real
    ensures var a, b, c := Truncate(t.points[0]), Truncate(t.points[1]), Truncate(t.points[2]);
      LineInBounds(w, h, a.x, a.y, b.x, b.y) && LineInBounds(w, h, b.x, b.y, c.x, c.y)
      && LineInBounds(w, h, c.x, c.y, a.x, a.y)
  {
    var a, b, c := Truncate(t.points[0]), Truncate(t.points[1]), Truncate(t.points[2]);
    EndpointsInBounds(w, h, a.x, a.y, b.x, b.y);
    EndpointsInBounds(w, h, b.x, b.y, c.x, c.y);
    EndpointsInBounds(w, h, c.x, c.y, a.x, a.y);
  }
}
