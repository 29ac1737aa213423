/** The scanline coverage of `draw_filled_triangle` and
    `draw_textured_triangle`: which pixels the two passes fill. */
module Fill {
  import opened Numeric
  import opened Types

  /** `Vec2::floor`, applied to a corner before scan conversion. */
  function FloorPoint(p: Vec2): (q: Point)
    ensures q.x as real <= p.x < q.x as real + 1.0
    ensures q.y as real <= p.y < q.y as real + 1.0
  {
    Point(p.x.Floor, p.y.Floor)
  }

  /** `sort_by` on y: a stable sort of three vertices ascending by y (equal
      keys keep their original order). */
  function SortedByY(a: Point, b: Point, c: Point): (r: seq<Point>)
    ensures |r| == 3 && r[0].y <= r[1].y <= r[2].y
    ensures Rearranges(r, a, b, c)
  {
    if a.y <= b.y then
      if b.y <= c.y then [a, b, c]
      else if a.y <= c.y then [a, c, b]
      else [c, a, b]
    else
      if a.y <= c.y then [b, a, c]
      else if b.y <= c.y then [b, c, a]
      else [c, b, a]
  }

  /** `r` lists a, b and c, each once, in some order. */
  ghost predicate Rearranges(r: seq<Point>, a: Point, b: Point, c: Point)
  {
    r == [a, b, c] || r == [a, c, b] || r == [b, a, c] || r == [b, c, a] || r == [c, a, b] || r == [c, b, a]
  }

  /** A rearrangement holds each input and nothing else. */
  lemma RearrangesMembers(r: seq<Point>, a: Point, b: Point, c: Point)
    requires Rearranges(r, a, b, c)
    ensures |r| == 3 && a in r && b in r && c in r
    ensures forall i :: 0 <= i < |r| ==> r[i] == a || r[i] == b || r[i] == c
  {
  }

  /** The floored corners of `t`, sorted by y: v0 on top, v2 at the bottom. */
  function Vertices(t: Triangle): (v: seq<Point>)
    ensures |v| == 3 && v[0].y <= v[1].y <= v[2].y
    ensures Rearranges(v, FloorPoint(t.points[0]), FloorPoint(t.points[1]), FloorPoint(t.points[2]))
  {
    SortedByY(FloorPoint(t.points[0]), FloorPoint(t.points[1]), FloorPoint(t.points[2]))
  }

  /** The inverse slope dx / |dy| of the edge from `from` to `to`, 0 for a
      horizontal edge. */
  function InverseSlope(from: Point, to: Point): real
  {
    if to.y - from.y != 0 then (to.x - from.x) as real / Abs(to.y - from.y) as real else 0.0
  }

  /** The x at scanline `y` of the line through `through` with inverse slope `m`. */
  function Intercept(through: Point, y: nat, m: real): real
  {
    through.x as real + (y as real - through.y as real) * m
  }

  /** An inclusive run of pixels `start..=end` on one scanline. */
  datatype Span = Span(start: nat, end: nat)

  /** The flat-bottom pass's span at scanline `y`: between the edge v0-v1 (taken
      through v1) and the edge v0-v2, ordered first, truncated after. */
  function BottomSpan(v: seq<Point>, y: nat): (s: Span)
    requires |v| == 3
    ensures s.start <= s.end
  {
    var x0 := Intercept(v[1], y, InverseSlope(v[0], v[1]));
    var x1 := Intercept(v[0], y, InverseSlope(v[0], v[2]));
    var xStart := if x0 < x1 then x0 else x1;
    var xEnd := if x1 > x0 then x1 else x0;
    AsUsizeMonotone(xStart, xEnd);
    Span(AsUsize(xStart), AsUsize(xEnd))
  }

  /** The flat-top pass's span at scanline `y`: between the edge v1-v2 (taken
      through v1) and the edge v0-v2, truncated first, ordered after. */
  function TopSpan(v: seq<Point>, y: nat): (s: Span)
    requires |v| == 3
    ensures s.start <= s.end
  {
    var x0 := Intercept(v[1], y, InverseSlope(v[1], v[2]));
    var x1 := Intercept(v[0], y, InverseSlope(v[0], v[2]));
    Span(if x0 < x1 then AsUsize(x0) else AsUsize(x1), if x1 > x0 then AsUsize(x1) else AsUsize(x0))
  }

  /** The scanline `y as usize` of an integer vertex coordinate. */
  function Row(y: int): nat
  {
    AsUsize(y as real)
  }

  /** Pixel (x, y) is filled by the flat-bottom pass, which runs when v1 and v0
      are on different rows and covers rows v0.y..=v1.y. */
  predicate InBottom(v: seq<Point>, x: int, y: int)
    requires |v| == 3
  {
    v[1].y - v[0].y != 0 && Row(v[0].y) <= y <= Row(v[1].y)
    && BottomSpan(v, y).start <= x <= BottomSpan(v, y).end
  }

  /** Pixel (x, y) is filled by the flat-top pass, which runs when v2 and v1 are
      on different rows and covers rows v1.y..=v2.y. */
  predicate InTop(v: seq<Point>, x: int, y: int)
    requires |v| == 3
  {
    v[2].y - v[1].y != 0 && Row(v[1].y) <= y <= Row(v[2].y)
    && TopSpan(v, y).start <= x <= TopSpan(v, y).end
  }

  /** Pixel (x, y) is filled when triangle `t` is scan converted. */
  predicate Covers(t: Triangle, x: int, y: int)
  {
    InBottom(Vertices(t), x, y) || InTop(Vertices(t), x, y)
  }

  /** Every pixel the scan conversion of `t` fills lies in a `w` x `h` buffer. */
  ghost predicate TriangleInBounds(t: Triangle, w: nat, h: nat)
  {
    forall x, y :: Covers(t, x, y) ==> x < w && y < h
  }

  /** All three corners are at non-negative coordinates. */
  ghost predicate Nonnegative(t: Triangle)
  {
    forall i :: 0 <= i < 3 ==> 0.0 <= t.points[i].x && 0.0 <= t.points[i].y
  }

  lemma NonnegativeVertices(t: Triangle)
    requires Nonnegative(t)
    ensures forall i :: 0 <= i < 3 ==> 0 <= Vertices(t)[i].x && 0 <= Vertices(t)[i].y
  {
    var a, b, c := FloorPoint(t.points[0]), FloorPoint(t.points[1]), FloorPoint(t.points[2]);
    var v := Vertices(t);
    RearrangesMembers(v, a, b, c);
  }

  /** On an edge from p down to q the intercept stays between the endpoints'
      x, and the edge can equally be taken through either endpoint. */
  lemma EdgeIntercept(p: Point, q: Point, y: nat)
    requires p.y < q.y && p.y <= y <= q.y
    ensures var m := InverseSlope(p, q);
      Intercept(q, y, m) == Intercept(p, y, m)
      && Min(p.x, q.x) as real <= Intercept(p, y, m) <= Max(p.x, q.x) as real
  {
    var m := InverseSlope(p, q);
    var d := (q.y - p.y) as real;
    var k := (y - p.y) as real;
    assert m == (q.x - p.x) as real / d;
    assert d * m == (q.x - p.x) as real;
    assert (k - d) * m == k * m - d * m;
    LerpBetween(p.x as real, (q.x - p.x) as real, k, d);
  }

  /** At its upper endpoint's row an edge's intercept is that endpoint's x. */
  lemma InterceptAtStart(p: Point, y: nat, m: real)
    requires y == p.y
    ensures Intercept(p, y, m) == p.x as real
  {
  }

  /** A value between two non-negative integers truncates to between them. */
  lemma AsUsizeBetween(v: real, lo: int, hi: int)
    requires 0 <= lo && lo as real <= v <= hi as real
    ensures lo <= AsUsize(v) <= hi
  {
  }

  /** The flat-bottom pass fills exactly the rows v0.y..=v1.y, at least one
      pixel on each, and only when v0 and v1 are on different rows. */
  lemma BottomRows(t: Triangle, x: int, y: int)
    requires Nonnegative(t)
    ensures var v := Vertices(t);
      (InBottom(v, x, y) ==> v[0].y != v[1].y && v[0].y <= y <= v[1].y)
      && (v[0].y != v[1].y && v[0].y <= y <= v[1].y ==> InBottom(v, BottomSpan(v, y).start, y))
  {
    NonnegativeVertices(t);
  }

  /** The flat-top pass fills exactly the rows v1.y..=v2.y, at least one pixel
      on each, and only when v1 and v2 are on different rows. */
  lemma TopRows(t: Triangle, x: int, y: int)
    requires Nonnegative(t)
    ensures var v := Vertices(t);
      (InTop(v, x, y) ==> v[1].y != v[2].y && v[1].y <= y <= v[2].y)
      && (v[1].y != v[2].y && v[1].y <= y <= v[2].y ==> InTop(v, TopSpan(v, y).start, y))
  {
    NonnegativeVertices(t);
  }

  /** No row outside [v0.y, v2.y] is touched, and a triangle whose three
      floored corners share one row fills nothing. */
  lemma CoveredRows(t: Triangle, x: int, y: int)
    requires Nonnegative(t)
    ensures var v := Vertices(t);
      (Covers(t, x, y) ==> v[0].y <= y <= v[2].y)
      && (v[0].y == v[1].y == v[2].y ==> !Covers(t, x, y))
  {
    BottomRows(t, x, y);
    TopRows(t, x, y);
  }

  /** The sorted vertices v0, v1, v2 of a triangle without negative corners. */
  ghost predicate SortedVertices(v: seq<Point>)
  {
    |v| == 3 && v[0].y <= v[1].y <= v[2].y
    && forall i :: 0 <= i < 3 ==> 0 <= v[i].x && 0 <= v[i].y
  }

  /** The top vertex lies in the span of its scanline. */
  lemma TopVertexCovered(v: seq<Point>)
    requires SortedVertices(v) && v[0].y < v[2].y
    ensures InBottom(v, v[0].x, v[0].y) || InTop(v, v[0].x, v[0].y)
  {
    var v0, v1, v2 := v[0], v[1], v[2];
    if v0.y != v1.y {
      EdgeIntercept(v0, v1, v0.y);
      InterceptAtStart(v0, v0.y, InverseSlope(v0, v1));
      InterceptAtStart(v0, v0.y, InverseSlope(v0, v2));
      assert BottomSpan(v, v0.y) == Span(v0.x, v0.x);
      assert InBottom(v, v0.x, v0.y);
    } else {
      InterceptAtStart(v1, v1.y, InverseSlope(v1, v2));
      InterceptAtStart(v0, v0.y, InverseSlope(v0, v2));
      assert InTop(v, v0.x, v0.y);
    }
  }

  /** The middle vertex lies in the span of its scanline. */
  lemma MiddleVertexCovered(v: seq<Point>)
    requires SortedVertices(v) && v[0].y < v[2].y
    ensures InBottom(v, v[1].x, v[1].y) || InTop(v, v[1].x, v[1].y)
  {
    var v0, v1, v2 := v[0], v[1], v[2];
    if v0.y != v1.y {
      EdgeIntercept(v0, v2, v1.y);
      InterceptAtStart(v1, v1.y, InverseSlope(v0, v1));
      assert InBottom(v, v1.x, v1.y);
    } else {
      InterceptAtStart(v1, v1.y, InverseSlope(v1, v2));
      InterceptAtStart(v0, v0.y, InverseSlope(v0, v2));
      assert InTop(v, v1.x, v1.y);
    }
  }

  /** The bottom vertex lies in the span of its scanline. */
  lemma BottomVertexCovered(v: seq<Point>)
    requires SortedVertices(v) && v[0].y < v[2].y
    ensures InBottom(v, v[2].x, v[2].y) || InTop(v, v[2].x, v[2].y)
  {
    var v0, v1, v2 := v[0], v[1], v[2];
    if v1.y != v2.y {
      EdgeIntercept(v1, v2, v2.y);
      EdgeIntercept(v0, v2, v2.y);
      InterceptAtStart(v2, v2.y, InverseSlope(v1, v2));
      assert Intercept(v1, v2.y, InverseSlope(v1, v2)) == v2.x as real;
      assert InTop(v, v2.x, v2.y);
    } else {
      EdgeIntercept(v0, v2, v2.y);
      EdgeIntercept(v0, v1, v2.y);
      InterceptAtStart(v2, v2.y, InverseSlope(v0, v2));
      assert Intercept(v0, v2.y, InverseSlope(v0, v2)) == v2.x as real;
      assert InBottom(v, v2.x, v2.y);
    }
  }

  /** Unless all three share a row, every floored corner is filled: it lies in
      the span of its own scanline. */
  lemma CornersCovered(t: Triangle)
    requires Nonnegative(t)
    requires !(FloorPoint(t.points[0]).y == FloorPoint(t.points[1]).y == FloorPoint(t.points[2]).y)
    ensures forall i :: 0 <= i < 3 ==> Covers(t, FloorPoint(t.points[i]).x, FloorPoint(t.points[i]).y)
  {
    var v := Vertices(t);
    NonnegativeVertices(t);
    var a, b, c := FloorPoint(t.points[0]), FloorPoint(t.points[1]), FloorPoint(t.points[2]);
    RearrangesMembers(v, a, b, c);
    assert v[0].y < v[2].y;
    TopVertexCovered(v);
    MiddleVertexCovered(v);
    BottomVertexCovered(v);
    forall i | 0 <= i < 3
      ensures Covers(t, FloorPoint(t.points[i]).x, FloorPoint(t.points[i]).y)
    {
      var p := FloorPoint(t.points[i]);
      assert p in v;
    }
  }

  /** The filled pixels lie in the bounding box of the floored corners. */
  lemma CoveredWithinBox(t: Triangle, x: int, y: int)
    requires Nonnegative(t)
    requires Covers(t, x, y)
    ensures var v := Vertices(t);
      Min(v[0].x, Min(v[1].x, v[2].x)) <= x <= Max(v[0].x, Max(v[1].x, v[2].x))
      && v[0].y <= y <= v[2].y
  {
    var v := Vertices(t);
    NonnegativeVertices(t);
    var v0, v1, v2 := v[0], v[1], v[2];
    var lo, hi := Min(v0.x, Min(v1.x, v2.x)), Max(v0.x, Max(v1.x, v2.x));
    CoveredRows(t, x, y);
    if InBottom(v, x, y) {
      EdgeIntercept(v0, v1, y);
      EdgeIntercept(v0, v2, y);
      var x0 := Intercept(v1, y, InverseSlope(v0, v1));
      var x1 := Intercept(v0, y, InverseSlope(v0, v2));
      AsUsizeBetween(if x0 < x1 then x0 else x1, lo, hi);
      AsUsizeBetween(if x1 > x0 then x1 else x0, lo, hi);
    } else {
      assert InTop(v, x, y);
      EdgeIntercept(v1, v2, y);
      EdgeIntercept(v0, v2, y);
      var x0 := Intercept(v1, y, InverseSlope(v1, v2));
      var x1 := Intercept(v0, y, InverseSlope(v0, v2));
      AsUsizeBetween(x0, lo, hi);
      AsUsizeBetween(x1, lo, hi);
    }
  }

  /** Corners inside a `w` x `h` buffer keep every filled pixel inside it. */
  lemma CornersInBounds(t: Triangle, w: nat, h: nat)
    requires forall i :: 0 <= i < 3 ==> 0.0 <= t.points[i].x < w as real && 0.0 <= t.points[i].y < h as real
    ensures TriangleInBounds(t, w, h)
  {
    var v := Vertices(t);
    var a, b, c := FloorPoint(t.points[0]), FloorPoint(t.points[1]), FloorPoint(t.points[2]);
    assert a.x < w && b.x < w && c.x < w && a.y < h && b.y < h && c.y < h;
    RearrangesMembers(v, a, b, c);
    forall x, y | Covers(t, x, y)
      ensures x < w && y < h
    {
      CoveredWithinBox(t, x, y);
    }
  }

  /** The right triangle (0,0), (4,0), (0,4) fills exactly the 15 pixels with
      0 <= y <= 4 and 0 <= x <= 4 - y. */
  lemma RightTriangleExample(uv: TexCoords3, x: int, y: int)
    ensures Covers(Triangle([Vec2(0.0, 0.0), Vec2(4.0, 0.0), Vec2(0.0, 4.0)], uv), x, y)
      <==> 0 <= y <= 4 && 0 <= x <= 4 - y
  {
    var t := Triangle([Vec2(0.0, 0.0), Vec2(4.0, 0.0), Vec2(0.0, 4.0)], uv);
    var v := Vertices(t);
    assert v == [Point(0, 0), Point(4, 0), Point(0, 4)];
    assert InverseSlope(v[1], v[2]) == -1.0;
    assert InverseSlope(v[0], v[2]) == 0.0;
    if 0 <= y <= 4 {
      assert TopSpan(v, y) == Span(0, 4 - y);
    }
  }
}
