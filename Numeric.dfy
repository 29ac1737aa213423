/** The scalar conversions the drawing routines apply to `f32` values,
    modelled on exact reals: `f32::round`, `f32::floor`, a cast `as usize`,
    and `isize::abs`. */
module Numeric {

  /** Absolute value of a signed coordinate difference (`isize::abs`). */
  function Abs(n: int): (r: nat)
    ensures r == n || r == -n
  {
    if n < 0 then -n else n
  }

  /** The direction of a coordinate difference: 1, -1 or 0. */
  function Sign(n: int): (r: int)
    ensures r * n == Abs(n)
    ensures -1 <= r <= 1
    ensures n == 0 ==> r == 0
  {
    if n > 0 then 1 else if n < 0 then -1 else 0
  }

  function Min(a: int, b: int): int { if a <= b then a else b }

  function Max(a: int, b: int): int { if a <= b then b else a }

  /** `f32::round`: the nearest integer, halfway cases rounded away from zero. */
  function Round(v: real): (r: int)
    ensures v >= 0.0 ==> r as real - 0.5 <= v < r as real + 0.5
    ensures v < 0.0 ==> r as real - 0.5 < v <= r as real + 0.5
  {
    if v >= 0.0 then (v + 0.5).Floor else -((-v + 0.5).Floor)
  }

  /** A cast `as usize` of an `f32`: truncation toward zero, negative values
      saturate to 0. */
  function AsUsize(v: real): (r: nat)
    ensures v >= 0.0 ==> r as real <= v < r as real + 1.0
    ensures v < 0.0 ==> r == 0
  {
    if v < 0.0 then 0 else v.Floor
  }

  /** `v.round() as usize`, the pixel coordinate a line step lands on. */
  function PixelCoord(v: real): nat
  {
    AsUsize(Round(v) as real)
  }

  lemma RoundMonotone(a: real, b: real)
    requires a <= b
    ensures Round(a) <= Round(b)
  {
  }

  /** Rounding two non-negative values at most 1 apart gives integers at most
      1 apart (this fails across zero, where ties go in opposite directions). */
  lemma RoundStep(a: real, b: real)
    requires 0.0 <= a && 0.0 <= b
    requires a - b <= 1.0 && b - a <= 1.0
    ensures Abs(Round(a) - Round(b)) <= 1
  {
  }

  /** A value between two non-negative integers lands, after rounding and the
      cast, between the same two integers. */
  lemma PixelCoordBetween(v: real, lo: int, hi: int)
    requires 0 <= lo && lo as real <= v <= hi as real
    ensures lo <= PixelCoord(v) <= hi
  {
    RoundMonotone(lo as real, v);
    RoundMonotone(v, hi as real);
  }

  lemma PixelCoordOfInt(k: int)
    requires 0 <= k
    ensures PixelCoord(k as real) == k
  {
  }

  lemma AsUsizeMonotone(a: real, b: real)
    requires a <= b
    ensures AsUsize(a) <= AsUsize(b)
  {
  }

  lemma DivSelf(r: real)
    requires r != 0.0
    ensures r / r == 1.0 && (-r) / r == -1.0
  {
  }

  /** A quotient whose numerator is no larger in magnitude than its positive
      denominator lies in [-1, 1]. */
  lemma DivBound(a: real, b: real)
    requires b > 0.0 && -b <= a <= b
    ensures -1.0 <= a / b <= 1.0
  {
    var q := a / b;
    assert q * b == a;
    assert (q - 1.0) * b <= 0.0;
    assert (q + 1.0) * b >= 0.0;
  }

  /** Moving a fraction k / d (between 0 and 1) of the way along `delta` from
      `a` stays between `a` and `a + delta`. */
  lemma LerpBetween(a: real, delta: real, k: real, d: real)
    requires d > 0.0 && 0.0 <= k <= d
    ensures delta >= 0.0 ==> a <= a + k * (delta / d) <= a + delta
    ensures delta < 0.0 ==> a + delta <= a + k * (delta / d) <= a
  {
    var q := delta / d;
    assert q * d == delta;
    assert (d - k) * q == d * q - k * q;
    if delta >= 0.0 {
      assert q >= 0.0;
      assert k * q >= 0.0;
      assert (d - k) * q >= 0.0;
    } else {
      assert q < 0.0;
      assert k * q <= 0.0;
      assert (d - k) * q <= 0.0;
    }
  }
}
