/** Scalar helpers of the thermal camera: clamping, linear range mapping and
    Python's `int()` conversion of a float. Floats are modelled as `real`. */
module Numeric {

  /** `_constrain(val, min_val, max_val)`, evaluated as `min(max_val, max(min_val, val))`.
      With `lo > hi` the outer `min` wins and the result is `hi`. */
  function Constrain(v: real, lo: real, hi: real): (r: real)
    ensures r <= hi
    ensures lo <= hi ==> lo <= r
    ensures lo <= v <= hi ==> r == v
    ensures v < lo && lo <= hi ==> r == lo
    ensures hi < v ==> r == hi
    ensures hi < lo ==> r == hi
  {
    var raised := if v > lo then v else lo;
    if raised < hi then raised else hi
  }

  /** Clamping twice is clamping once. */
  lemma ConstrainIdempotent(v: real, lo: real, hi: real)
    requires lo <= hi
    ensures Constrain(Constrain(v, lo, hi), lo, hi) == Constrain(v, lo, hi)
  {
  }

  /** Clamping to a fixed, non-empty range preserves the order of its arguments. */
  lemma ConstrainMonotone(v: real, w: real, lo: real, hi: real)
    requires lo <= hi
    requires v <= w
    ensures Constrain(v, lo, hi) <= Constrain(w, lo, hi)
  {
  }

  /** `_map_value`: the affine map of [inMin, inMax] onto [outMin, outMax].
      Python raises ZeroDivisionError on an empty input range, hence the precondition. */
  function MapValue(x: real, inMin: real, inMax: real, outMin: real, outMax: real): real
    requires inMin != inMax
  {
    (x - inMin) * (outMax - outMin) / (inMax - inMin) + outMin
  }

  /** The ends of the input range go to the ends of the output range. */
  lemma MapValueEndpoints(inMin: real, inMax: real, outMin: real, outMax: real)
    requires inMin != inMax
    ensures MapValue(inMin, inMin, inMax, outMin, outMax) == outMin
    ensures MapValue(inMax, inMin, inMax, outMin, outMax) == outMax
  {
    QuotientOfZero(outMax - outMin, inMax - inMin);
    CancelFactor(inMax - inMin, outMax - outMin);
  }

  /** A product with a zero factor, divided by anything non-zero, is zero. */
  lemma QuotientOfZero(d: real, b: real)
    requires b != 0.0
    ensures 0.0 * d / b == 0.0
  {
    assert 0.0 * d == 0.0;
  }

  /** Multiplying by a non-zero factor and dividing by it again cancels. */
  lemma CancelFactor(a: real, d: real)
    requires a != 0.0
    ensures a * d / a == d
  {
    var q := a * d / a;
    assert q * a == a * d;
    assert (q - d) * a == 0.0;
  }

  /** Dividing a product is scaling by the quotient. */
  lemma ScaleByQuotient(n: real, d: real, b: real)
    requires b != 0.0
    ensures n * d / b == n * (d / b)
  {
    var s := d / b;
    var q := n * d / b;
    assert s * b == d;
    assert q * b == n * d;
    assert (q - n * s) * b == q * b - n * (s * b);
    assert (q - n * s) * b == 0.0;
  }

  /** Scaling by a non-negative factor preserves order. */
  lemma ScaleMonotone(a: real, c: real, s: real)
    requires a <= c
    requires 0.0 <= s
    ensures a * s <= c * s
  {
    assert c * s - a * s == (c - a) * s;
  }

  /** A non-negative number over a positive one is non-negative. */
  lemma QuotientNonNegative(d: real, b: real)
    requires 0.0 <= d
    requires 0.0 < b
    ensures 0.0 <= d / b
  {
    var q := d / b;
    assert q * b == d;
    if q < 0.0 {
      ScaleMonotone(q, 0.0, b);
    }
  }

  /** Dividing a larger numerator by the same positive divisor gives a larger quotient. */
  lemma QuotientMonotone(n: real, m: real, d: real, b: real)
    requires n <= m
    requires 0.0 <= d
    requires 0.0 < b
    ensures n * d / b <= m * d / b
  {
    ScaleByQuotient(n, d, b);
    ScaleByQuotient(m, d, b);
    QuotientNonNegative(d, b);
    ScaleMonotone(n, m, d / b);
  }

  /** Mapping between two increasing ranges is monotone. */
  lemma MapValueMonotone(x: real, y: real, inMin: real, inMax: real, outMin: real, outMax: real)
    requires inMin < inMax
    requires outMin <= outMax
    requires x <= y
    ensures MapValue(x, inMin, inMax, outMin, outMax) <= MapValue(y, inMin, inMax, outMin, outMax)
  {
    QuotientMonotone(x - inMin, y - inMin, outMax - outMin, inMax - inMin);
  }

  /** Scaling by d / b is undone by scaling by b / d. */
  lemma UndoScale(n: real, d: real, b: real, z: real)
    requires d != 0.0 && b != 0.0
    requires z == n * d / b
    ensures z * b / d == n
  {
    assert z * b == n * d;
    CancelFactor(d, n);
    assert d * n == n * d;
  }

  /** Mapping into a non-empty range and back again is the identity. */
  lemma MapValueRoundTrip(x: real, inMin: real, inMax: real, outMin: real, outMax: real)
    requires inMin != inMax
    requires outMin != outMax
    ensures MapValue(MapValue(x, inMin, inMax, outMin, outMax), outMin, outMax, inMin, inMax) == x
  {
    var y := MapValue(x, inMin, inMax, outMin, outMax);
    UndoScale(x - inMin, outMax - outMin, inMax - inMin, y - outMin);
  }

  /** Python's `int()` applied to a float: truncation toward zero. */
  function Trunc(x: real): (r: int)
    ensures 0.0 <= x ==> 0 <= r && r as real <= x < r as real + 1.0
    ensures x < 0.0 ==> r <= 0 && r as real - 1.0 < x <= r as real
  {
    if x >= 0.0 then x.Floor else -((-x).Floor)
  }

  /** On non-negative arguments truncation is the floor. */
  lemma TruncIsFloorOnNonNegative(x: real)
    requires 0.0 <= x
    ensures Trunc(x) == x.Floor
  {
  }

  /** Truncation of non-negative values preserves their order. */
  lemma TruncMonotone(x: real, y: real)
    requires 0.0 <= x <= y
    ensures Trunc(x) <= Trunc(y)
  {
  }
}
