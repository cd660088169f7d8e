/**
 * The few pieces of C++ arithmetic the pricer and the option chain rely on,
 * stated over Dafny's exact `int` and `real`.
 */
module CMath {

  /** `std::max` on doubles: `(a < b) ? b : a`. */
  function Max(a: real, b: real): (m: real)
    ensures m >= a && m >= b
    ensures m == a || m == b
  {
    if a < b then b else a
  }

  /** `pow(x, 2)`. */
  function Sq(x: real): (s: real)
    ensures s >= 0.0
  {
    x * x
  }

  /** Conversion of a double to `int` (`int(x)`, or an implicit conversion), which truncates toward zero. */
  function Trunc(x: real): (n: int)
    ensures 0.0 <= x ==> 0 <= n && n as real <= x < n as real + 1.0
    ensures x < 0.0 ==> n <= 0 && n as real - 1.0 < x <= n as real
  {
    if x >= 0.0 then x.Floor else -((-x).Floor)
  }

  lemma TruncMonotone(x: real, y: real)
    requires x <= y
    ensures Trunc(x) <= Trunc(y)
  {
    if 0.0 <= x {
      assert x.Floor <= y.Floor;
    } else if y < 0.0 {
      assert (-y).Floor <= (-x).Floor;
    }
  }

  /** C++ `int` division by two, `a / 2`: the quotient truncates toward zero. */
  function Half(a: int): (q: int)
    ensures 0 <= a ==> 0 <= q && 2 * q <= a <= 2 * q + 1
    ensures a < 0 ==> q <= 0 && 2 * q - 1 <= a <= 2 * q
  {
    if a >= 0 then a / 2 else -((-a) / 2)
  }

  lemma HalfMonotone(a: int, a': int)
    requires a <= a'
    ensures Half(a) <= Half(a')
  {
  }

  /**
   * `nearbyint` in the default rounding mode: the nearest integer, ties
   * going to the even neighbour.
   */
  function NearbyInt(x: real): (n: int)
    ensures n as real - 0.5 <= x <= n as real + 0.5
    ensures (x == n as real - 0.5 || x == n as real + 0.5) ==> n % 2 == 0
  {
    var f := x.Floor;
    var frac := x - f as real;
    if frac < 0.5 then f
    else if frac > 0.5 then f + 1
    else if f % 2 == 0 then f
    else f + 1
  }

  // Facts about exact real arithmetic that the solver does not find alone.

  lemma DivCancel(x: real, c: real)
    requires c != 0.0
    ensures (x * c) / c == x
    ensures (x / c) * c == x
  {
  }

  lemma OneMinusDiv(c: real, u: real)
    requires c != 0.0
    ensures (c - u) / c == 1.0 - u / c
  {
    assert c / c == 1.0;
    assert (c - u) / c == c / c - u / c;
  }

  lemma MulNonneg(a: real, b: real)
    requires a >= 0.0 && b >= 0.0
    ensures a * b >= 0.0
  {
  }

  lemma MulPos(a: real, b: real)
    requires a > 0.0 && b > 0.0
    ensures a * b > 0.0
  {
  }

  lemma DivMonotone(x: real, y: real, c: real)
    requires c > 0.0
    ensures x < y <==> x / c < y / c
  {
    var q := (y - x) / c;
    assert q == y / c - x / c;
    DivCancel(y - x, c);
    if q > 0.0 {
      MulPos(q, c);
    }
    if y - x > 0.0 {
      assert q > 0.0;
    }
  }

}
