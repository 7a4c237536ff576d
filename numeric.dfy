/** The arithmetic the collectors and the display perform on Python numbers, with Python's
    floats taken as exact reals. */
module Numeric {

  /** Python's `sum` over a list of integers. */
  function Sum(s: seq<int>): int
  {
    if s == [] then 0 else Sum(s[..|s| - 1]) + s[|s| - 1]
  }

  /** Python's `max` over a non-empty list. */
  function Max(s: seq<real>): (m: real)
    requires s != []
    ensures m in s
    ensures forall i :: 0 <= i < |s| ==> s[i] <= m
  {
    if |s| == 1 then s[0]
    else
      var m' := Max(s[..|s| - 1]);
      assert s[..|s| - 1][|s| - 2] == s[|s| - 2];
      if s[|s| - 1] > m' then s[|s| - 1] else m'
  }

  /** Python's `min` over a non-empty list. */
  function Min(s: seq<real>): (m: real)
    requires s != []
    ensures m in s
    ensures forall i :: 0 <= i < |s| ==> m <= s[i]
  {
    if |s| == 1 then s[0]
    else
      var m' := Min(s[..|s| - 1]);
      assert s[..|s| - 1][|s| - 2] == s[|s| - 2];
      if s[|s| - 1] < m' then s[|s| - 1] else m'
  }

  /** Python's two-argument `min`. */
  function Smaller(a: real, b: real): (m: real)
    ensures m <= a && m <= b
    ensures m == a || m == b
  {
    if b < a then b else a
  }

  /** `int(x)` on a float: truncation toward zero. */
  function Trunc(x: real): (n: int)
    ensures 0.0 <= x ==> n == x.Floor
    ensures x < 0.0 ==> x <= n as real < x + 1.0
  {
    if x >= 0.0 then x.Floor else -((-x).Floor)
  }

  /** `x // d` for a positive divisor: the largest whole number of times `d` fits below `x`. */
  function FloorDiv(x: real, d: real): (q: int)
    requires d > 0.0
    ensures (q as real) * d <= x
    ensures x < ((q + 1) as real) * d
  {
    FloorOfQuotient(x, d);
    (x / d).Floor
  }

  lemma FloorOfQuotient(x: real, d: real)
    requires d > 0.0
    ensures ((x / d).Floor as real) * d <= x < (((x / d).Floor + 1) as real) * d
  {
    var y := x / d;
    var f := y.Floor;
    var a := (f + 1) as real - y;
    MulPositive(a, d);
    assert y * d == x;
    assert a * d == (f + 1) as real * d - y * d;
    assert (y - f as real) * d == y * d - (f as real) * d;
    assert x < (f + 1) as real * d;
  }

  lemma MulPositive(a: real, b: real)
    requires a > 0.0 && b > 0.0
    ensures a * b > 0.0
  {
  }

  /** `x % d` for a positive divisor: like Python, the remainder takes the divisor's sign. */
  function Mod(x: real, d: real): (r: real)
    requires d > 0.0
    ensures 0.0 <= r < d
    ensures x == FloorDiv(x, d) as real * d + r
  {
    x - FloorDiv(x, d) as real * d
  }

  /** The whole number of tenths nearest to `x`; an exact tie goes to the even neighbour, as
      Python's `round` does. */
  function NearestTenths(x: real): (k: int)
    ensures -0.5 <= k as real - 10.0 * x <= 0.5
    ensures k as real - 10.0 * x == 0.5 || 10.0 * x - k as real == 0.5 ==> k % 2 == 0
  {
    var y := 10.0 * x;
    var f := y.Floor;
    var d := y - f as real;
    if d < 0.5 then f
    else if d > 0.5 then f + 1
    else if f % 2 == 0 then f
    else f + 1
  }

  /** `round(x, 1)`: `x` rounded to one decimal place. */
  function RoundTenths(x: real): (r: real)
    ensures -0.05 <= r - x <= 0.05
    ensures (10.0 * r).Floor as real == 10.0 * r
  {
    NearestTenths(x) as real / 10.0
  }

  /** Rounding to tenths never leaves the percentage range, because its ends are whole tenths. */
  lemma RoundTenthsInRange(x: real)
    requires 0.0 <= x <= 100.0
    ensures 0.0 <= RoundTenths(x) <= 100.0
  {
    var k := NearestTenths(x);
    assert -0.5 <= k as real;
    assert k as real <= 1000.5;
    assert 0 <= k <= 1000;
  }
}
