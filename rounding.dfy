/**
 * Python's built-in `round(x, n)` on exact reals: scale by 10^n, round half
 * to even, scale back. Only three facts about it are used elsewhere: it moves
 * a value by at most half a unit in the last place, it is monotone, and it
 * leaves values already on the 10^-n grid alone.
 */
module Rounding {

  function Pow10(n: nat): (r: nat)
    ensures r >= 1
  {
    if n == 0 then 1 else 10 * Pow10(n - 1)
  }

  /** The integer nearest to `y`, ties going to the even neighbour. */
  function RoundHalfEven(y: real): (k: int)
    ensures -0.5 <= k as real - y <= 0.5
  {
    var f := y.Floor;
    var frac := y - f as real;
    if frac > 0.5 then f + 1
    else if frac < 0.5 then f
    else if f % 2 == 0 then f
    else f + 1
  }

  lemma RoundHalfEvenMonotone(x: real, y: real)
    requires x <= y
    ensures RoundHalfEven(x) <= RoundHalfEven(y)
  {
  }

  /** `x` rounded to the nearest multiple of `1/p`, ties to even. */
  function RoundTo(x: real, p: real): (r: real)
    requires p >= 1.0
    ensures -0.5 / p <= r - x <= 0.5 / p
  {
    var k := RoundHalfEven(x * p);
    ScaleBack(k as real, x * p, p);
    k as real / p
  }

  /** `round(x, digits)`: off by at most half a unit in the last kept place. */
  function Round(x: real, digits: nat): (r: real)
    ensures var p := Pow10(digits) as real; -0.5 / p <= r - x <= 0.5 / p
  {
    RoundTo(x, Pow10(digits) as real)
  }

  /** Dividing `-1/2 <= a - b <= 1/2` by a positive `p`, with `b = x*p`. */
  lemma ScaleBack(a: real, b: real, p: real)
    requires p >= 1.0
    requires -0.5 <= a - b <= 0.5
    ensures -0.5 / p <= a / p - b / p <= 0.5 / p
  {
    assert a / p - b / p == (a - b) / p;
  }

  lemma ScaleUp(x: real, y: real, p: real)
    requires x <= y && p >= 1.0
    ensures x * p <= y * p
  {
    assert y * p - x * p == (y - x) * p;
  }

  lemma ScaleDown(a: real, b: real, p: real)
    requires a <= b && p >= 1.0
    ensures a / p <= b / p
  {
    assert b / p - a / p == (b - a) / p;
  }

  lemma RoundToMonotone(x: real, y: real, p: real)
    requires x <= y && p >= 1.0
    ensures RoundTo(x, p) <= RoundTo(y, p)
  {
    ScaleUp(x, y, p);
    assert x * p <= y * p;
    RoundHalfEvenMonotone(x * p, y * p);
    ScaleDown(RoundHalfEven(x * p) as real, RoundHalfEven(y * p) as real, p);
  }

  /** Rounding never reverses the order of two values. */
  lemma RoundMonotone(x: real, y: real, digits: nat)
    requires x <= y
    ensures Round(x, digits) <= Round(y, digits)
  {
    RoundToMonotone(x, y, Pow10(digits) as real);
  }

  lemma RoundToOnGrid(x: real, p: real, k: int)
    requires p >= 1.0 && x * p == k as real
    ensures RoundTo(x, p) == x
  {
    assert (x * p).Floor == k;
    assert RoundHalfEven(x * p) == k;
    assert RoundTo(x, p) == k as real / p;
    assert k as real / p == x;
  }

  /** A value with at most `digits` decimals is returned as it is. */
  lemma RoundOnGrid(k: int, digits: nat)
    ensures Round(k as real / Pow10(digits) as real, digits) == k as real / Pow10(digits) as real
  {
    var p := Pow10(digits) as real;
    var x := k as real / p;
    assert x * p == k as real;
    RoundToOnGrid(x, p, k);
  }

  /** Rounding keeps a value inside any interval whose ends lie on the grid. */
  lemma RoundWithin(x: real, lo: int, hi: int, digits: nat)
    requires lo as real / Pow10(digits) as real <= x <= hi as real / Pow10(digits) as real
    ensures lo as real / Pow10(digits) as real <= Round(x, digits) <= hi as real / Pow10(digits) as real
  {
    RoundOnGrid(lo, digits);
    RoundOnGrid(hi, digits);
    RoundMonotone(lo as real / Pow10(digits) as real, x, digits);
    RoundMonotone(x, hi as real / Pow10(digits) as real, digits);
  }
}
