/** Python's `round(x, n)` over exact reals: nearest multiple of 10^-n, ties to even. */
module Rounding {

  function RoundHalfEven(x: real): int {
    var f := x.Floor;
    var d := x - f as real;
    if d < 0.5 then f else if d > 0.5 then f + 1 else if f % 2 == 0 then f else f + 1
  }

  function RoundTo(x: real, scale: real): real
    requires scale > 0.0
  {
    RoundHalfEven(x * scale) as real / scale
  }

  function Max(a: real, b: real): real { if a >= b then a else b }

  function Min(a: real, b: real): real { if a <= b then a else b }

  /** Force x into [lo, hi]; the lower bound wins. */
  function Clamp(lo: real, hi: real, x: real): real { Max(lo, Min(hi, x)) }

  /** A product, named so that sums of products stay linear to the solver. */
  function Times(a: real, b: real): real { a * b }

  function Abs(x: real): real { if x < 0.0 then -x else x }

  lemma RoundHalfEvenMonotone(x: real, y: real)
    requires x <= y
    ensures RoundHalfEven(x) <= RoundHalfEven(y)
  {
    assert x.Floor <= y.Floor;
    if x.Floor < y.Floor {
      assert RoundHalfEven(x) <= x.Floor + 1 <= y.Floor <= RoundHalfEven(y);
    }
  }

  lemma DivMul(x: real, s: real)
    requires s > 0.0
    ensures (x / s) * s == x
    ensures (x * s) / s == x
  {
  }

  lemma DivMonotone(a: real, b: real, s: real)
    requires s > 0.0 && a <= b
    ensures a / s <= b / s
  {
  }

  lemma MulMonotone(a: real, b: real, s: real)
    requires s >= 0.0 && a <= b
    ensures a * s <= b * s
  {
  }

  lemma DivSum(a: real, b: real, s: real)
    requires s > 0.0
    ensures (a + b) / s == a / s + b / s
    ensures (a - b) / s == a / s - b / s
  {
  }

  /** Rounding to a multiple of 1/scale moves a value by at most half a step. */
  lemma RoundError(x: real, scale: real)
    requires scale > 0.0
    ensures Abs(RoundTo(x, scale) - x) <= 0.5 / scale
  {
    var k := RoundHalfEven(x * scale);
    assert RoundTo(x, scale) == k as real / scale;
    assert x * scale - 0.5 <= k as real <= x * scale + 0.5;
    QuotientNear(x, k as real, scale);
  }

  lemma QuotientNear(x: real, n: real, s: real)
    requires s > 0.0 && x * s - 0.5 <= n <= x * s + 0.5
    ensures x - 0.5 / s <= n / s <= x + 0.5 / s
  {
    DivMul(x, s);
    DivMonotone(x * s - 0.5, n, s);
    DivMonotone(n, x * s + 0.5, s);
    DivSum(x * s, 0.5, s);
  }

  lemma RoundMonotone(x: real, y: real, scale: real)
    requires scale > 0.0 && x <= y
    ensures RoundTo(x, scale) <= RoundTo(y, scale)
  {
    MulMonotone(x, y, scale);
    RoundHalfEvenMonotone(x * scale, y * scale);
    DivMonotone(RoundHalfEven(x * scale) as real, RoundHalfEven(y * scale) as real, scale);
  }

  /** A multiple of 1/scale is its own rounding. */
  lemma RoundExact(n: int, scale: real)
    requires scale > 0.0
    ensures RoundTo(n as real / scale, scale) == n as real / scale
  {
    DivMul(n as real, scale);
    RoundAt(n as real / scale, n, scale);
  }

  lemma RoundAt(x: real, n: int, scale: real)
    requires scale > 0.0 && x * scale == n as real
    ensures RoundTo(x, scale) == n as real / scale
  {
  }

  lemma ClampLipschitz(lo: real, hi: real, x: real, y: real)
    ensures Abs(Clamp(lo, hi, x) - Clamp(lo, hi, y)) <= Abs(x - y)
  {
  }

  lemma Distribute(a: real, b: real, c: real)
    ensures a * (b + c) == a * b + a * c
    ensures a * (b - c) == a * b - a * c
    ensures (b + c) * a == b * a + c * a
    ensures (b - c) * a == b * a - c * a
  {
  }

  lemma Associate(a: real, b: real, c: real)
    ensures (a * b) * c == a * (b * c)
  {
  }

  lemma WeightedMonotone(a: real, b: real, x: real, y: real, d: real, e: real)
    requires a <= x && b <= y && 0.0 <= d && 0.0 <= e
    ensures a * d + b * e <= x * d + y * e
  {
    MulMonotone(a, x, d);
    MulMonotone(b, y, e);
  }

  lemma WeightsSum(a: real, d: real, e: real)
    requires d + e == 1.0
    ensures a * d + a * e == a
  {
  }

  /** A weighted mean lies between its bounds. */
  lemma Convex(lo: real, hi: real, s: real, x: real, d: real)
    requires lo <= s <= hi && lo <= x <= hi && 0.0 <= d <= 1.0
    ensures lo <= s * d + x * (1.0 - d) <= hi
  {
    var e := 1.0 - d;
    WeightedMonotone(lo, lo, s, x, d, e);
    WeightedMonotone(s, x, hi, hi, d, e);
    WeightsSum(lo, d, e);
    WeightsSum(hi, d, e);
  }

  lemma ScaledGap(a: real, b: real, d: real)
    requires d >= 0.0
    ensures Abs(a * d - b * d) == Abs(a - b) * d
  {
    Distribute(d, a, b);
    if a < b {
      MulMonotone(a, b, d);
    } else {
      MulMonotone(b, a, d);
    }
  }

  /** Halfway between two integers the even one is taken, as Python rounds. */
  lemma TiesGoToEven(n: int)
    ensures RoundHalfEven(n as real + 0.5) == if n % 2 == 0 then n else n + 1
  {
  }
}
