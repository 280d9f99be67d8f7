/** The numeric side of the weather record: Python's `round(x, 1)` and `statistics.mean`,
    over exact reals. */
module Numbers {

  /** `x` has at most one decimal place. */
  predicate IsTenth(x: real)
  {
    (x * 10.0).Floor as real == x * 10.0
  }

  /** The nearest integer to `y`, ties going to the even neighbour (Python's rounding rule). */
  function RoundHalfEven(y: real): (n: int)
    ensures -0.5 <= y - n as real <= 0.5
    ensures y - n as real == 0.5 || n as real - y == 0.5 ==> n % 2 == 0
  {
    var f := y.Floor;
    var d := y - f as real;
    if d < 0.5 then f
    else if d > 0.5 then f + 1
    else if f % 2 == 0 then f
    else f + 1
  }

  /** The two properties of `RoundHalfEven` determine it: no other integer has them. */
  lemma RoundHalfEvenUnique(y: real, n: int)
    requires -0.5 <= y - n as real <= 0.5
    requires y - n as real == 0.5 || n as real - y == 0.5 ==> n % 2 == 0
    ensures n == RoundHalfEven(y)
  {
  }

  lemma RoundHalfEvenMonotone(x: real, y: real)
    requires x <= y
    ensures RoundHalfEven(x) <= RoundHalfEven(y)
  {
    var n, m := RoundHalfEven(x), RoundHalfEven(y);
    if n > m {
      assert n == m + 1;
      assert x == y;
    }
  }

  /** `round(x, 1)`: the multiple of a tenth nearest to `x`, ties to even. */
  function Round1(x: real): (r: real)
    ensures IsTenth(r)
    ensures -0.05 <= r - x <= 0.05
  {
    var n := RoundHalfEven(x * 10.0);
    var r := n as real / 10.0;
    assert r * 10.0 == n as real;
    assert (r * 10.0).Floor == n;
    r
  }

  /** A value that already has one decimal is left alone. */
  lemma Round1Fixed(t: real)
    requires IsTenth(t)
    ensures Round1(t) == t
  {
    var k := (t * 10.0).Floor;
    RoundHalfEvenUnique(t * 10.0, k);
  }

  /** Rounding twice is rounding once. */
  lemma Round1Idempotent(x: real)
    ensures Round1(Round1(x)) == Round1(x)
  {
    Round1Fixed(Round1(x));
  }

  lemma Round1Monotone(x: real, y: real)
    requires x <= y
    ensures Round1(x) <= Round1(y)
  {
    RoundHalfEvenMonotone(x * 10.0, y * 10.0);
  }

  /** Rounding never leaves an interval whose ends have one decimal. */
  lemma Round1Within(lo: real, hi: real, x: real)
    requires IsTenth(lo) && IsTenth(hi)
    requires lo <= x <= hi
    ensures lo <= Round1(x) <= hi
  {
    Round1Monotone(lo, x);
    Round1Monotone(x, hi);
    Round1Fixed(lo);
    Round1Fixed(hi);
  }

  function Sum(xs: seq<real>): real
  {
    if xs == [] then 0.0 else xs[0] + Sum(xs[1..])
  }

  /** `statistics.mean`, for the non-empty sequences on which it does not raise. */
  function Mean(xs: seq<real>): real
    requires |xs| > 0
  {
    Sum(xs) / |xs| as real
  }

  lemma {:induction false} SumBounds(xs: seq<real>, lo: real, hi: real)
    requires forall i :: 0 <= i < |xs| ==> lo <= xs[i] <= hi
    ensures |xs| as real * lo <= Sum(xs) <= |xs| as real * hi
  {
    if xs != [] {
      SumBounds(xs[1..], lo, hi);
    }
  }

  /** The mean of values in `[lo, hi]` is in `[lo, hi]`. */
  lemma MeanBounds(xs: seq<real>, lo: real, hi: real)
    requires |xs| > 0
    requires forall i :: 0 <= i < |xs| ==> lo <= xs[i] <= hi
    ensures lo <= Mean(xs) <= hi
  {
    SumBounds(xs, lo, hi);
    var n := |xs| as real;
    assert Mean(xs) * n == Sum(xs);
  }
}
