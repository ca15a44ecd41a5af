/**
 * Finite sums over sequences of reals, the arithmetic that numpy's
 * `np.sum`, `np.mean` and `np.cumsum` perform in the scripts (without
 * floating-point rounding).
 */
module Sums {

  /** Sum of all entries; defined by peeling the last element so that a loop
      running left to right keeps `Sum(a[..k])` as its invariant. */
  function Sum(s: seq<real>): real
  {
    if |s| == 0 then 0.0 else Sum(s[..|s| - 1]) + s[|s| - 1]
  }

  /** Arithmetic mean, as `np.mean` computes it for a non-empty vector. */
  function Mean(s: seq<real>): real
    requires |s| > 0
  {
    Sum(s) / (|s| as real)
  }

  /** `s / m * c` elementwise, numpy's broadcast of a scalar division and
      multiplication. */
  function DivTimes(s: seq<real>, m: real, c: real): (t: seq<real>)
    requires m != 0.0
    ensures |t| == |s|
    ensures forall j :: 0 <= j < |s| ==> t[j] == s[j] / m * c
  {
    seq(|s|, j requires 0 <= j < |s| => s[j] / m * c)
  }

  lemma AddDivTimes(a: real, b: real, m: real, c: real)
    requires m != 0.0
    ensures a / m * c + b / m * c == (a + b) / m * c
  {
  }

  lemma {:induction false} SumDivTimes(s: seq<real>, m: real, c: real)
    requires m != 0.0
    ensures Sum(DivTimes(s, m, c)) == Sum(s) / m * c
  {
    if |s| > 0 {
      var k := |s| - 1;
      var init := DivTimes(s, m, c)[..k];
      assert forall j :: 0 <= j < k ==> init[j] == DivTimes(s[..k], m, c)[j];
      assert init == DivTimes(s[..k], m, c);
      SumDivTimes(s[..k], m, c);
      AddDivTimes(Sum(s[..k]), s[k], m, c);
    }
  }

  lemma AddDiv(a: real, b: real, m: real)
    requires m != 0.0
    ensures a / m + b / m == (a + b) / m
  {
  }

  /** Dividing every entry by the same non-zero divisor divides the sum. */
  lemma {:induction false} SumDivided(s: seq<real>, t: seq<real>, m: real)
    requires m != 0.0 && |t| == |s|
    requires forall j :: 0 <= j < |s| ==> t[j] == s[j] / m
    ensures Sum(t) == Sum(s) / m
  {
    if |s| > 0 {
      var k := |s| - 1;
      SumDivided(s[..k], t[..k], m);
      AddDiv(Sum(s[..k]), s[k], m);
    }
  }

  lemma QuotientNonZero(x: real, y: real)
    requires x != 0.0 && y > 0.0
    ensures x / y != 0.0
  {
    assert (x / y) * y == x;
  }

  lemma MeanNonZero(s: seq<real>)
    requires |s| > 0 && Sum(s) != 0.0
    ensures Mean(s) != 0.0
  {
    QuotientNonZero(Sum(s), |s| as real);
  }
}
