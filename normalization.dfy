/** `(advantages - advantages.mean()) / advantages.std()`, with the standard
    deviation given as a positive number since reals have no square root here. */
module Normalization {
  import opened Vectors

  /** `a.mean()` (numpy gives NaN for an empty array; no caller uses that value). */
  function Mean(a: seq<real>): real
  {
    if |a| == 0 then 0.0 else Sum(a) / |a| as real
  }

  /** Squared deviations `(a[i] - m)^2`. */
  function SquaredDeviations(a: seq<real>, m: real): seq<real>
  {
    seq(|a|, i requires 0 <= i < |a| => (a[i] - m) * (a[i] - m))
  }

  /** Population variance, numpy's default `ddof=0`: `a.std()` is its square root. */
  function Variance(a: seq<real>): real
  {
    if |a| == 0 then 0.0 else Sum(SquaredDeviations(a, Mean(a))) / |a| as real
  }

  /** `(a - a.mean()) / sigma`, where `sigma` stands for `a.std()`. */
  function Normalize(a: seq<real>, sigma: real): seq<real>
    requires sigma > 0.0
  {
    seq(|a|, i requires 0 <= i < |a| => (a[i] - Mean(a)) / sigma)
  }

  /** Normalising keeps the length, and each input is recovered from its
      normalised value as `mean + sigma * value`. */
  lemma NormalizeInverse(a: seq<real>, sigma: real)
    requires sigma > 0.0
    ensures |Normalize(a, sigma)| == |a|
    ensures forall i :: 0 <= i < |a| ==> a[i] == Mean(a) + sigma * Normalize(a, sigma)[i]
  {
    forall i | 0 <= i < |a|
      ensures a[i] == Mean(a) + sigma * Normalize(a, sigma)[i]
    {
      var d := a[i] - Mean(a);
      assert sigma * (d / sigma) == d;
    }
  }

  /** For any positive `sigma`, the normalised advantages have mean zero. */
  lemma NormalizeMeanZero(a: seq<real>, sigma: real)
    requires sigma > 0.0
    ensures Sum(Normalize(a, sigma)) == 0.0
    ensures Mean(Normalize(a, sigma)) == 0.0
  {
    var n := Normalize(a, sigma);
    SumShiftScale(n, a, Mean(a), sigma, 0);
    if |a| > 0 {
      var k := |a| as real;
      assert k * (Sum(a) / k) == Sum(a);
    }
  }

  /** `v == sigma * sigma` with `sigma > 0` is positive and `v / sigma == sigma`. */
  lemma PositiveSquare(sigma: real, v: real)
    requires sigma > 0.0 && v == sigma * sigma
    ensures v / sigma == sigma && v > 0.0
  {
  }

  lemma SquareOfQuotient(d: real, sigma: real, e: real)
    requires sigma > 0.0 && e == d / sigma
    ensures e * e == ((d * d) / sigma) / sigma
  {
    assert d == e * sigma;
    assert d * d == (e * e) * sigma * sigma;
    assert (d * d) / sigma == (e * e) * sigma;
  }

  lemma QuotientOfMean(x: real, sigma: real, k: real)
    requires sigma > 0.0 && k > 0.0 && (x / k) / sigma == sigma
    ensures ((x / sigma) / sigma) / k == 1.0
  {
    assert x / k == sigma * sigma;
    assert x == (sigma * sigma) * k;
    assert x / sigma == sigma * k;
    assert (x / sigma) / sigma == k;
  }

  /** When `sigma` is the population standard deviation (and positive), the
      normalised advantages have variance one. */
  lemma NormalizeUnitVariance(a: seq<real>, sigma: real)
    requires sigma > 0.0 && sigma * sigma == Variance(a)
    ensures Variance(Normalize(a, sigma)) == 1.0
  {
    PositiveSquare(sigma, Variance(a));
    var n := Normalize(a, sigma);
    NormalizeMeanZero(a, sigma);
    var m := Mean(a);
    var sqA := SquaredDeviations(a, m);
    var sqN := SquaredDeviations(n, 0.0);
    var once := seq(|a|, i requires 0 <= i < |a| => sqA[i] / sigma);
    forall i | 0 <= i < |n|
      ensures sqN[i] == (once[i] - 0.0) / sigma
    {
      var d := a[i] - m;
      SquareOfQuotient(d, sigma, n[i] - 0.0);
    }
    SumShiftScale(once, sqA, 0.0, sigma, 0);
    SumShiftScale(sqN, once, 0.0, sigma, 0);
    QuotientOfMean(Sum(sqA), sigma, |a| as real);
  }
}
