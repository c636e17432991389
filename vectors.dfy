/** The handful of numpy array operations the return estimator is built from,
    over exact reals. */
module Vectors {

  /** Sum of the elements `v[p..]`. */
  function SumFrom(v: seq<real>, p: nat): real
    requires p <= |v|
    decreases |v| - p
  {
    if p == |v| then 0.0 else v[p] + SumFrom(v, p + 1)
  }

  /** `np.sum(v)`. */
  function Sum(v: seq<real>): real
  {
    SumFrom(v, 0)
  }

  /** Elementwise product `u * v` of two arrays of the same shape. */
  function Mul(u: seq<real>, v: seq<real>): seq<real>
    requires |u| == |v|
  {
    seq(|u|, i requires 0 <= i < |u| => u[i] * v[i])
  }

  /** Elementwise difference `u - v` of two arrays of the same shape. */
  function Sub(u: seq<real>, v: seq<real>): seq<real>
    requires |u| == |v|
  {
    seq(|u|, i requires 0 <= i < |u| => u[i] - v[i])
  }

  /** Elementwise reciprocal `v ** -1`; numpy gives infinity for a zero entry,
      which is why every entry must be non-zero here. */
  function Recip(v: seq<real>): seq<real>
    requires forall i :: 0 <= i < |v| ==> v[i] != 0.0
  {
    seq(|v|, i requires 0 <= i < |v| => 1.0 / v[i])
  }

  /** Summing `(v[i] - c) / k` is subtracting `c` once per element and then
      dividing by `k`. */
  lemma {:induction false} SumShiftScale(u: seq<real>, v: seq<real>, c: real, k: real, p: nat)
    requires |u| == |v| && p <= |v| && k != 0.0
    requires forall i :: 0 <= i < |u| ==> u[i] == (v[i] - c) / k
    ensures SumFrom(u, p) == (SumFrom(v, p) - (|v| - p) as real * c) / k
    decreases |v| - p
  {
    if p < |v| {
      SumShiftScale(u, v, c, k, p + 1);
      ShiftStep(u[p], v[p], SumFrom(u, p + 1), SumFrom(v, p + 1), c, k, (|v| - p - 1) as real);
    }
  }

  /** One step of `SumShiftScale`: with `x = (y - c) / k` the head and
      `sx = (sy - n * c) / k` the tail of `n` terms,
      `x + sx == ((y + sy) - (n + 1) * c) / k`. */
  lemma ShiftStep(x: real, y: real, sx: real, sy: real, c: real, k: real, n: real)
    requires k != 0.0 && x == (y - c) / k && sx == (sy - n * c) / k
    ensures x + sx == ((y + sy) - (n + 1.0) * c) / k
  {
  }

  /** An array whose elements from `p` on are zero sums to zero from `p` on. */
  lemma {:induction false} SumFromZero(v: seq<real>, p: nat)
    requires p <= |v|
    requires forall i :: p <= i < |v| ==> v[i] == 0.0
    ensures SumFrom(v, p) == 0.0
    decreases |v| - p
  {
    if p < |v| {
      SumFromZero(v, p + 1);
    }
  }
}
