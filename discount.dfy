/** Per-trajectory discounting, as the agent computes it for one reward array
    `reward` of length T+1 with the discount factor `gamma`. */
module Discount {
  import opened Vectors

  /** `gamma ** n` for a natural exponent (numpy's `0.0 ** 0` is 1). */
  function Pow(g: real, n: nat): real
  {
    if n == 0 then 1.0 else g * Pow(g, n - 1)
  }

  /** A non-zero discount factor has non-zero powers. */
  lemma {:induction false} PowNonZero(g: real, n: nat)
    requires g != 0.0
    ensures Pow(g, n) != 0.0
  {
    if n > 0 {
      PowNonZero(g, n - 1);
      NonZeroProduct(g, Pow(g, n - 1));
    }
  }

  lemma NonZeroProduct(x: real, y: real)
    requires x != 0.0 && y != 0.0
    ensures x * y != 0.0
  {
  }

  /** `g^(a + b) == g^a * g^b`. */
  lemma {:induction false} PowAdd(g: real, a: nat, b: nat)
    ensures Pow(g, a + b) == Pow(g, a) * Pow(g, b)
    decreases a
  {
    if a > 0 {
      var x, y := Pow(g, a - 1), Pow(g, b);
      PowAdd(g, a - 1, b);
      assert Pow(g, a + b) == g * Pow(g, a - 1 + b);
      assert g * (x * y) == (g * x) * y;
    }
  }

  /** `gam = gamma ** np.arange(0, T+1)`. */
  function Gam(g: real, n: nat): seq<real>
  {
    seq(n, p requires 0 <= p < n => Pow(g, p))
  }

  /** `gam ** -1`, defined because a non-zero discount factor has non-zero powers. */
  function InvGam(g: real, n: nat): (r: seq<real>)
    requires g != 0.0
    ensures |r| == n
  {
    var gam := Gam(g, n);
    assert forall p :: 0 <= p < n ==> gam[p] != 0.0 by {
      forall p | 0 <= p < n ensures gam[p] != 0.0 {
        PowNonZero(g, p);
      }
    }
    Recip(gam)
  }

  lemma InvGamAt(g: real, n: nat, t: nat)
    requires g != 0.0 && t < n
    ensures Pow(g, t) != 0.0 && InvGam(g, n)[t] * Pow(g, t) == 1.0
  {
    PowNonZero(g, t);
  }

  /** The lower-triangular mask: `mask[p][t] == 1` iff `p >= t`. */
  function Mask(n: nat): seq<seq<real>>
  {
    seq(n, p => seq(n, t => if p >= t then 1.0 else 0.0))
  }

  /** Shapes accepted by `np.einsum('pt,t,p->t', m, u, w)`. */
  predicate EinsumShapes(m: seq<seq<real>>, u: seq<real>, w: seq<real>)
  {
    |m| == |u| == |w| && forall p :: 0 <= p < |m| ==> |m[p]| == |u|
  }

  /** Entry `t` of the einsum, summed over `p` from `p` on: sum of `m[q][t] * u[t] * w[q]`. */
  function EinsumColumn(m: seq<seq<real>>, u: seq<real>, w: seq<real>, t: nat, p: nat): real
    requires EinsumShapes(m, u, w) && t < |u| && p <= |w|
    decreases |w| - p
  {
    if p == |w| then 0.0 else m[p][t] * u[t] * w[p] + EinsumColumn(m, u, w, t, p + 1)
  }

  /** `np.einsum('pt,t,p->t', m, u, w)`. */
  function Einsum(m: seq<seq<real>>, u: seq<real>, w: seq<real>): seq<real>
    requires EinsumShapes(m, u, w)
  {
    seq(|u|, t requires 0 <= t < |u| => EinsumColumn(m, u, w, t, 0))
  }

  /** `np.sum(gam * reward)`: the discounted return of the whole trajectory. */
  function TrajectoryReturn(r: seq<real>, g: real): real
  {
    Sum(Mul(Gam(g, |r|), r))
  }

  /** `np.ones_like(reward) * np.sum(gam * reward)`: one trajectory's vanilla Q-values. */
  function VanillaSegment(r: seq<real>, g: real): seq<real>
  {
    seq(|r|, _ => TrajectoryReturn(r, g))
  }

  /** `np.einsum('pt,t,p->t', mask, gam ** -1, gam * reward)`: one trajectory's
      reward-to-go Q-values as the agent computes them. `gam ** -1` needs a
      non-zero discount factor. */
  function RewardToGoSegment(r: seq<real>, g: real): seq<real>
    requires g != 0.0
  {
    var gam := Gam(g, |r|);
    Einsum(Mask(|r|), InvGam(g, |r|), Mul(gam, r))
  }

  /** Reference definition: the literal sum of `g^(q - t) * r[q]` for `q` from `p` to T. */
  function LiteralSum(r: seq<real>, g: real, t: nat, p: nat): real
    requires t <= p <= |r|
    decreases |r| - p
  {
    if p == |r| then 0.0 else Pow(g, p - t) * r[p] + LiteralSum(r, g, t, p + 1)
  }

  /** Reference definition of the reward-to-go at step `t`:
      the sum of `g^(t' - t) * r[t']` for `t'` from `t` to T (zero past the end). */
  function RewardToGo(r: seq<real>, g: real, t: nat): real
    requires t <= |r|
  {
    LiteralSum(r, g, t, t)
  }

  lemma {:induction false} SumGamFrom(r: seq<real>, g: real, p: nat)
    requires p <= |r|
    ensures SumFrom(Mul(Gam(g, |r|), r), p) == LiteralSum(r, g, 0, p)
    decreases |r| - p
  {
    if p < |r| {
      SumGamFrom(r, g, p + 1);
    }
  }

  /** The vectorised `np.sum(gam * reward)` is the literal discounted sum
      of `g^t' * r[t']` over the whole trajectory. */
  lemma TrajectoryReturnIsLiteral(r: seq<real>, g: real)
    ensures TrajectoryReturn(r, g) == RewardToGo(r, g, 0)
  {
    SumGamFrom(r, g, 0);
  }

  /** Vanilla Q-values: one per step, all equal to the trajectory's discounted return. */
  lemma VanillaSegmentConstant(r: seq<real>, g: real)
    ensures |VanillaSegment(r, g)| == |r|
    ensures forall t :: 0 <= t < |r| ==> VanillaSegment(r, g)[t] == RewardToGo(r, g, 0)
  {
    TrajectoryReturnIsLiteral(r, g);
  }

  /** One masked einsum term for `p >= t`: `1 * g^-t * (g^p * r[p]) == g^(p-t) * r[p]`,
      with `a = g^t`, `b = g^(p-t)`, `c = g^p = a * b`, `recip = 1 / a` and `x = r[p]`. */
  lemma CancelPower(mask: real, recip: real, weighted: real, a: real, b: real, c: real, x: real)
    requires mask == 1.0 && recip * a == 1.0 && weighted == c * x && c == a * b
    ensures mask * recip * weighted == b * x
  {
  }

  /** From `p >= t` on, an einsum column whose rows are the literal terms adds
      up to the literal sum. */
  lemma {:induction false} EinsumColumnIsLiteral(m: seq<seq<real>>, u: seq<real>, w: seq<real>,
                                                 r: seq<real>, g: real, t: nat, p: nat)
    requires EinsumShapes(m, u, w) && |u| == |r| && t < |r| && t <= p <= |r|
    requires forall q :: t <= q < |r| ==> m[q][t] * u[t] * w[q] == Pow(g, q - t) * r[q]
    ensures EinsumColumn(m, u, w, t, p) == LiteralSum(r, g, t, p)
    decreases |r| - p
  {
    if p < |r| {
      EinsumColumnIsLiteral(m, u, w, r, g, t, p + 1);
    }
  }

  /** From `p >= t` on, the masked einsum column adds exactly the literal terms. */
  lemma EinsumColumnTail(r: seq<real>, g: real, t: nat)
    requires g != 0.0 && t < |r|
    ensures EinsumColumn(Mask(|r|), InvGam(g, |r|), Mul(Gam(g, |r|), r), t, t) == LiteralSum(r, g, t, t)
  {
    var m, u, w := Mask(|r|), InvGam(g, |r|), Mul(Gam(g, |r|), r);
    forall q | t <= q < |r| ensures m[q][t] * u[t] * w[q] == Pow(g, q - t) * r[q] {
      MaskAt(|r|, q, t);
      InvGamAt(g, |r|, t);
      GamWeightAt(r, g, q);
      EinsumTerm(m[q][t], u[t], w[q], g, r[q], t, q);
    }
    EinsumColumnIsLiteral(m, u, w, r, g, t, t);
  }

  /** Row `p >= t` of the masked einsum column: `1 * g^-t * (g^p * x) == g^(p-t) * x`. */
  lemma EinsumTerm(mask: real, recip: real, weighted: real, g: real, x: real, t: nat, p: nat)
    requires t <= p
    requires mask == 1.0 && recip * Pow(g, t) == 1.0 && weighted == Pow(g, p) * x
    ensures mask * recip * weighted == Pow(g, p - t) * x
  {
    PowAdd(g, t, p - t);
    CancelPower(mask, recip, weighted, Pow(g, t), Pow(g, p - t), Pow(g, p), x);
  }

  lemma MaskAt(n: nat, p: nat, t: nat)
    requires t <= p < n
    ensures Mask(n)[p][t] == 1.0
  {
  }

  lemma GamWeightAt(r: seq<real>, g: real, p: nat)
    requires p < |r|
    ensures Mul(Gam(g, |r|), r)[p] == Pow(g, p) * r[p]
  {
  }

  /** Before `t` the mask is zero, so those rows add nothing. */
  lemma {:induction false} EinsumColumnHead(r: seq<real>, g: real, t: nat, p: nat)
    requires g != 0.0 && p <= t < |r|
    ensures
      var gam := Gam(g, |r|);
      EinsumColumn(Mask(|r|), InvGam(g, |r|), Mul(gam, r), t, p)
        == EinsumColumn(Mask(|r|), InvGam(g, |r|), Mul(gam, r), t, t)
    decreases t - p
  {
    if p < t {
      EinsumColumnHead(r, g, t, p + 1);
    }
  }

  /** The agent's masked einsum "mask x gam^-1 x gam*reward" computes exactly the
      literal reward-to-go at every step of the trajectory. */
  lemma RewardToGoSegmentIsLiteral(r: seq<real>, g: real)
    requires g != 0.0
    ensures |RewardToGoSegment(r, g)| == |r|
    ensures forall t :: 0 <= t < |r| ==> RewardToGoSegment(r, g)[t] == RewardToGo(r, g, t)
  {
    forall t | 0 <= t < |r|
      ensures RewardToGoSegment(r, g)[t] == RewardToGo(r, g, t)
    {
      EinsumColumnHead(r, g, t, 0);
      EinsumColumnTail(r, g, t);
    }
  }

  /** One step of `LiteralSumShift`: `a * x + y == g * (b * x + z)` when
      `a = g * b` (the head's power) and `y = g * z` (the tail's sum). */
  lemma FactorOut(g: real, a: real, b: real, x: real, y: real, z: real)
    requires a == g * b && y == g * z
    ensures a * x + y == g * (b * x + z)
  {
  }

  /** One step of `LiteralSumShift`: if the tail from `p + 1` carries a factor `g`,
      so does the sum from `p`. */
  lemma LiteralSumShiftStep(r: seq<real>, g: real, t: nat, p: nat)
    requires t + 1 <= p < |r|
    requires LiteralSum(r, g, t, p + 1) == g * LiteralSum(r, g, t + 1, p + 1)
    ensures LiteralSum(r, g, t, p) == g * LiteralSum(r, g, t + 1, p)
  {
    assert Pow(g, p - t) == g * Pow(g, p - (t + 1));
    FactorOut(g, Pow(g, p - t), Pow(g, p - (t + 1)), r[p], LiteralSum(r, g, t, p + 1), LiteralSum(r, g, t + 1, p + 1));
  }

  /** Pulling one factor `g` out of every term of a literal sum. */
  lemma {:induction false} LiteralSumShift(r: seq<real>, g: real, t: nat, p: nat)
    requires t + 1 <= p <= |r|
    ensures LiteralSum(r, g, t, p) == g * LiteralSum(r, g, t + 1, p)
    decreases |r| - p
  {
    if p < |r| {
      LiteralSumShift(r, g, t, p + 1);
      LiteralSumShiftStep(r, g, t, p);
    }
  }

  /** The backward recursion Q_t = r_t + g * Q_(t+1), with Q past the end zero. */
  lemma RewardToGoStep(r: seq<real>, g: real, t: nat)
    requires t < |r|
    ensures RewardToGo(r, g, t) == r[t] + g * RewardToGo(r, g, t + 1)
  {
    LiteralSumShift(r, g, t, t + 1);
  }

  /** The reward-to-go Q-values the agent computes satisfy the backward recursion:
      the last one is the last reward, each earlier one is the reward plus `g`
      times the next one. */
  lemma RewardToGoSegmentRecurrence(r: seq<real>, g: real)
    requires g != 0.0 && |r| > 0
    ensures |RewardToGoSegment(r, g)| == |r|
    ensures RewardToGoSegment(r, g)[|r| - 1] == r[|r| - 1]
    ensures forall t :: 0 <= t < |r| - 1 ==>
      RewardToGoSegment(r, g)[t] == r[t] + g * RewardToGoSegment(r, g)[t + 1]
  {
    RewardToGoSegmentIsLiteral(r, g);
    RewardToGoStep(r, g, |r| - 1);
    forall t | 0 <= t < |r| - 1 {
      RewardToGoStep(r, g, t);
    }
  }

  /** The first reward-to-go Q-value is the trajectory's vanilla Q-value. */
  lemma RewardToGoFirstIsReturn(r: seq<real>, g: real)
    requires g != 0.0 && |r| > 0
    ensures RewardToGoSegment(r, g)[0] == VanillaSegment(r, g)[0] == TrajectoryReturn(r, g)
  {
    RewardToGoSegmentIsLiteral(r, g);
    TrajectoryReturnIsLiteral(r, g);
  }

  /** Rewards [1, 1, 1] with discount 0.5: every vanilla Q-value is 1.75. */
  lemma VanillaExample()
    ensures VanillaSegment([1.0, 1.0, 1.0], 0.5) == [1.75, 1.75, 1.75]
  {
    var r := [1.0, 1.0, 1.0];
    TrajectoryReturnIsLiteral(r, 0.5);
    assert RewardToGo(r, 0.5, 0) == 1.75;
  }

  /** Rewards [1, 1, 1] with discount 0.5: the reward-to-go Q-values are [1.75, 1.5, 1.0]. */
  lemma RewardToGoExample()
    ensures RewardToGoSegment([1.0, 1.0, 1.0], 0.5) == [1.75, 1.5, 1.0]
  {
    var r := [1.0, 1.0, 1.0];
    RewardToGoSegmentIsLiteral(r, 0.5);
    assert RewardToGo(r, 0.5, 2) == 1.0;
    assert RewardToGo(r, 0.5, 1) == 1.5;
    assert RewardToGo(r, 0.5, 0) == 1.75;
  }

  /** With all-zero rewards every literal discounted sum is zero. */
  lemma {:induction false} ZeroRewardsLiteral(r: seq<real>, g: real, t: nat, p: nat)
    requires t <= p <= |r|
    requires forall i :: 0 <= i < |r| ==> r[i] == 0.0
    ensures LiteralSum(r, g, t, p) == 0.0
    decreases |r| - p
  {
    if p < |r| {
      ZeroRewardsLiteral(r, g, t, p + 1);
    }
  }
}
