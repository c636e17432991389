/** The return and advantage estimator of the policy-gradient agent, and the
    data flow of its `update` step. The actor and critic networks are not part
    of this model: the critic's predictions arrive as an input array. */
module PgAgent {
  import opened Wrappers
  import opened Flatten
  import opened Vectors
  import opened Discount
  import opened Normalization

  /** The attributes `PGAgent.__init__` stores and the estimator reads.
      `hasCritic` is `self.critic is not None`, which holds exactly when the
      agent was built with `use_baseline`. */
  datatype PGAgent = PGAgent(
    gamma: real,
    useRewardToGo: bool,
    hasCritic: bool,
    gaeLambda: Option<real>,
    normalizeAdvantages: bool)

  /** The exceptions `_estimate_advantage` can raise. */
  datatype AdvantageError =
    | ShapeMismatch      // `assert values.shape == q_values.shape`
    | GaeNotImplemented  // `raise NotImplementedError()` inside the GAE loop

  /** The exceptions `update` can raise. */
  datatype UpdateError =
    | EmptyRewards              // `rewards[0]` on an empty batch
    | NothingToConcatenate      // `np.concatenate` of an empty list
    | Advantage(cause: AdvantageError)
    | BaselineStepsNotIterable  // `for _ in self.baseline_gradient_steps` on an int

  /** The flat arrays `update` hands on after step 2: the actor receives
      `obs`, `actions` and `advantages`. */
  datatype TrainingBatch<O, A> = TrainingBatch(
    obs: seq<O>,
    actions: seq<A>,
    rewards: seq<real>,
    terminals: seq<bool>,
    qValues: seq<real>,
    advantages: seq<real>)

  // ---------------------------------------------------------------------------
  // Q-values

  /** The per-trajectory arrays the vanilla loop appends to `l`. */
  function VanillaSegments(rewards: seq<seq<real>>, g: real): seq<seq<real>>
  {
    seq(|rewards|, i requires 0 <= i < |rewards| => VanillaSegment(rewards[i], g))
  }

  /** The per-trajectory arrays the reward-to-go loop appends to `l`. */
  function RewardToGoSegments(rewards: seq<seq<real>>, g: real): seq<seq<real>>
    requires g != 0.0
  {
    seq(|rewards|, i requires 0 <= i < |rewards| => RewardToGoSegment(rewards[i], g))
  }

  /** The flat Q-values of either mode. */
  function QValues(rewards: seq<seq<real>>, g: real, rewardToGo: bool): seq<real>
    requires rewardToGo ==> g != 0.0
  {
    if rewardToGo then Concat(RewardToGoSegments(rewards, g)) else Concat(VanillaSegments(rewards, g))
  }

  /** `_discounted_return`: one array per trajectory, each step holding the
      whole trajectory's discounted return, concatenated. */
  method DiscountedReturn(rewards: seq<seq<real>>, gamma: real) returns (q: seq<real>)
    requires |rewards| > 0
    ensures q == QValues(rewards, gamma, false)
  {
    var l: seq<seq<real>> := [];
    for i := 0 to |rewards|
      invariant |l| == i
      invariant forall k :: 0 <= k < i ==> l[k] == VanillaSegment(rewards[k], gamma)
    {
      var reward := rewards[i];
      l := l + [VanillaSegment(reward, gamma)];
    }
    q := Concat(l);
    assert l == VanillaSegments(rewards, gamma);
  }

  /** `_discounted_reward_to_go`: one masked-einsum array per trajectory,
      concatenated. `gam ** -1` needs a non-zero discount factor. */
  method DiscountedRewardToGo(rewards: seq<seq<real>>, gamma: real) returns (q: seq<real>)
    requires |rewards| > 0 && gamma != 0.0
    ensures q == QValues(rewards, gamma, true)
  {
    var l: seq<seq<real>> := [];
    for i := 0 to |rewards|
      invariant |l| == i
      invariant forall k :: 0 <= k < i ==> l[k] == RewardToGoSegment(rewards[k], gamma)
    {
      var reward := rewards[i];
      l := l + [RewardToGoSegment(reward, gamma)];
    }
    q := Concat(l);
    assert l == RewardToGoSegments(rewards, gamma);
  }

  /** `_calculate_q_vals`: the mode is chosen by `use_reward_to_go` alone. */
  method CalculateQVals(agent: PGAgent, rewards: seq<seq<real>>) returns (q: seq<real>)
    requires |rewards| > 0
    requires agent.useRewardToGo ==> agent.gamma != 0.0
    ensures !agent.useRewardToGo ==> q == Concat(VanillaSegments(rewards, agent.gamma))
    ensures agent.useRewardToGo ==> q == Concat(RewardToGoSegments(rewards, agent.gamma))
  {
    if !agent.useRewardToGo {
      q := DiscountedReturn(rewards, agent.gamma);
    } else {
      q := DiscountedRewardToGo(rewards, agent.gamma);
    }
  }

  /** Both modes give one Q-value per timestep of the batch. */
  lemma QValuesLength(rewards: seq<seq<real>>, g: real, rewardToGo: bool)
    requires rewardToGo ==> g != 0.0
    ensures |QValues(rewards, g, rewardToGo)| == TotalLength(rewards)
  {
    if rewardToGo {
      var segs := RewardToGoSegments(rewards, g);
      forall i | 0 <= i < |rewards| ensures |segs[i]| == |rewards[i]| {
        RewardToGoSegmentIsLiteral(rewards[i], g);
      }
      ConcatLength(segs);
      SameShapeTotalLength(segs, rewards);
    } else {
      var segs := VanillaSegments(rewards, g);
      ConcatLength(segs);
      SameShapeTotalLength(segs, rewards);
    }
  }

  /** Trajectory `i` owns the slice `[Offset(i), Offset(i + 1))` of the flat
      Q-value array: one slot per reward, inside the array, right after the
      slice of trajectory `i - 1`. */
  lemma QValuesSegmentBounds(rewards: seq<seq<real>>, g: real, rewardToGo: bool, i: nat)
    requires rewardToGo ==> g != 0.0
    requires i < |rewards|
    ensures Offset(rewards, i + 1) == Offset(rewards, i) + |rewards[i]|
    ensures Offset(rewards, i + 1) <= |QValues(rewards, g, rewardToGo)|
  {
    OffsetBounds(rewards, i);
    QValuesLength(rewards, g, rewardToGo);
  }

  /** Vanilla mode: step `t` of trajectory `i` sits at `Offset(rewards, i) + t`
      and holds the literal discounted return of the whole trajectory, the same
      value at every step of the trajectory. */
  lemma VanillaQValuesAt(rewards: seq<seq<real>>, g: real, i: nat, t: nat)
    requires i < |rewards| && t < |rewards[i]|
    ensures Offset(rewards, i) + t < |QValues(rewards, g, false)|
    ensures QValues(rewards, g, false)[Offset(rewards, i) + t] == RewardToGo(rewards[i], g, 0)
  {
    var segs := VanillaSegments(rewards, g);
    SameShapeOffset(segs, rewards, i);
    ConcatAt(segs, i, t);
    VanillaSegmentConstant(rewards[i], g);
  }

  /** Reward-to-go mode: step `t` of trajectory `i` holds the literal sum of
      `g^(t' - t) * r[t']` over the rest of that trajectory only. */
  lemma RewardToGoQValuesAt(rewards: seq<seq<real>>, g: real, i: nat, t: nat)
    requires g != 0.0 && i < |rewards| && t < |rewards[i]|
    ensures Offset(rewards, i) + t < |QValues(rewards, g, true)|
    ensures QValues(rewards, g, true)[Offset(rewards, i) + t] == RewardToGo(rewards[i], g, t)
  {
    var segs := RewardToGoSegments(rewards, g);
    forall j | 0 <= j < |rewards| ensures |segs[j]| == |rewards[j]| {
      RewardToGoSegmentIsLiteral(rewards[j], g);
    }
    SameShapeOffset(segs, rewards, i);
    RewardToGoSegmentIsLiteral(rewards[i], g);
    ConcatAt(segs, i, t);
  }

  /** Reward-to-go mode, per trajectory of the flat array: the last Q-value is
      the last reward, every earlier one is its reward plus `g` times the next
      Q-value; the recursion never reaches into the following trajectory. */
  lemma RewardToGoQValuesRecurrence(rewards: seq<seq<real>>, g: real, i: nat)
    requires g != 0.0 && i < |rewards| && |rewards[i]| > 0
    ensures
      var q, o, r := QValues(rewards, g, true), Offset(rewards, i), rewards[i];
      o + |r| <= |q| &&
      q[o + |r| - 1] == r[|r| - 1] &&
      forall t :: 0 <= t < |r| - 1 ==> q[o + t] == r[t] + g * q[o + t + 1]
  {
    var q, o, r := QValues(rewards, g, true), Offset(rewards, i), rewards[i];
    RewardToGoQValuesAt(rewards, g, i, |r| - 1);
    RewardToGoStep(r, g, |r| - 1);
    forall t | 0 <= t < |r| - 1
      ensures q[o + t] == r[t] + g * q[o + t + 1]
    {
      RewardToGoQValuesAt(rewards, g, i, t);
      RewardToGoQValuesAt(rewards, g, i, t + 1);
      RewardToGoStep(r, g, t);
    }
  }

  /** The first reward-to-go Q-value of each trajectory equals its vanilla Q-value. */
  lemma RewardToGoFirstIsVanilla(rewards: seq<seq<real>>, g: real, i: nat)
    requires g != 0.0 && i < |rewards| && |rewards[i]| > 0
    ensures Offset(rewards, i) < |QValues(rewards, g, true)| == |QValues(rewards, g, false)|
    ensures QValues(rewards, g, true)[Offset(rewards, i)] == QValues(rewards, g, false)[Offset(rewards, i)]
  {
    QValuesLength(rewards, g, true);
    QValuesLength(rewards, g, false);
    RewardToGoQValuesAt(rewards, g, i, 0);
    VanillaQValuesAt(rewards, g, i, 0);
  }

  /** All-zero rewards give all-zero Q-values in both modes. */
  lemma ZeroRewardsZeroQValues(rewards: seq<seq<real>>, g: real, rewardToGo: bool)
    requires rewardToGo ==> g != 0.0
    requires forall i, t :: 0 <= i < |rewards| && 0 <= t < |rewards[i]| ==> rewards[i][t] == 0.0
    ensures forall k :: 0 <= k < |QValues(rewards, g, rewardToGo)| ==> QValues(rewards, g, rewardToGo)[k] == 0.0
  {
    var segs := if rewardToGo then RewardToGoSegments(rewards, g) else VanillaSegments(rewards, g);
    forall i, t | 0 <= i < |segs| && 0 <= t < |segs[i]|
      ensures segs[i][t] == 0.0
    {
      var r := rewards[i];
      if rewardToGo {
        RewardToGoSegmentIsLiteral(r, g);
        ZeroRewardsLiteral(r, g, t, t);
      } else {
        VanillaSegmentConstant(r, g);
        ZeroRewardsLiteral(r, g, 0, 0);
      }
    }
    ConcatAllEqual(segs, 0.0);
  }

  // ---------------------------------------------------------------------------
  // Advantages

  /** Lines 132-169 of `_estimate_advantage`, before normalisation; `values`
      stands for `self.critic(obs)`. */
  function RawAdvantage(agent: PGAgent, q: seq<real>, values: seq<real>): (r: Result<seq<real>, AdvantageError>)
    ensures r.Err? <==> agent.hasCritic && (|values| != |q| || (agent.gaeLambda.Some? && |q| > 0))
    ensures r == Err(ShapeMismatch) <==> agent.hasCritic && |values| != |q|
    ensures r.Ok? ==> |r.value| == |q|
    ensures r.Ok? ==> forall i :: 0 <= i < |q| ==>
      r.value[i] == q[i] - (if agent.hasCritic then values[i] else 0.0)
  {
    if !agent.hasCritic then Ok(q)
    else if |values| != |q| then Err(ShapeMismatch)
    else if agent.gaeLambda.None? then Ok(Sub(q, values))
    // the GAE loop raises on its first iteration; with no timesteps it never runs
    // and `np.zeros(batch_size + 1)[:-1]` is empty
    else if |q| > 0 then Err(GaeNotImplemented)
    else Ok([])
  }

  /** `_estimate_advantage`: the raw advantages, normalised with `sigma`
      (standing for their standard deviation) when `normalize_advantages` is set. */
  function EstimateAdvantage(agent: PGAgent, q: seq<real>, values: seq<real>, sigma: real): (r: Result<seq<real>, AdvantageError>)
    requires agent.normalizeAdvantages ==> sigma > 0.0
    ensures r.Err? <==> RawAdvantage(agent, q, values).Err?
    ensures r.Err? ==> r == RawAdvantage(agent, q, values)
    ensures r.Ok? && !agent.normalizeAdvantages ==> r == RawAdvantage(agent, q, values)
    ensures r.Ok? && agent.normalizeAdvantages ==>
      var raw := RawAdvantage(agent, q, values).value;
      |r.value| == |raw| &&
      Mean(r.value) == 0.0 &&
      forall i :: 0 <= i < |raw| ==> raw[i] == Mean(raw) + sigma * r.value[i]
  {
    var raw := RawAdvantage(agent, q, values);
    if raw.Ok? && agent.normalizeAdvantages then
      NormalizeMeanZero(raw.value, sigma);
      NormalizeInverse(raw.value, sigma);
      Ok(Normalize(raw.value, sigma))
    else
      raw
  }

  /** With normalisation on and `sigma` the population standard deviation of
      the raw advantages, the advantages have mean zero and variance one. */
  lemma EstimateAdvantageStandardized(agent: PGAgent, q: seq<real>, values: seq<real>, sigma: real)
    requires agent.normalizeAdvantages && sigma > 0.0
    requires RawAdvantage(agent, q, values).Ok?
    requires sigma * sigma == Variance(RawAdvantage(agent, q, values).value)
    ensures EstimateAdvantage(agent, q, values, sigma).Ok?
    ensures Mean(EstimateAdvantage(agent, q, values, sigma).value) == 0.0
    ensures Variance(EstimateAdvantage(agent, q, values, sigma).value) == 1.0
  {
    NormalizeUnitVariance(RawAdvantage(agent, q, values).value, sigma);
  }

  /** Without a critic or normalisation, all-zero rewards give all-zero
      advantages, whatever `sigma` is. */
  lemma ZeroRewardsZeroAdvantages(agent: PGAgent, rewards: seq<seq<real>>, sigma: real)
    requires !agent.hasCritic && !agent.normalizeAdvantages
    requires agent.useRewardToGo ==> agent.gamma != 0.0
    requires forall i, t :: 0 <= i < |rewards| && 0 <= t < |rewards[i]| ==> rewards[i][t] == 0.0
    ensures
      var a := EstimateAdvantage(agent, QValues(rewards, agent.gamma, agent.useRewardToGo), [], sigma);
      a.Ok? && forall k :: 0 <= k < |a.value| ==> a.value[k] == 0.0
  {
    var q := QValues(rewards, agent.gamma, agent.useRewardToGo);
    ZeroRewardsZeroQValues(rewards, agent.gamma, agent.useRewardToGo);
    assert RawAdvantage(agent, q, []) == Ok(q);
  }

  /** With normalisation on, all-zero rewards in a batch of at least one step
      give raw advantages of variance zero: no positive `sigma` is their
      standard deviation, so `EstimateAdvantageStandardized` never applies and
      line 173 divides zero by zero. */
  lemma ZeroRewardsZeroVariance(agent: PGAgent, rewards: seq<seq<real>>, sigma: real)
    requires !agent.hasCritic && agent.normalizeAdvantages
    requires agent.useRewardToGo ==> agent.gamma != 0.0
    requires TotalLength(rewards) > 0
    requires forall i, t :: 0 <= i < |rewards| && 0 <= t < |rewards[i]| ==> rewards[i][t] == 0.0
    ensures
      var raw := RawAdvantage(agent, QValues(rewards, agent.gamma, agent.useRewardToGo), []);
      raw.Ok? && |raw.value| > 0 && Mean(raw.value) == 0.0 && Variance(raw.value) == 0.0
    ensures sigma > 0.0 ==>
      sigma * sigma != Variance(RawAdvantage(agent, QValues(rewards, agent.gamma, agent.useRewardToGo), []).value)
  {
    var q := QValues(rewards, agent.gamma, agent.useRewardToGo);
    ZeroRewardsZeroQValues(rewards, agent.gamma, agent.useRewardToGo);
    QValuesLength(rewards, agent.gamma, agent.useRewardToGo);
    assert RawAdvantage(agent, q, []) == Ok(q);
    SumFromZero(q, 0);
    assert Mean(q) == 0.0;
    var d := SquaredDeviations(q, 0.0);
    SumFromZero(d, 0);
    assert Variance(q) == 0.0;
    if sigma > 0.0 {
      PositiveProductNotZero(sigma, sigma, Variance(q));
    }
  }

  /** A product of two positive reals is not zero. `v` names the zero so
      that callers can pass `Variance(...)`; the solver does not close
      `x * x != v` from `x * x > 0` and `v == 0` directly. */
  lemma PositiveProductNotZero(x: real, y: real, v: real)
    requires x > 0.0 && y > 0.0 && v == 0.0
    ensures x * y != v
  {
  }

  // ---------------------------------------------------------------------------
  // The update step

  /** `update`, up to the actor step: Q-values from the per-trajectory rewards,
      every per-trajectory list flattened, advantages from the flat arrays.
      `values` stands for the critic's predictions and `sigma` for the standard
      deviation of the raw advantages. With a critic the step always fails:
      after the actor step, line 95 iterates over `baseline_gradient_steps`. */
  method Update<O, A>(agent: PGAgent, obs: seq<seq<O>>, actions: seq<seq<A>>, rewards: seq<seq<real>>,
                      terminals: seq<seq<bool>>, values: seq<real>, sigma: real)
    returns (r: Result<TrainingBatch<O, A>, UpdateError>)
    requires agent.useRewardToGo ==> agent.gamma != 0.0
    requires agent.normalizeAdvantages ==> sigma > 0.0
    ensures |rewards| == 0 <==> r == Err(EmptyRewards)
    ensures |rewards| > 0 && (|obs| == 0 || |actions| == 0 || |terminals| == 0) ==> r == Err(NothingToConcatenate)
    ensures |rewards| > 0 && |obs| > 0 && |actions| > 0 && |terminals| > 0 ==>
      var a := EstimateAdvantage(agent, QValues(rewards, agent.gamma, agent.useRewardToGo), values, sigma);
      (a.Err? ==> r == Err(Advantage(a.error))) &&
      (a.Ok? && agent.hasCritic ==> r == Err(BaselineStepsNotIterable))
    ensures agent.hasCritic ==> r.Err?
    ensures !agent.hasCritic && |rewards| > 0 && |obs| > 0 && |actions| > 0 && |terminals| > 0 ==> r.Ok?
    ensures r.Ok? ==>
      var b := r.value;
      b.obs == Concat(obs) && b.actions == Concat(actions) &&
      b.rewards == Concat(rewards) && b.terminals == Concat(terminals) &&
      b.qValues == QValues(rewards, agent.gamma, agent.useRewardToGo) &&
      EstimateAdvantage(agent, b.qValues, values, sigma) == Ok(b.advantages)
  {
    if |rewards| == 0 {
      return Err(EmptyRewards);
    }
    var q := CalculateQVals(agent, rewards);
    if |obs| == 0 || |actions| == 0 || |terminals| == 0 {
      return Err(NothingToConcatenate);
    }
    var flatObs, flatActions := Concat(obs), Concat(actions);
    var flatTerminals, flatRewards := Concat(terminals), Concat(rewards);
    var advantages := EstimateAdvantage(agent, q, values, sigma);
    if advantages.Err? {
      return Err(Advantage(advantages.error));
    }
    if agent.hasCritic {
      return Err(BaselineStepsNotIterable);
    }
    r := Ok(TrainingBatch(flatObs, flatActions, flatRewards, flatTerminals, q, advantages.value));
  }
}
