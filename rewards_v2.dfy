/** The reward and penalty formulas of the current program
    (`calculate_rewards`, `calculate_slashing_penalty`), computed in `u128`
    with checked operations. A `None` result is `ErrorCode::MathOverflow`. */
module RewardsV2 {
  import opened Solana
  import opened Arith

  /** Fixed-point precision of `base_reward_rate`. */
  const PRECISION_MULT: nat := 1_000_000

  /** Basis points: 10000 is 100 %. */
  const BPS: nat := 10000

  function MinU64(x: nat): u64
  {
    if x > U64_MAX then U64_MAX else x
  }

  /** The exact reward before saturation: the product of stake, elapsed
      seconds, rate and multiplier, scaled down by both denominators at once. */
  function ExactReward(stake: nat, t: nat, baseRate: nat, perfMult: nat): nat
  {
    stake * t * baseRate * perfMult / (BPS * PRECISION_MULT)
  }

  /** `stake * t` cannot overflow `u128` for a `u64` stake and an `i64` time. */
  lemma StakeTimeFitsU128(stake: u64, t: i64)
    requires t > 0
    ensures stake * t <= U128_MAX
  {
    MulMono(stake, U64_MAX, t);
    MulMono(t, I64_MAX, U64_MAX);
  }

  /** `u128::checked_mul` on non-negative operands. */
  function CheckedMulU128(a: nat, b: nat): (r: Option<nat>)
    ensures r.Some? <==> a * b <= U128_MAX
    ensures r.Some? ==> r.value == a * b
  {
    if a * b <= U128_MAX then Some(a * b) else None
  }

  function CalculateRewards(stake: u64, timeStaked: i64, baseRate: u64, perfMult: u64): (r: Option<u64>)
    ensures timeStaked <= 0 ==> r == Some(0)
    ensures timeStaked > 0 ==>
              (r.None? <==> stake * timeStaked * baseRate > U128_MAX
                            || stake * timeStaked * baseRate * perfMult > U128_MAX)
    ensures r.Some? && timeStaked > 0 ==>
              r.value == MinU64(ExactReward(stake, timeStaked, baseRate, perfMult))
  {
    if timeStaked <= 0 then Some(0)
    else
      // `stake * t` never overflows `u128` (StakeTimeFitsU128): of the two
      // checked multiplications forming `base`, only `* base_rate` can fail.
      var t: nat := timeStaked;
      StakeTimeFitsU128(stake, timeStaked);
      match CheckedMulU128(stake, t)
      case None => None
      case Some(st) =>
      match CheckedMulU128(st, baseRate)
      case None => None
      case Some(base) =>
        match CheckedMulU128(base, perfMult)
        case None => None
        case Some(scaled) =>
          var bonus: nat := scaled / BPS;
          var finalAmount: nat := bonus / PRECISION_MULT;
          DivDiv(scaled, BPS, PRECISION_MULT);
          Some(MinU64(finalAmount))
  }

  function CalculateSlashingPenalty(amount: u64, timeRemaining: i64, slashingRate: u16): (r: Option<u64>)
    ensures r.Some?
    ensures timeRemaining <= 0 ==> r.value == 0
    ensures timeRemaining > 0 && slashingRate <= BPS ==>
              r.value * BPS <= amount * slashingRate < r.value * BPS + BPS
    ensures slashingRate <= BPS ==> r.value <= amount
  {
    if timeRemaining <= 0 then Some(0)
    else
      MulMono(amount, U64_MAX, slashingRate);
      var penalty := amount * slashingRate / BPS;
      if slashingRate <= BPS then
        BasisPointsAtMostWhole(amount, slashingRate);
        Some(MinU64(penalty))
      else
        Some(MinU64(penalty))
  }

  /** A share of at most 10000 basis points is at most the whole. */
  lemma BasisPointsAtMostWhole(amount: nat, rate: nat)
    requires rate <= BPS
    ensures amount * rate / BPS <= amount
  {
    MulMono(rate, BPS, amount);
    DivMono(amount * rate, amount * BPS, BPS);
    MulDivCancel(amount, BPS);
  }

  /** With the default multiplier of 10000 the multiplier is neutral: the
      reward is the stake-seconds times the rate over the precision. */
  lemma DefaultMultiplierReward(stake: u64, t: i64, baseRate: u64)
    requires t > 0 && CalculateRewards(stake, t, baseRate, 10000).Some?
    ensures CalculateRewards(stake, t, baseRate, 10000).value
            == MinU64(stake * t * baseRate / PRECISION_MULT)
  {
    var base: nat := stake * t * baseRate;
    MulDivCancel(base, BPS);
    DivDiv(base * BPS, BPS, PRECISION_MULT);
  }

  /** A longer elapsed time never yields a smaller reward, and never turns an
      overflow-free computation into an overflowing one when it shrinks. */
  lemma {:induction false} RewardsMonotoneInTime(stake: u64, t1: i64, t2: i64, baseRate: u64, perfMult: u64)
    requires t1 <= t2
    requires CalculateRewards(stake, t2, baseRate, perfMult).Some?
    ensures CalculateRewards(stake, t1, baseRate, perfMult).Some?
    ensures CalculateRewards(stake, t1, baseRate, perfMult).value
            <= CalculateRewards(stake, t2, baseRate, perfMult).value
  {
    if t1 > 0 {
      var s1: nat, s2: nat := stake * t1, stake * t2;
      MulMono(t1, t2, stake);
      var b1: nat, b2: nat := s1 * baseRate, s2 * baseRate;
      MulMono(s1, s2, baseRate);
      var x1: nat, x2: nat := b1 * perfMult, b2 * perfMult;
      MulMono(b1, b2, perfMult);
      DivMono(x1, x2, BPS * PRECISION_MULT);
      assert ExactReward(stake, t1, baseRate, perfMult) == x1 / (BPS * PRECISION_MULT);
      assert ExactReward(stake, t2, baseRate, perfMult) == x2 / (BPS * PRECISION_MULT);
    }
  }
}
