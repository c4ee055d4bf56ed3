/** The reward and penalty formulas of the earlier program, computed in
    `u64` with `checked_*().unwrap()`: a `None` result is a panic, which
    aborts the transaction. */
module RewardsV1 {
  import opened Solana
  import opened Arith

  /** Basis points: 10000 is 100 %. */
  const BPS: nat := 10000

  const TWO_64: nat := 0x1_0000_0000_0000_0000

  /** Rust's `x as u64` for an `i64`: the same 64 bits read as unsigned, so a
      negative value wraps around to `x + 2^64`. */
  function AsU64(x: i64): (r: u64)
    ensures 0 <= x ==> r == x
    ensures x < 0 ==> r == x + TWO_64 && r > I64_MAX
  {
    if x >= 0 then x else x + TWO_64
  }

  /** `u64::checked_mul`. */
  function CheckedMulU64(a: u64, b: u64): (r: Option<u64>)
    ensures r.Some? <==> a * b <= U64_MAX
    ensures r.Some? ==> r.value == a * b
  {
    MulMono(0, a, b);
    if a * b <= U64_MAX then Some(a * b) else None
  }

  /** `base + base * performance_multiplier / 10000` with
      `base = stake * (time as u64) * base_rate`. Every step is checked
      (the final `+` under the release profile's overflow checks). */
  function CalculateRewards(stake: u64, timeStaked: i64, baseRate: u64, perfMult: u64): (r: Option<u64>)
    ensures timeStaked == 0 ==> r == Some(0)
    ensures var st := stake * AsU64(timeStaked);
            r.None? <==> st > U64_MAX || st * baseRate > U64_MAX || st * baseRate * perfMult > U64_MAX
                         || st * baseRate + st * baseRate * perfMult / BPS > U64_MAX
    ensures r.Some? ==>
              var base := stake * AsU64(timeStaked) * baseRate;
              && base <= r.value
              && r.value * BPS <= base * (BPS + perfMult) < r.value * BPS + BPS
  {
    match CheckedMulU64(stake, AsU64(timeStaked))
    case None => None
    case Some(st) =>
      match CheckedMulU64(st, baseRate)
      case None => None
      case Some(base) =>
        match CheckedMulU64(base, perfMult)
        case None => None
        case Some(scaled) =>
          var bonus := scaled / BPS;
          if base + bonus > U64_MAX then None
          else
            FloorShare(base, perfMult);
            Some(base + bonus)
  }

  /** `base + floor(base * m / 10000)` is `floor(base * (10000 + m) / 10000)`. */
  lemma FloorShare(base: nat, m: nat)
    ensures var v := base + base * m / BPS;
            v * BPS <= base * (BPS + m) < v * BPS + BPS
  {
    var q, rem := base * m / BPS, base * m % BPS;
    assert base * m == q * BPS + rem;
    assert (base + q) * BPS == base * BPS + q * BPS;
    assert base * (BPS + m) == base * BPS + base * m;
  }

  /** With the default multiplier of 10000 the bonus equals the base, so the
      reward is twice `stake * time * base_rate`. */
  lemma DefaultMultiplierDoubles(stake: u64, t: i64, baseRate: u64)
    requires 0 <= t && CalculateRewards(stake, t, baseRate, 10000).Some?
    ensures CalculateRewards(stake, t, baseRate, 10000).value == 2 * (stake * t * baseRate)
  {
    var base: nat := stake * t * baseRate;
    MulDivCancel(base, BPS);
  }

  /** A clock behind `last_claimed` makes the elapsed time negative; the cast
      turns it into more than `i64::MAX` seconds, and any stake of 2 or more
      then overflows: the claim panics. */
  lemma NegativeTimePanics(stake: u64, t: i64, baseRate: u64, perfMult: u64)
    requires t < 0 && stake >= 2
    ensures CalculateRewards(stake, t, baseRate, perfMult).None?
  {
    MulMono(2, stake, AsU64(t));
  }

  /** Over non-negative times, more time never earns less and a computation
      that does not overflow stays so for a shorter time. */
  lemma {:induction false} RewardsMonotoneInTime(stake: u64, t1: i64, t2: i64, baseRate: u64, perfMult: u64)
    requires 0 <= t1 <= t2
    requires CalculateRewards(stake, t2, baseRate, perfMult).Some?
    ensures CalculateRewards(stake, t1, baseRate, perfMult).Some?
    ensures CalculateRewards(stake, t1, baseRate, perfMult).value
            <= CalculateRewards(stake, t2, baseRate, perfMult).value
  {
    var s1: nat, s2: nat := stake * t1, stake * t2;
    MulMono(t1, t2, stake);
    var b1: nat, b2: nat := s1 * baseRate, s2 * baseRate;
    MulMono(s1, s2, baseRate);
    MulMono(b1, b2, perfMult);
    DivMono(b1 * perfMult, b2 * perfMult, BPS);
    assert CalculateRewards(stake, t1, baseRate, perfMult).Some?;
    var v1 := CalculateRewards(stake, t1, baseRate, perfMult).value;
    var v2 := CalculateRewards(stake, t2, baseRate, perfMult).value;
    MulMono(b1, b2, BPS + perfMult);
    FloorOrder(v1, v2, b1 * (BPS + perfMult), b2 * (BPS + perfMult), BPS);
  }

  /** Two floor quotients follow the order of what they divide. */
  lemma FloorOrder(v1: nat, v2: nat, x1: nat, x2: nat, d: nat)
    requires v1 * d <= x1 <= x2 < v2 * d + d
    ensures v1 <= v2
  {
    if v1 > v2 {
      MulMono(v2 + 1, v1, d);
      assert false;
    }
  }

  /** `stake * rate / 10000`, checked in `u64`; nothing once the lock is over. */
  function CalculateSlashingPenalty(amount: u64, timeRemaining: i64, slashingRate: u16): (r: Option<u64>)
    ensures timeRemaining <= 0 ==> r == Some(0)
    ensures timeRemaining > 0 ==> (r.None? <==> amount * slashingRate > U64_MAX)
    ensures r.Some? && timeRemaining > 0 ==> r.value * BPS <= amount * slashingRate < r.value * BPS + BPS
    ensures r.Some? && slashingRate <= BPS ==> r.value <= amount
  {
    if timeRemaining <= 0 then Some(0)
    else if amount * slashingRate > U64_MAX then None
    else
      var penalty: nat := amount * slashingRate / BPS;
      if slashingRate <= BPS then
        MulMono(slashingRate, BPS, amount);
        DivMono(amount * slashingRate, amount * BPS, BPS);
        MulDivCancel(amount, BPS);
        Some(penalty)
      else
        Some(penalty)
  }

  /** The slashing rate is not validated in this version: above 10000 basis
      points the penalty on an amount of at least 10000 exceeds the amount. */
  lemma {:induction false} PenaltyCanExceedAmount(amount: u64, timeRemaining: i64, slashingRate: u16)
    requires timeRemaining > 0 && slashingRate > BPS && amount >= BPS
    requires CalculateSlashingPenalty(amount, timeRemaining, slashingRate).Some?
    ensures CalculateSlashingPenalty(amount, timeRemaining, slashingRate).value > amount
  {
    MulMono(BPS + 1, slashingRate, amount);
    assert (BPS + 1) * amount == amount * BPS + amount;
    MulMono(BPS, amount, 1);
    DivMono((amount + 1) * BPS, amount * slashingRate, BPS);
    MulDivCancel(amount + 1, BPS);
  }
}
