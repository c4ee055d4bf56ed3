/** Properties of the earlier program: what its three faulty declarations
    do as written, what the corrected program does instead, and the
    behaviours it keeps in both builds. */
module PropertiesV1 {
  import opened Solana
  import opened Accounts
  import opened RewardsV1
  import opened StakingV1

  // ---------------------------------------------------------------------------
  // The position account is allocated with 90 bytes

  /** As written, no `stake` can succeed: the position account is 8 bytes too
      small to be read as a `UserStake`, so Anchor's account validation fails
      before the handler runs, whatever the inputs. */
  lemma StakeNeverSucceedsAsWritten(p: PoolRec, s: StakeRec, l: Ledger, ctx: PositionAccounts,
                                    amount: u64, lockDuration: i64, now: i64)
    ensures var r := StakeOutcome(AsWritten, p, s, l, ctx, amount, lockDuration, now);
            r.Err? && r.error.Anchor?
  {
  }

  /** With the full size, a stake passes Anchor's checks whenever the position
      is at its address and both token accounts exist. */
  lemma StakeAccountsValidCorrected(p: PoolRec, l: Ledger, ctx: PositionAccounts, amount: u64)
    requires ctx.userStake == PositionAddress(Corrected, ctx.user, p.poolId, amount)
    requires ctx.userTokenAccount in l && ctx.vault in l
    ensures StakeAccountsValid(Corrected, l, p, ctx, amount)
  {
  }

  // ---------------------------------------------------------------------------
  // The position address is derived from the amount

  /** As written, the position address depends on the staked amount and not
      on the pool: the same user staking the same amount into two pools
      reaches one account, and two amounts into one pool reach two. */
  lemma PositionAddressAsWritten(user: Pubkey, pool1: u64, pool2: u64, amount1: u64, amount2: u64)
    ensures PositionAddress(AsWritten, user, pool1, amount1) == PositionAddress(AsWritten, user, pool2, amount1)
    ensures amount1 != amount2 ==>
              PositionAddress(AsWritten, user, pool1, amount1) != PositionAddress(AsWritten, user, pool1, amount2)
  {
    AddressInjective(UserStakeByIdSeeds(user, amount1), UserStakeByIdSeeds(user, amount2));
  }

  /** Corrected, each user has one position per pool, whatever the amount. */
  lemma PositionAddressCorrected(user1: Pubkey, user2: Pubkey, pool1: u64, pool2: u64, amount1: u64, amount2: u64)
    ensures PositionAddress(Corrected, user1, pool1, amount1) == PositionAddress(Corrected, user2, pool2, amount2)
            <==> user1 == user2 && pool1 == pool2
  {
    AddressInjective(UserStakeByIdSeeds(user1, pool1), UserStakeByIdSeeds(user2, pool2));
  }

  // ---------------------------------------------------------------------------
  // The vault transfers are signed with the vaults' seeds

  /** As written, `unstake` never succeeds: the vault transfer needs the
      pool's signature, and the program signs for a vault-seeded address
      instead. */
  lemma UnstakeNeverSucceedsAsWritten(p: PoolRec, s: StakeRec, l: Ledger, ctx: PositionAccounts,
                                      amount: u64, now: i64)
    requires ctx.pool == PoolAddress(p.poolId) && ctx.user.Wallet?
    ensures UnstakeOutcome(AsWritten, p, s, l, ctx, amount, now).Err?
  {
    AddressInjective(PoolSeeds(p.poolId), PoolVaultByIdSeeds(p.poolId));
  }

  /** As written, a claim succeeds only when it pays nothing and changes
      nothing. */
  lemma ClaimPaysNothingAsWritten(p: PoolRec, s: StakeRec, l: Ledger, ctx: PositionAccounts, now: i64)
    requires ctx.pool == PoolAddress(p.poolId) && ctx.user.Wallet?
    ensures var r := ClaimOutcome(AsWritten, p, s, l, ctx, now);
            r.Ok? ==> r.value == (s, l)
  {
    AddressInjective(PoolSeeds(p.poolId), RewardVaultByIdSeeds(p.poolId));
  }

  /** Corrected, a positive reward is paid whenever the vault belongs to the
      pool, holds the reward and shares the destination's mint, and the
      destination has room for it. */
  lemma ClaimPaysCorrected(p: PoolRec, s: StakeRec, l: Ledger, ctx: PositionAccounts, now: i64)
    requires ctx.pool == PoolAddress(p.poolId)
    requires TokenAccountsExist(l, ctx) && ctx.userTokenAccount != ctx.vault
    requires InI64(now - s.lastClaimed) && PositionReward(p, s, now - s.lastClaimed).Some?
    requires var reward := PositionReward(p, s, now - s.lastClaimed).value;
             && reward > 0
             && l[ctx.vault].owner == ctx.pool && l[ctx.vault].mint == l[ctx.userTokenAccount].mint
             && reward <= l[ctx.vault].amount && l[ctx.userTokenAccount].amount + reward <= U64_MAX
    ensures ClaimOutcome(Corrected, p, s, l, ctx, now).Ok?
    ensures ClaimOutcome(Corrected, p, s, l, ctx, now).value.0 == s.(pendingRewards := 0, lastClaimed := now)
  {
  }

  /** Corrected, staking and then unstaking the same amount once the lock
      has run out gives every token back. */
  lemma StakeThenUnstakeAfterLock(p: PoolRec, s: StakeRec, l: Ledger, ctx: PositionAccounts,
                                  amount: u64, lockDuration: i64, now: i64, later: i64)
    requires ctx.pool == PoolAddress(p.poolId) && ctx.userTokenAccount != ctx.vault && !s.isSlashed
    requires StakeOutcome(Corrected, p, s, l, ctx, amount, lockDuration, now).Ok?
    requires l[ctx.vault].owner == ctx.pool
    requires later >= StakeOutcome(Corrected, p, s, l, ctx, amount, lockDuration, now).value.1.lockUntil
    ensures var o := StakeOutcome(Corrected, p, s, l, ctx, amount, lockDuration, now).value;
            var u := UnstakeOutcome(Corrected, o.0, o.1, o.2, ctx, amount, later);
            && u.Ok?
            && BalanceOf(u.value.1, ctx.userTokenAccount) == BalanceOf(l, ctx.userTokenAccount)
            && BalanceOf(u.value.1, ctx.vault) == BalanceOf(l, ctx.vault)
  {
    var o := StakeOutcome(Corrected, p, s, l, ctx, amount, lockDuration, now).value;
    var l1 := o.2;
    assert l1 == StakeTransfer(l, ctx, amount).value;
    assert l1[ctx.vault] == l[ctx.vault].(amount := l[ctx.vault].amount + amount);
    assert l1[ctx.userTokenAccount] == l[ctx.userTokenAccount].(amount := l[ctx.userTokenAccount].amount - amount);
    assert EarlyExitPenalty(o.0, o.1, amount, later) == Some(0);
    assert UnstakeTransfer(Corrected, l1, o.0, ctx, amount).Ok?;
  }

  // ---------------------------------------------------------------------------
  // Behaviours of both builds

  /** A slashing rate above 100 % makes an early exit of at least 10000
      tokens panic: either the product overflows or the penalty exceeds the
      amount and `checked_sub` fails. */
  lemma ExcessiveRatePanics(b: Build, p: PoolRec, s: StakeRec, l: Ledger, ctx: PositionAccounts,
                            amount: u64, now: i64)
    requires TokenAccountsExist(l, ctx) && amount <= s.stakeAmount && !s.isSlashed
    requires now < s.lockUntil && InI64(s.lockUntil - now)
    requires p.slashingRate > BPS && amount >= BPS
    ensures UnstakeOutcome(b, p, s, l, ctx, amount, now) == Err(Panic)
  {
    var pen := CalculateSlashingPenalty(amount, s.lockUntil - now, p.slashingRate);
    if pen.Some? {
      PenaltyCanExceedAmount(amount, s.lockUntil - now, p.slashingRate);
    }
  }

  /** Nothing ties the position to the signer: whoever signs can unstake any
      position, with the same effect as its owner. */
  lemma UnstakeIgnoresPositionOwner(b: Build, p: PoolRec, s: StakeRec, l: Ledger, ctx: PositionAccounts,
                                    amount: u64, now: i64, owner: Pubkey)
    ensures UnstakeOutcome(b, p, s.(user := owner), l, ctx, amount, now).Ok?
            == UnstakeOutcome(b, p, s, l, ctx, amount, now).Ok?
  {
    assert EarlyExitPenalty(p, s.(user := owner), amount, now) == EarlyExitPenalty(p, s, amount, now);
  }

  // ---------------------------------------------------------------------------
  // The worked scenario, corrected

  const Admin := Wallet(1)
  const Alice := Wallet(2)
  const Mint := Wallet(3)
  const AliceTokens := Wallet(4)
  const ScenarioPoolId: u64 := 7
  const T0: i64 := 1_700_000_000

  function Vault(): Pubkey { PoolVaultAddress(ScenarioPoolId) }

  function ScenarioPool(): PoolRec
  {
    PoolRec(ScenarioPoolId, Mint, Vault(), RewardVaultAddress(ScenarioPoolId),
            Admin, 1000, 0, 86400, 500, 0, DEFAULT_PERFORMANCE_MULTIPLIER, T0, true)
  }

  function LedgerWith(alice: u64, vault: u64): Ledger
  {
    map[AliceTokens := TokenAccount(Mint, Alice, alice), Vault() := TokenAccount(Mint, PoolAddress(ScenarioPoolId), vault)]
  }

  lemma LedgerWithUpdate(a: u64, v: u64, a2: u64, v2: u64)
    ensures LedgerWith(a, v)[AliceTokens := TokenAccount(Mint, Alice, a2)] == LedgerWith(a2, v)
    ensures LedgerWith(a, v)[Vault() := TokenAccount(Mint, PoolAddress(ScenarioPoolId), v2)] == LedgerWith(a, v2)
  {
    assert LedgerWith(a, v)[AliceTokens := TokenAccount(Mint, Alice, a2)].Keys == LedgerWith(a2, v).Keys;
    assert LedgerWith(a, v)[Vault() := TokenAccount(Mint, PoolAddress(ScenarioPoolId), v2)].Keys
           == LedgerWith(a, v2).Keys;
  }

  function AliceAccounts(amount: u64): PositionAccounts
  {
    PositionAccounts(PoolAddress(ScenarioPoolId), PositionAddress(Corrected, Alice, ScenarioPoolId, amount),
                     Alice, AliceTokens, Vault())
  }

  function AlicePosition(amount: u64): StakeRec
  {
    StakeRec(Alice, ScenarioPoolId, amount, 86400, T0, T0 + 86400, T0, 0, false)
  }

  lemma ScenarioStake()
    ensures StakeOutcome(Corrected, ScenarioPool(), ZeroStake, LedgerWith(1000, 0), AliceAccounts(1000),
                         1000, 86400, T0)
            == Ok((ScenarioPool().(currentStaked := 1000), AlicePosition(1000), LedgerWith(0, 1000)))
  {
    LedgerWithUpdate(1000, 0, 0, 1000);
    LedgerWithUpdate(0, 0, 0, 1000);
    assert StakeTransfer(LedgerWith(1000, 0), AliceAccounts(1000), 1000) == Ok(LedgerWith(0, 1000));
  }

  lemma ScenarioUnstake()
    ensures UnstakeOutcome(Corrected, ScenarioPool().(currentStaked := 1000), AlicePosition(1000),
                           LedgerWith(0, 1000), AliceAccounts(1000), 1000, T0 + 43200)
            == Ok((AlicePosition(0), LedgerWith(950, 50)))
  {
    var p := ScenarioPool().(currentStaked := 1000);
    assert EarlyExitPenalty(p, AlicePosition(1000), 1000, T0 + 43200) == Some(50);
    LedgerWithUpdate(0, 50, 950, 50);
    LedgerWithUpdate(0, 1000, 0, 50);
    assert UnstakeTransfer(Corrected, LedgerWith(0, 1000), p, AliceAccounts(1000), 950) == Ok(LedgerWith(950, 50));
  }

  /** The pool of capacity 1000, 5 % slashing and a one-day lock, in the
      corrected program: Alice stakes 1000, a stake of 1 more exceeds the
      capacity, and unstaking 1000 half a day later returns 950 while the 50
      of penalty stay in the vault. `unstake` does not write the pool, so
      `current_staked` stays at 1000. */
  lemma Scenario()
    ensures var st := StakeOutcome(Corrected, ScenarioPool(), ZeroStake, LedgerWith(1000, 0), AliceAccounts(1000),
                                   1000, 86400, T0);
            && st.Ok?
            && st.value.0.currentStaked == 1000
            && StakeOutcome(Corrected, st.value.0, st.value.1, st.value.2, AliceAccounts(1), 1, 86400, T0)
               == Err(Program(PoolCapacityExceeded))
            && var un := UnstakeOutcome(Corrected, st.value.0, st.value.1, st.value.2, AliceAccounts(1000),
                                        1000, T0 + 43200);
               && un.Ok?
               && BalanceOf(un.value.1, AliceTokens) == 950
               && BalanceOf(un.value.1, Vault()) == 50
               && un.value.0.stakeAmount == 0
  {
    ScenarioStake();
    ScenarioUnstake();
  }
}
