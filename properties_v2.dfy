/** Properties of the current program that relate several instructions or
    hold across every instruction. */
module PropertiesV2 {
  import opened Solana
  import opened Accounts
  import opened RewardsV2
  import opened StakingV2

  // ---------------------------------------------------------------------------
  // Pool invariant

  /** Every instruction that writes a pool keeps `PoolValid`. */
  lemma StakeKeepsPoolValid(p: PoolRec, s: StakeRec, l: Ledger, ctx: PositionAccounts,
                            amount: u64, lockDuration: i64, now: i64)
    requires PoolValid(ctx.pool, p)
    requires StakeOutcome(p, s, l, ctx, amount, lockDuration, now).Ok?
    ensures PoolValid(ctx.pool, StakeOutcome(p, s, l, ctx, amount, lockDuration, now).value.0)
  {
  }

  lemma InitVaultsKeepPoolValid(p: PoolRec, l: Ledger, ctx: InitVaultAccounts, poolIdArg: u64)
    requires PoolValid(ctx.pool, p)
    ensures InitPoolVaultOutcome(p, l, ctx, poolIdArg).Ok? ==>
              PoolValid(ctx.pool, InitPoolVaultOutcome(p, l, ctx, poolIdArg).value.0)
    ensures InitRewardVaultOutcome(p, l, ctx, poolIdArg).Ok? ==>
              PoolValid(ctx.pool, InitRewardVaultOutcome(p, l, ctx, poolIdArg).value.0)
  {
  }

  /** A vault is created once: the same instruction again fails, because the
      account address is in use. */
  lemma VaultsInitOnce(p: PoolRec, l: Ledger, ctx: InitVaultAccounts, poolIdArg: u64)
    ensures InitPoolVaultOutcome(p, l, ctx, poolIdArg).Ok? ==>
              var o := InitPoolVaultOutcome(p, l, ctx, poolIdArg).value;
              InitPoolVaultOutcome(o.0, o.1, ctx, poolIdArg) == Err(Anchor(AccountInUse))
    ensures InitRewardVaultOutcome(p, l, ctx, poolIdArg).Ok? ==>
              var o := InitRewardVaultOutcome(p, l, ctx, poolIdArg).value;
              InitRewardVaultOutcome(o.0, o.1, ctx, poolIdArg) == Err(Anchor(AccountInUse))
  {
  }

  // ---------------------------------------------------------------------------
  // The positions of a pool are covered by `current_staked`

  /** What position `s` contributes to the pool with id `poolId`. */
  function Contribution(s: StakeRec, poolId: u64): nat
  {
    if s.poolId == poolId then s.stakeAmount else 0
  }

  /** The total stake of the positions in `ps` that belong to pool `poolId`. */
  function StakedIn(ps: seq<StakeRec>, poolId: u64): nat
  {
    if ps == [] then 0 else Contribution(ps[0], poolId) + StakedIn(ps[1..], poolId)
  }

  /** The positions never hold more than `current_staked` records. */
  predicate Covered(p: PoolRec, ps: seq<StakeRec>)
  {
    StakedIn(ps, p.poolId) <= p.currentStaked
  }

  /** Replacing one position changes the total by the difference of its
      contributions. */
  lemma {:induction false} StakedInUpdate(ps: seq<StakeRec>, i: nat, n: StakeRec, poolId: u64)
    requires i < |ps|
    ensures StakedIn(ps[i := n], poolId) + Contribution(ps[i], poolId)
            == StakedIn(ps, poolId) + Contribution(n, poolId)
  {
    if i > 0 {
      assert ps[i := n][1..] == ps[1..][i - 1 := n];
      StakedInUpdate(ps[1..], i - 1, n, poolId);
    }
  }

  /** `stake` raises `current_staked` by at least what it adds to the
      positions of the pool. */
  lemma StakeKeepsCovered(p: PoolRec, ps: seq<StakeRec>, i: nat, l: Ledger, ctx: PositionAccounts,
                          amount: u64, lockDuration: i64, now: i64)
    requires i < |ps| && Covered(p, ps)
    requires StakeOutcome(p, ps[i], l, ctx, amount, lockDuration, now).Ok?
    ensures var o := StakeOutcome(p, ps[i], l, ctx, amount, lockDuration, now).value;
            Covered(o.0, ps[i := o.1])
  {
    var o := StakeOutcome(p, ps[i], l, ctx, amount, lockDuration, now).value;
    StakedInUpdate(ps, i, o.1, p.poolId);
  }

  /** A `stake` in another pool can only take stake away from this one (a
      first stake reuses an empty account). */
  lemma StakeElsewhereKeepsCovered(p: PoolRec, q: PoolRec, ps: seq<StakeRec>, i: nat, l: Ledger,
                                   ctx: PositionAccounts, amount: u64, lockDuration: i64, now: i64)
    requires i < |ps| && Covered(p, ps) && q.poolId != p.poolId
    requires StakeOutcome(q, ps[i], l, ctx, amount, lockDuration, now).Ok?
    ensures Covered(p, ps[i := StakeOutcome(q, ps[i], l, ctx, amount, lockDuration, now).value.1])
  {
    var o := StakeOutcome(q, ps[i], l, ctx, amount, lockDuration, now).value;
    StakedInUpdate(ps, i, o.1, p.poolId);
  }

  lemma UnstakeKeepsCovered(p: PoolRec, ps: seq<StakeRec>, i: nat, l: Ledger, ctx: PositionAccounts,
                            amount: u64, now: i64)
    requires i < |ps| && Covered(p, ps)
    requires UnstakeOutcome(p, ps[i], l, ctx, amount, now).Ok?
    ensures Covered(p, ps[i := UnstakeOutcome(p, ps[i], l, ctx, amount, now).value.0])
  {
    StakedInUpdate(ps, i, UnstakeOutcome(p, ps[i], l, ctx, amount, now).value.0, p.poolId);
  }

  lemma ClaimKeepsCovered(p: PoolRec, ps: seq<StakeRec>, i: nat, l: Ledger, ctx: ClaimAccounts, now: i64)
    requires i < |ps| && Covered(p, ps)
    requires ClaimOutcome(p, ps[i], l, ctx, now).Ok?
    ensures Covered(p, ps[i := ClaimOutcome(p, ps[i], l, ctx, now).value.0])
  {
    StakedInUpdate(ps, i, ClaimOutcome(p, ps[i], l, ctx, now).value.0, p.poolId);
  }

  lemma CloseKeepsCovered(p: PoolRec, ps: seq<StakeRec>, i: nat, ctx: CloseAccounts)
    requires i < |ps| && Covered(p, ps)
    requires CloseStakeOutcome(ps[i], ctx).Ok?
    ensures Covered(p, ps[i := CloseStakeOutcome(ps[i], ctx).value])
  {
    StakedInUpdate(ps, i, CloseStakeOutcome(ps[i], ctx).value, p.poolId);
  }

  // ---------------------------------------------------------------------------
  // Round trips

  /** Staking and then unstaking the same amount once the lock has run out
      gives every token back: the user's account and the vault hold what they
      held before. */
  lemma StakeThenUnstakeAfterLock(p: PoolRec, s: StakeRec, l: Ledger, ctx: PositionAccounts,
                                  amount: u64, lockDuration: i64, now: i64, later: i64)
    requires PoolValid(ctx.pool, p)
    requires s.user in {Default, ctx.user} && !s.isSlashed
    requires ctx.userTokenAccount != ctx.poolVault
    requires StakeOutcome(p, s, l, ctx, amount, lockDuration, now).Ok?
    requires ctx.poolVault in l && l[ctx.poolVault].owner == ctx.pool
    requires later >= StakeOutcome(p, s, l, ctx, amount, lockDuration, now).value.1.lockUntil
    ensures var o := StakeOutcome(p, s, l, ctx, amount, lockDuration, now).value;
            var u := UnstakeOutcome(o.0, o.1, o.2, ctx, amount, later);
            && u.Ok?
            && BalanceOf(u.value.1, ctx.userTokenAccount) == BalanceOf(l, ctx.userTokenAccount)
            && BalanceOf(u.value.1, ctx.poolVault) == BalanceOf(l, ctx.poolVault)
  {
    var o := StakeOutcome(p, s, l, ctx, amount, lockDuration, now).value;
    var l1 := o.2;
    assert l1 == StakeTransfer(l, ctx, amount).value;
    assert l1[ctx.poolVault] == l[ctx.poolVault].(amount := l[ctx.poolVault].amount + amount);
    assert l1[ctx.userTokenAccount] == l[ctx.userTokenAccount].(amount := l[ctx.userTokenAccount].amount - amount);
    assert EarlyExitPenalty(o.0, o.1, amount, later) == 0;
    assert ctx.pool in UnstakeSigners(o.0, ctx);
    assert Transfer(l1, ctx.poolVault, ctx.userTokenAccount, Some(ctx.tokenMint), ctx.pool,
                    UnstakeSigners(o.0, ctx), amount).Ok?;
  }

  /** Claiming twice at the same time pays once: the second claim changes
      nothing. */
  lemma ClaimTwiceSameTime(p: PoolRec, s: StakeRec, l: Ledger, ctx: ClaimAccounts, now: i64)
    requires ClaimOutcome(p, s, l, ctx, now).Ok?
    ensures var o := ClaimOutcome(p, s, l, ctx, now).value;
            ClaimOutcome(p, o.0, o.1, ctx, now) == Ok(o)
  {
    var o := ClaimOutcome(p, s, l, ctx, now).value;
    assert o.1.Keys == l.Keys;
  }

  /** Nothing in `claim_rewards` looks at who owns the destination: the same
      claim succeeds, with the same effect on the position, whoever the owner
      of the destination account is. */
  lemma ClaimIgnoresDestinationOwner(p: PoolRec, s: StakeRec, l: Ledger, ctx: ClaimAccounts, now: i64,
                                     stranger: Pubkey)
    requires ctx.userTokenAccount != ctx.rewardVault
    requires ctx.userTokenAccount in l
    requires ClaimOutcome(p, s, l, ctx, now).Ok?
    ensures var l' := l[ctx.userTokenAccount := l[ctx.userTokenAccount].(owner := stranger)];
            && ClaimOutcome(p, s, l', ctx, now).Ok?
            && ClaimOutcome(p, s, l', ctx, now).value.0 == ClaimOutcome(p, s, l, ctx, now).value.0
  {
  }

  // ---------------------------------------------------------------------------
  // A worked scenario

  const Admin := Wallet(1)
  const Alice := Wallet(2)
  const Mint := Wallet(3)
  const AliceTokens := Wallet(4)
  const ScenarioPoolId: u64 := 7
  const T0: i64 := 1_700_000_000

  function ScenarioPoolKey(): Pubkey { PoolAddress(ScenarioPoolId) }

  function ScenarioPool(): PoolRec
  {
    PoolRec(ScenarioPoolId, Mint, PoolVaultAddress(ScenarioPoolKey()), RewardVaultAddress(ScenarioPoolKey()),
            Admin, 1000, 0, 86400, 500, 0, DEFAULT_PERFORMANCE_MULTIPLIER, T0, true)
  }

  function AliceAccounts(): PositionAccounts
  {
    PositionAccounts(ScenarioPoolKey(), UserStakeAddress(ScenarioPoolKey(), Alice), Alice, Mint,
                     AliceTokens, PoolVaultAddress(ScenarioPoolKey()))
  }

  function Vault(): Pubkey { PoolVaultAddress(ScenarioPoolKey()) }

  function LedgerWith(alice: u64, vault: u64): Ledger
  {
    map[AliceTokens := TokenAccount(Mint, Alice, alice), Vault() := TokenAccount(Mint, ScenarioPoolKey(), vault)]
  }

  lemma LedgerWithUpdate(a: u64, v: u64, a2: u64, v2: u64)
    ensures LedgerWith(a, v)[AliceTokens := TokenAccount(Mint, Alice, a2)] == LedgerWith(a2, v)
    ensures LedgerWith(a, v)[Vault() := TokenAccount(Mint, ScenarioPoolKey(), v2)] == LedgerWith(a, v2)
  {
    assert LedgerWith(a, v)[AliceTokens := TokenAccount(Mint, Alice, a2)].Keys == LedgerWith(a2, v).Keys;
    assert LedgerWith(a, v)[Vault() := TokenAccount(Mint, ScenarioPoolKey(), v2)].Keys == LedgerWith(a, v2).Keys;
  }

  function AlicePosition(amount: u64): StakeRec
  {
    StakeRec(Alice, ScenarioPoolId, amount, 86400, T0, T0 + 86400, T0, 0, false)
  }

  /** Alice's first stake of 1000 fills the pool. */
  lemma ScenarioStake()
    ensures StakeOutcome(ScenarioPool(), ZeroStake, LedgerWith(1000, 0), AliceAccounts(), 1000, 86400, T0)
            == Ok((ScenarioPool().(currentStaked := 1000), AlicePosition(1000), LedgerWith(0, 1000)))
  {
    var ctx := AliceAccounts();
    assert StakeAccountsValid(LedgerWith(1000, 0), ctx);
    LedgerWithUpdate(1000, 0, 0, 1000);
    LedgerWithUpdate(0, 0, 0, 1000);
    assert StakeTransfer(LedgerWith(1000, 0), ctx, 1000) == Ok(LedgerWith(0, 1000));
  }

  /** Unstaking 1000 half a day in: 950 come back and the 50 of penalty are
      burned. */
  lemma ScenarioUnstake()
    ensures UnstakeOutcome(ScenarioPool().(currentStaked := 1000), AlicePosition(1000), LedgerWith(0, 1000),
                           AliceAccounts(), 1000, T0 + 43200)
            == Ok((AlicePosition(0), LedgerWith(950, 0)))
  {
    var p, ctx := ScenarioPool().(currentStaked := 1000), AliceAccounts();
    assert UnstakeAccountsValid(LedgerWith(0, 1000), AlicePosition(1000), ctx);
    assert EarlyExitPenalty(p, AlicePosition(1000), 1000, T0 + 43200) == 50;
    var l1 := Transfer(LedgerWith(0, 1000), Vault(), AliceTokens, Some(Mint), ctx.pool, UnstakeSigners(p, ctx), 950);
    LedgerWithUpdate(0, 50, 950, 50);
    LedgerWithUpdate(0, 1000, 0, 50);
    assert l1 == Ok(LedgerWith(950, 50));
    LedgerWithUpdate(950, 50, 950, 0);
    assert Burn(LedgerWith(950, 50), Vault(), Mint, ctx.pool, UnstakeSigners(p, ctx), 50) == Ok(LedgerWith(950, 0));
  }

  /** A pool of capacity 1000 with a 5 % slashing rate and a one-day lock.
      Alice stakes 1000; a further stake of 1 exceeds the capacity. Half a day
      later she unstakes 1000: 950 come back, 50 are burned, her position is
      empty, and `current_staked` stays at 1000, so the pool stays full. */
  lemma Scenario()
    ensures var st := StakeOutcome(ScenarioPool(), ZeroStake, LedgerWith(1000, 0), AliceAccounts(), 1000, 86400, T0);
            && st.Ok?
            && st.value.0.currentStaked == 1000
            && StakeOutcome(st.value.0, st.value.1, st.value.2, AliceAccounts(), 1, 86400, T0)
               == Err(Program(PoolCapacityExceeded))
            && var un := UnstakeOutcome(st.value.0, st.value.1, st.value.2, AliceAccounts(), 1000, T0 + 43200);
               && un.Ok?
               && BalanceOf(un.value.1, AliceTokens) == 950
               && BalanceOf(un.value.1, Vault()) == 0
               && un.value.0.stakeAmount == 0
               && StakeOutcome(st.value.0, un.value.0, un.value.1, AliceAccounts(), 1, 86400, T0 + 43200)
                  == Err(Program(PoolCapacityExceeded))
  {
    ScenarioStake();
    ScenarioUnstake();
    assert StakeAccountsValid(LedgerWith(0, 1000), AliceAccounts());
    assert StakeAccountsValid(LedgerWith(950, 0), AliceAccounts());
  }
}
