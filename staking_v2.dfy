/** The current staking program (mindshare-staking-pool/programs/.../lib.rs).

    Each instruction is given twice: a function `XOutcome` on account values
    that says which error the instruction fails with or what the accounts
    hold afterwards, and a method `X` that updates the account objects in
    place and is proved to do exactly what `XOutcome` says. A failing
    instruction changes nothing: the Solana runtime discards every write of a
    transaction that returns an error, so the methods check before they
    write. `now` stands for `Clock::get()?.unix_timestamp`. */
module StakingV2 {
  import opened Solana
  import opened Accounts
  import opened RewardsV2

  datatype ErrorCode =
    | Unauthorized | InvalidLockPeriod | PoolCapacityExceeded | InvalidAmount
    | InsufficientStake | StakeSlashed | InvalidTokenMint | PoolInactive
    | InvalidPool | InvalidPoolVault | ProgramPaused | InvalidTimestamp
    | MathOverflow | VaultNotInitialized | StakeNotZero

  /** Why a transaction aborts: the program's own error, Anchor's account
      validation, or the token program called through CPI. */
  datatype Failure = Program(code: ErrorCode) | Anchor(anchor: AnchorError) | Token(token: TokenError)

  const DEFAULT_PERFORMANCE_MULTIPLIER: u64 := 10000

  /** The `LEN` constants, as the program writes them. */
  const PROGRAM_STATE_LEN: nat := 8 + 32 + 8 + 1 + 1
  const STAKING_POOL_LEN: nat := 8 + 8 + 32 + 32 + 32 + 32 + 8 + 8 + 8 + 2 + 8 + 8 + 8 + 1 + 1
  const USER_STAKE_LEN: nat := 8 + 32 + 8 + 8 + 8 + 8 + 8 + 8 + 8 + 1 + 1

  /** Each `LEN` is the discriminator plus the Borsh size of the struct. */
  lemma LenConstantsMatchLayouts()
    ensures PROGRAM_STATE_LEN == ProgramStateSpace()
    ensures STAKING_POOL_LEN == StakingPoolSpace()
    ensures USER_STAKE_LEN == UserStakeSpace()
  {
  }

  /** The address of the pool account for `poolId`, which is also the
      authority of its vaults. */
  function PoolAddress(poolId: u64): Pubkey { FindProgramAddress(PoolSeeds(poolId)) }

  function PoolVaultAddress(pool: Pubkey): Pubkey { FindProgramAddress(PoolVaultSeeds(pool)) }

  function RewardVaultAddress(pool: Pubkey): Pubkey { FindProgramAddress(RewardVaultSeeds(pool)) }

  function UserStakeAddress(pool: Pubkey, user: Pubkey): Pubkey { FindProgramAddress(UserStakeSeeds(pool, user)) }

  /** What holds of every pool the program creates, whatever instructions
      follow: it sits at its derived address, never holds more than its
      capacity, its slashing rate is at most 100 %, and each vault field is
      either unset or the vault derived from it. */
  ghost predicate PoolValid(key: Pubkey, p: PoolRec)
  {
    && key == PoolAddress(p.poolId)
    && p.currentStaked <= p.maxStakeAmount
    && 0 < p.maxStakeAmount
    && p.slashingRate <= BPS
    && p.performanceMultiplier == DEFAULT_PERFORMANCE_MULTIPLIER
    && p.poolVault in {Default, PoolVaultAddress(key)}
    && p.rewardVault in {Default, RewardVaultAddress(key)}
  }

  // ---------------------------------------------------------------------------
  // initialize

  function InitializeOutcome(stateKey: Pubkey, payer: Pubkey): (r: Result<StateRec, Failure>)
    ensures r.Ok? <==> stateKey == FindProgramAddress(ProgramStateSeeds)
    ensures r.Ok? ==> r.value.admin == payer && r.value.totalPools == 0 && !r.value.isPaused
  {
    if stateKey != FindProgramAddress(ProgramStateSeeds) then Err(Anchor(ConstraintSeeds))
    else Ok(StateRec(payer, 0, false))
  }

  method Initialize(state: ProgramState, payer: Pubkey) returns (r: Result<(), Failure>)
    modifies state
    ensures var o := InitializeOutcome(state.key, payer);
            && (o.Err? ==> r == Err(o.error) && unchanged(state))
            && (o.Ok? ==> r == Ok(()) && state.View() == o.value)
  {
    if state.key != FindProgramAddress(ProgramStateSeeds) {
      return Err(Anchor(ConstraintSeeds));
    }
    state.admin := payer;
    state.totalPools := 0;
    state.isPaused := false;
    r := Ok(());
  }

  // ---------------------------------------------------------------------------
  // create_pool

  datatype CreatePoolAccounts = CreatePoolAccounts(pool: Pubkey, programState: Pubkey, admin: Pubkey, tokenMint: Pubkey)

  /** Anchor's checks on `CreatePool`: the pool and the program state are at
      their derived addresses and the signer is the recorded admin. */
  predicate CreatePoolAccountsValid(st: StateRec, ctx: CreatePoolAccounts, poolId: u64)
  {
    && ctx.pool == PoolAddress(poolId)
    && ctx.programState == FindProgramAddress(ProgramStateSeeds)
    && st.admin == ctx.admin
  }

  function CreatePoolOutcome(st: StateRec, ctx: CreatePoolAccounts, poolId: u64, maxStakeAmount: u64,
                             minLockPeriod: i64, slashingRate: u16, baseRewardRate: u64, now: i64)
    : (r: Result<(StateRec, PoolRec), Failure>)
    ensures r.Err? && r.error.Anchor? <==> !CreatePoolAccountsValid(st, ctx, poolId)
    ensures r == Err(Program(ProgramPaused)) <==> CreatePoolAccountsValid(st, ctx, poolId) && st.isPaused
    ensures r == Err(Program(InvalidAmount)) <==>
              CreatePoolAccountsValid(st, ctx, poolId) && !st.isPaused && (maxStakeAmount == 0 || slashingRate > BPS)
    ensures r == Err(Program(MathOverflow)) <==>
              CreatePoolAccountsValid(st, ctx, poolId) && !st.isPaused && maxStakeAmount > 0 && slashingRate <= BPS
              && st.totalPools == U64_MAX
    ensures r.Ok? <==>
              CreatePoolAccountsValid(st, ctx, poolId) && !st.isPaused && maxStakeAmount > 0 && slashingRate <= BPS
              && st.totalPools < U64_MAX
    ensures r.Ok? ==> r.value.0 == st.(totalPools := st.totalPools + 1)
    ensures r.Ok? ==> var p := r.value.1;
              && p.poolId == poolId && p.admin == ctx.admin && p.tokenMint == ctx.tokenMint
              && p.maxStakeAmount == maxStakeAmount && p.minLockPeriod == minLockPeriod
              && p.slashingRate == slashingRate && p.baseRewardRate == baseRewardRate && p.createdAt == now
              && p.currentStaked == 0 && p.performanceMultiplier == 10000 && p.isActive
              && p.poolVault == Default && p.rewardVault == Default
              && PoolValid(ctx.pool, p)
  {
    if ctx.pool != PoolAddress(poolId) then Err(Anchor(ConstraintSeeds))
    else if ctx.programState != FindProgramAddress(ProgramStateSeeds) then Err(Anchor(ConstraintSeeds))
    else if st.admin != ctx.admin then Err(Anchor(ConstraintHasOne))
    else if st.isPaused then Err(Program(ProgramPaused))
    else if maxStakeAmount == 0 then Err(Program(InvalidAmount))
    else if slashingRate > 10000 then Err(Program(InvalidAmount))
    else if st.totalPools + 1 > U64_MAX then Err(Program(MathOverflow))
    else
      Ok((st.(totalPools := st.totalPools + 1),
          PoolRec(poolId, ctx.tokenMint, Default, Default, ctx.admin, maxStakeAmount, 0, minLockPeriod,
                  slashingRate, baseRewardRate, DEFAULT_PERFORMANCE_MULTIPLIER, now, true)))
  }

  method CreatePool(state: ProgramState, pool: StakingPool, ctx: CreatePoolAccounts, poolId: u64,
                    maxStakeAmount: u64, minLockPeriod: i64, slashingRate: u16, baseRewardRate: u64, now: i64)
    returns (r: Result<(), Failure>)
    requires ctx.pool == pool.key && ctx.programState == state.key
    modifies state, pool
    ensures var o := CreatePoolOutcome(old(state.View()), ctx, poolId, maxStakeAmount, minLockPeriod,
                                       slashingRate, baseRewardRate, now);
            && (o.Err? ==> r == Err(o.error) && unchanged(state, pool))
            && (o.Ok? ==> r == Ok(()) && (state.View(), pool.View()) == o.value)
  {
    ghost var o := CreatePoolOutcome(state.View(), ctx, poolId, maxStakeAmount, minLockPeriod,
                                     slashingRate, baseRewardRate, now);
    if pool.key != PoolAddress(poolId) || state.key != FindProgramAddress(ProgramStateSeeds) {
      return Err(Anchor(ConstraintSeeds));
    }
    if state.admin != ctx.admin {
      return Err(Anchor(ConstraintHasOne));
    }
    if state.isPaused {
      return Err(Program(ProgramPaused));
    }
    if maxStakeAmount == 0 || slashingRate > 10000 {
      return Err(Program(InvalidAmount));
    }
    if state.totalPools == U64_MAX {
      return Err(Program(MathOverflow));
    }
    state.totalPools := state.totalPools + 1;
    pool.Store(PoolRec(poolId, ctx.tokenMint, Default, Default, ctx.admin, maxStakeAmount, 0, minLockPeriod,
                       slashingRate, baseRewardRate, DEFAULT_PERFORMANCE_MULTIPLIER, now, true));
    assert o.Ok? && (state.View(), pool.View()) == o.value;
    r := Ok(());
  }

  // ---------------------------------------------------------------------------
  // init_pool_vault, init_reward_vault

  datatype InitVaultAccounts = InitVaultAccounts(pool: Pubkey, vault: Pubkey, tokenMint: Pubkey, admin: Pubkey)

  /** The account checks the two vault instructions share: the pool is at the
      address of the `pool_id` argument and the signer is the pool's admin. */
  predicate VaultAuthorityValid(p: PoolRec, ctx: InitVaultAccounts, poolIdArg: u64)
  {
    ctx.pool == PoolAddress(poolIdArg) && p.admin == ctx.admin
  }

  function InitPoolVaultOutcome(p: PoolRec, l: Ledger, ctx: InitVaultAccounts, poolIdArg: u64)
    : (r: Result<(PoolRec, Ledger), Failure>)
    ensures r.Ok? <==> VaultAuthorityValid(p, ctx, poolIdArg) && ctx.vault == PoolVaultAddress(ctx.pool) && ctx.vault !in l
    ensures r.Ok? ==> r.value.0 == p.(poolVault := PoolVaultAddress(ctx.pool))
    ensures r.Ok? ==> r.value.1 == l[ctx.vault := TokenAccount(ctx.tokenMint, ctx.pool, 0)]
  {
    if ctx.pool != PoolAddress(poolIdArg) then Err(Anchor(ConstraintSeeds))
    else if p.admin != ctx.admin then Err(Anchor(ConstraintHasOne))
    else if ctx.vault != PoolVaultAddress(ctx.pool) then Err(Anchor(ConstraintSeeds))
    else match InitTokenAccount(l, ctx.vault, ctx.tokenMint, ctx.pool)
      case Err(e) => Err(Anchor(e))
      case Ok(l') => Ok((p.(poolVault := ctx.vault), l'))
  }

  function InitRewardVaultOutcome(p: PoolRec, l: Ledger, ctx: InitVaultAccounts, poolIdArg: u64)
    : (r: Result<(PoolRec, Ledger), Failure>)
    ensures r.Ok? <==> VaultAuthorityValid(p, ctx, poolIdArg) && ctx.vault == RewardVaultAddress(ctx.pool) && ctx.vault !in l
    ensures r.Ok? ==> r.value.0 == p.(rewardVault := RewardVaultAddress(ctx.pool))
    ensures r.Ok? ==> r.value.1 == l[ctx.vault := TokenAccount(ctx.tokenMint, ctx.pool, 0)]
  {
    if ctx.pool != PoolAddress(poolIdArg) then Err(Anchor(ConstraintSeeds))
    else if p.admin != ctx.admin then Err(Anchor(ConstraintHasOne))
    else if ctx.vault != RewardVaultAddress(ctx.pool) then Err(Anchor(ConstraintSeeds))
    else match InitTokenAccount(l, ctx.vault, ctx.tokenMint, ctx.pool)
      case Err(e) => Err(Anchor(e))
      case Ok(l') => Ok((p.(rewardVault := ctx.vault), l'))
  }

  method InitPoolVault(pool: StakingPool, token: TokenProgram, ctx: InitVaultAccounts, poolIdArg: u64)
    returns (r: Result<(), Failure>)
    requires ctx.pool == pool.key
    modifies pool`poolVault, token
    ensures var o := InitPoolVaultOutcome(old(pool.View()), old(token.accounts), ctx, poolIdArg);
            && (o.Err? ==> r == Err(o.error) && unchanged(pool, token))
            && (o.Ok? ==> r == Ok(()) && (pool.View(), token.accounts) == o.value)
  {
    if pool.key != PoolAddress(poolIdArg) || pool.admin != ctx.admin || ctx.vault != PoolVaultAddress(pool.key) {
      return Err(if pool.key != PoolAddress(poolIdArg) then Anchor(ConstraintSeeds)
                 else if pool.admin != ctx.admin then Anchor(ConstraintHasOne)
                 else Anchor(ConstraintSeeds));
    }
    var created := InitTokenAccount(token.accounts, ctx.vault, ctx.tokenMint, pool.key);
    if created.Err? {
      return Err(Anchor(created.error));
    }
    token.accounts := created.value;
    pool.poolVault := ctx.vault;
    r := Ok(());
  }

  method InitRewardVault(pool: StakingPool, token: TokenProgram, ctx: InitVaultAccounts, poolIdArg: u64)
    returns (r: Result<(), Failure>)
    requires ctx.pool == pool.key
    modifies pool`rewardVault, token
    ensures var o := InitRewardVaultOutcome(old(pool.View()), old(token.accounts), ctx, poolIdArg);
            && (o.Err? ==> r == Err(o.error) && unchanged(pool, token))
            && (o.Ok? ==> r == Ok(()) && (pool.View(), token.accounts) == o.value)
  {
    if pool.key != PoolAddress(poolIdArg) || pool.admin != ctx.admin || ctx.vault != RewardVaultAddress(pool.key) {
      return Err(if pool.key != PoolAddress(poolIdArg) then Anchor(ConstraintSeeds)
                 else if pool.admin != ctx.admin then Anchor(ConstraintHasOne)
                 else Anchor(ConstraintSeeds));
    }
    var created := InitTokenAccount(token.accounts, ctx.vault, ctx.tokenMint, pool.key);
    if created.Err? {
      return Err(Anchor(created.error));
    }
    token.accounts := created.value;
    pool.rewardVault := ctx.vault;
    r := Ok(());
  }

  // ---------------------------------------------------------------------------
  // stake

  /** The accounts of `Stake` and of `Unstake`, by address. */
  datatype PositionAccounts = PositionAccounts(pool: Pubkey, userStake: Pubkey, user: Pubkey, tokenMint: Pubkey,
                                               userTokenAccount: Pubkey, poolVault: Pubkey)

  /** Anchor's checks on `Stake`: the position is at the address derived from
      the pool and the signer, and the signer's token account exists, holds
      the given mint and belongs to the signer; the vault account exists. */
  predicate StakeAccountsValid(l: Ledger, ctx: PositionAccounts)
  {
    && ctx.userStake == UserStakeAddress(ctx.pool, ctx.user)
    && ctx.userTokenAccount in l
    && l[ctx.userTokenAccount].mint == ctx.tokenMint
    && l[ctx.userTokenAccount].owner == ctx.user
    && ctx.poolVault in l
  }

  /** The handler's checks of `stake` before the capacity check, all passed. */
  predicate StakeGuards(p: PoolRec, ctx: PositionAccounts, amount: u64, lockDuration: i64)
  {
    && p.isActive
    && amount > 0
    && lockDuration >= p.minLockPeriod
    && p.poolVault != Default
    && ctx.poolVault == p.poolVault
  }

  function Max(a: int, b: int): int { if a >= b then a else b }

  /** The position update of `stake`, after the tokens have moved: a first
      stake opens the position, a top-up adds to it and moves the lock only
      further out. */
  function StakePosition(s: StakeRec, poolId: u64, user: Pubkey, amount: u64, lockDuration: i64, now: i64)
    : (r: Result<StakeRec, ErrorCode>)
    ensures r.Err? ==> r.error in {InvalidPool, MathOverflow}
    ensures s.user == Default ==> (r.Ok? <==> InI64(now + lockDuration))
    ensures s.user == Default && r.Ok? ==>
              var n := r.value;
              && n.user == user && n.poolId == poolId && n.stakeAmount == amount
              && n.lockDuration == lockDuration && n.stakedAt == now && n.lockUntil == now + lockDuration
              && n.lastClaimed == now && n.pendingRewards == 0 && !n.isSlashed
    ensures s.user != Default ==> (r == Err(InvalidPool) <==> s.poolId != poolId)
    ensures s.user != Default ==>
              (r.Ok? <==> s.poolId == poolId && InU64(s.stakeAmount + amount) && InI64(now + lockDuration))
    ensures s.user != Default && r.Ok? ==>
              var n := r.value;
              && n.stakeAmount == s.stakeAmount + amount
              && n.lockUntil == Max(s.lockUntil, now + lockDuration)
              && n.lockDuration == (if now + lockDuration > s.lockUntil then lockDuration else s.lockDuration)
              && n.(stakeAmount := s.stakeAmount, lockUntil := s.lockUntil, lockDuration := s.lockDuration) == s
  {
    if s.user == Default then
      match CheckedAddI64(now, lockDuration)
      case None => Err(MathOverflow)
      case Some(lockUntil) => Ok(StakeRec(user, poolId, amount, lockDuration, now, lockUntil, now, 0, false))
    else if s.poolId != poolId then Err(InvalidPool)
    else if s.stakeAmount + amount > U64_MAX then Err(MathOverflow)
    else match CheckedAddI64(now, lockDuration)
      case None => Err(MathOverflow)
      case Some(newLockUntil) =>
        var topped := s.(stakeAmount := s.stakeAmount + amount);
        if newLockUntil > s.lockUntil then Ok(topped.(lockUntil := newLockUntil, lockDuration := lockDuration))
        else Ok(topped)
  }

  /** The state logic of `stake` on the position account: writes nothing
      when it fails. */
  method UpdatePosition(userStake: UserStake, poolId: u64, user: Pubkey, amount: u64, lockDuration: i64, now: i64)
    returns (r: Result<(), ErrorCode>)
    modifies userStake
    ensures var o := StakePosition(old(userStake.View()), poolId, user, amount, lockDuration, now);
            && (o.Err? ==> r == Err(o.error) && unchanged(userStake))
            && (o.Ok? ==> r == Ok(()) && userStake.View() == o.value)
  {
    var lockUntil := CheckedAddI64(now, lockDuration);
    if userStake.user == Default {
      if lockUntil.None? {
        return Err(MathOverflow);
      }
      userStake.user := user;
      userStake.poolId := poolId;
      userStake.stakeAmount := amount;
      userStake.lockDuration := lockDuration;
      userStake.stakedAt := now;
      userStake.lockUntil := lockUntil.value;
      userStake.lastClaimed := now;
      userStake.pendingRewards := 0;
      userStake.isSlashed := false;
    } else {
      if userStake.poolId != poolId {
        return Err(InvalidPool);
      }
      if userStake.stakeAmount + amount > U64_MAX || lockUntil.None? {
        return Err(MathOverflow);
      }
      userStake.stakeAmount := userStake.stakeAmount + amount;
      if lockUntil.value > userStake.lockUntil {
        userStake.lockUntil := lockUntil.value;
        userStake.lockDuration := lockDuration;
      }
    }
    r := Ok(());
  }

  function StakeTransfer(l: Ledger, ctx: PositionAccounts, amount: u64): Result<Ledger, TokenError>
  {
    Transfer(l, ctx.userTokenAccount, ctx.poolVault, Some(ctx.tokenMint), ctx.user, {ctx.user}, amount)
  }

  function StakeOutcome(p: PoolRec, s: StakeRec, l: Ledger, ctx: PositionAccounts,
                        amount: u64, lockDuration: i64, now: i64)
    : (r: Result<(PoolRec, StakeRec, Ledger), Failure>)
    ensures r.Err? && r.error.Anchor? <==> !StakeAccountsValid(l, ctx)
    ensures StakeAccountsValid(l, ctx) ==>
              && (r == Err(Program(PoolInactive)) <==> !p.isActive)
              && (r == Err(Program(InvalidAmount)) <==> p.isActive && amount == 0)
              && (r == Err(Program(InvalidLockPeriod)) <==>
                    p.isActive && amount > 0 && lockDuration < p.minLockPeriod)
              && (r == Err(Program(VaultNotInitialized)) <==>
                    p.isActive && amount > 0 && lockDuration >= p.minLockPeriod && p.poolVault == Default)
              && (r == Err(Program(InvalidPoolVault)) <==>
                    p.isActive && amount > 0 && lockDuration >= p.minLockPeriod && p.poolVault != Default
                    && ctx.poolVault != p.poolVault)
              && (r == Err(Program(PoolCapacityExceeded)) <==>
                    StakeGuards(p, ctx, amount, lockDuration)
                    && p.maxStakeAmount < p.currentStaked + amount <= U64_MAX)
              && (r == Err(Program(MathOverflow)) <==>
                    StakeGuards(p, ctx, amount, lockDuration)
                    && (|| p.currentStaked + amount > U64_MAX
                        || (&& p.currentStaked + amount <= p.maxStakeAmount
                            && StakeTransfer(l, ctx, amount).Ok?
                            && StakePosition(s, p.poolId, ctx.user, amount, lockDuration, now) == Err(MathOverflow))))
    ensures r.Ok? <==>
              && StakeAccountsValid(l, ctx)
              && StakeGuards(p, ctx, amount, lockDuration)
              && p.currentStaked + amount <= p.maxStakeAmount
              && StakeTransfer(l, ctx, amount).Ok?
              && StakePosition(s, p.poolId, ctx.user, amount, lockDuration, now).Ok?
    ensures r.Ok? ==>
              && r.value.0 == p.(currentStaked := p.currentStaked + amount)
              && r.value.0.currentStaked <= r.value.0.maxStakeAmount
              && r.value.1 == StakePosition(s, p.poolId, ctx.user, amount, lockDuration, now).value
    ensures r.Ok? && ctx.userTokenAccount != ctx.poolVault ==>
              && BalanceOf(r.value.2, ctx.userTokenAccount) + amount == BalanceOf(l, ctx.userTokenAccount)
              && BalanceOf(r.value.2, ctx.poolVault) == BalanceOf(l, ctx.poolVault) + amount
    ensures r.Ok? ==> OnlyTouches(l, r.value.2, ctx.userTokenAccount, ctx.poolVault)
  {
    if ctx.userStake != UserStakeAddress(ctx.pool, ctx.user) then Err(Anchor(ConstraintSeeds))
    else if ctx.userTokenAccount !in l then Err(Anchor(AccountNotInitialized))
    else if l[ctx.userTokenAccount].mint != ctx.tokenMint then Err(Anchor(ConstraintTokenMint))
    else if l[ctx.userTokenAccount].owner != ctx.user then Err(Anchor(ConstraintTokenOwner))
    else if ctx.poolVault !in l then Err(Anchor(AccountNotInitialized))
    else if !p.isActive then Err(Program(PoolInactive))
    else if amount == 0 then Err(Program(InvalidAmount))
    else if lockDuration < p.minLockPeriod then Err(Program(InvalidLockPeriod))
    else if p.poolVault == Default then Err(Program(VaultNotInitialized))
    else if ctx.poolVault != p.poolVault then Err(Program(InvalidPoolVault))
    else if p.currentStaked + amount > U64_MAX then Err(Program(MathOverflow))
    else if p.currentStaked + amount > p.maxStakeAmount then Err(Program(PoolCapacityExceeded))
    else match StakeTransfer(l, ctx, amount)
      case Err(e) => Err(Token(e))
      case Ok(l') =>
        match StakePosition(s, p.poolId, ctx.user, amount, lockDuration, now)
        case Err(e) => Err(Program(e))
        case Ok(s') => Ok((p.(currentStaked := p.currentStaked + amount), s', l'))
  }

  method Stake(pool: StakingPool, userStake: UserStake, token: TokenProgram, ctx: PositionAccounts,
               amount: u64, lockDuration: i64, now: i64)
    returns (r: Result<(), Failure>)
    requires ctx.pool == pool.key && ctx.userStake == userStake.key
    modifies pool`currentStaked, userStake, token
    ensures var o := StakeOutcome(old(pool.View()), old(userStake.View()), old(token.accounts), ctx,
                                  amount, lockDuration, now);
            && (o.Err? ==> r == Err(o.error) && unchanged(pool, userStake, token))
            && (o.Ok? ==> r == Ok(()) && (pool.View(), userStake.View(), token.accounts) == o.value)
  {
    var l := token.accounts;
    ghost var o := StakeOutcome(pool.View(), userStake.View(), l, ctx, amount, lockDuration, now);
    if userStake.key != UserStakeAddress(pool.key, ctx.user) {
      return Err(Anchor(ConstraintSeeds));
    }
    if ctx.userTokenAccount !in l || ctx.poolVault !in l
       || l[ctx.userTokenAccount].mint != ctx.tokenMint || l[ctx.userTokenAccount].owner != ctx.user {
      return Err(Anchor(if ctx.userTokenAccount !in l then AccountNotInitialized
                        else if l[ctx.userTokenAccount].mint != ctx.tokenMint then ConstraintTokenMint
                        else if l[ctx.userTokenAccount].owner != ctx.user then ConstraintTokenOwner
                        else AccountNotInitialized));
    }
    if !pool.isActive {
      return Err(Program(PoolInactive));
    }
    if amount == 0 {
      return Err(Program(InvalidAmount));
    }
    if lockDuration < pool.minLockPeriod {
      return Err(Program(InvalidLockPeriod));
    }
    if pool.poolVault == Default {
      return Err(Program(VaultNotInitialized));
    }
    if ctx.poolVault != pool.poolVault {
      return Err(Program(InvalidPoolVault));
    }
    if pool.currentStaked + amount > U64_MAX {
      return Err(Program(MathOverflow));
    }
    var newStaked: u64 := pool.currentStaked + amount;
    if newStaked > pool.maxStakeAmount {
      return Err(Program(PoolCapacityExceeded));
    }
    var moved := StakeTransfer(l, ctx, amount);
    if moved.Err? {
      return Err(Token(moved.error));
    }
    var updated := UpdatePosition(userStake, pool.poolId, ctx.user, amount, lockDuration, now);
    if updated.Err? {
      return Err(Program(updated.error));
    }
    pool.currentStaked := newStaked;
    token.accounts := moved.value;
    assert o == Ok((pool.View(), userStake.View(), token.accounts));
    r := Ok(());
  }

  // ---------------------------------------------------------------------------
  // claim_rewards

  /** The accounts of `ClaimRewards`. There is no signer among them, and
      nothing ties `userTokenAccount` to the position's user. */
  datatype ClaimAccounts = ClaimAccounts(pool: Pubkey, userStake: Pubkey, tokenMint: Pubkey,
                                         userTokenAccount: Pubkey, rewardVault: Pubkey)

  /** Anchor's checks on `ClaimRewards`: the position is at the address
      derived from the pool and the user it records; both token accounts exist. */
  predicate ClaimAccountsValid(l: Ledger, s: StakeRec, ctx: ClaimAccounts)
  {
    && ctx.userStake == UserStakeAddress(ctx.pool, s.user)
    && ctx.userTokenAccount in l
    && ctx.rewardVault in l
  }

  function ClaimTransfer(l: Ledger, p: PoolRec, ctx: ClaimAccounts, rewards: u64): Result<Ledger, TokenError>
  {
    Transfer(l, ctx.rewardVault, ctx.userTokenAccount, Some(ctx.tokenMint), ctx.pool, {PoolAddress(p.poolId)}, rewards)
  }

  /** The reward for `elapsed` seconds of the position in the pool. */
  function PositionReward(p: PoolRec, s: StakeRec, elapsed: i64): Option<u64>
  {
    CalculateRewards(s.stakeAmount, elapsed, p.baseRewardRate, p.performanceMultiplier)
  }

  function ClaimOutcome(p: PoolRec, s: StakeRec, l: Ledger, ctx: ClaimAccounts, now: i64)
    : (r: Result<(StakeRec, Ledger), Failure>)
    ensures r.Err? && r.error.Anchor? <==> !ClaimAccountsValid(l, s, ctx)
    ensures ClaimAccountsValid(l, s, ctx) ==>
              && (r == Err(Program(InvalidPool)) <==> s.poolId != p.poolId)
              && (r == Err(Program(InvalidPoolVault)) <==> s.poolId == p.poolId && ctx.rewardVault != p.rewardVault)
              && (r == Err(Program(InvalidTimestamp)) <==>
                    s.poolId == p.poolId && ctx.rewardVault == p.rewardVault && !InI64(now - s.lastClaimed))
              && (r == Err(Program(MathOverflow)) <==>
                    s.poolId == p.poolId && ctx.rewardVault == p.rewardVault && InI64(now - s.lastClaimed)
                    && now > s.lastClaimed && PositionReward(p, s, now - s.lastClaimed).None?)
    ensures (&& ClaimAccountsValid(l, s, ctx) && s.poolId == p.poolId && ctx.rewardVault == p.rewardVault
             && now <= s.lastClaimed && InI64(now - s.lastClaimed))
            ==> r == Ok((s, l))
    ensures r.Ok? <==>
              && ClaimAccountsValid(l, s, ctx) && s.poolId == p.poolId && ctx.rewardVault == p.rewardVault
              && InI64(now - s.lastClaimed)
              && (now > s.lastClaimed ==>
                    && PositionReward(p, s, now - s.lastClaimed).Some?
                    && (PositionReward(p, s, now - s.lastClaimed).value > 0 ==>
                          ClaimTransfer(l, p, ctx, PositionReward(p, s, now - s.lastClaimed).value).Ok?))
    ensures r.Ok? ==> r.value.0.(lastClaimed := s.lastClaimed, pendingRewards := s.pendingRewards) == s
    ensures r.Ok? && now > s.lastClaimed ==> r.value.0.lastClaimed == now
    ensures r.Ok? && now > s.lastClaimed ==>
              var reward := PositionReward(p, s, now - s.lastClaimed).value;
              && (reward > 0 ==> r.value.0.pendingRewards == 0)
              && (reward == 0 ==> r.value.1 == l && r.value.0.pendingRewards == s.pendingRewards)
              && (ctx.userTokenAccount != ctx.rewardVault ==>
                    && BalanceOf(r.value.1, ctx.userTokenAccount) == BalanceOf(l, ctx.userTokenAccount) + reward
                    && BalanceOf(r.value.1, ctx.rewardVault) + reward == BalanceOf(l, ctx.rewardVault))
    ensures r.Ok? ==> OnlyTouches(l, r.value.1, ctx.userTokenAccount, ctx.rewardVault)
  {
    if ctx.userStake != UserStakeAddress(ctx.pool, s.user) then Err(Anchor(ConstraintSeeds))
    else if ctx.userTokenAccount !in l || ctx.rewardVault !in l then Err(Anchor(AccountNotInitialized))
    else if s.poolId != p.poolId then Err(Program(InvalidPool))
    else if ctx.rewardVault != p.rewardVault then Err(Program(InvalidPoolVault))
    else match CheckedSubI64(now, s.lastClaimed)
      case None => Err(Program(InvalidTimestamp))
      case Some(elapsed) =>
        if elapsed <= 0 then Ok((s, l))
        else match PositionReward(p, s, elapsed)
          case None => Err(Program(MathOverflow))
          case Some(rewards) =>
            if rewards > 0 then
              match ClaimTransfer(l, p, ctx, rewards)
              case Err(e) => Err(Token(e))
              case Ok(l') => Ok((s.(lastClaimed := now, pendingRewards := 0), l'))
            else Ok((s.(lastClaimed := now), l))
  }

  method ClaimRewards(pool: StakingPool, userStake: UserStake, token: TokenProgram, ctx: ClaimAccounts, now: i64)
    returns (r: Result<(), Failure>)
    requires ctx.pool == pool.key && ctx.userStake == userStake.key
    modifies userStake`lastClaimed, userStake`pendingRewards, token
    ensures var o := ClaimOutcome(pool.View(), old(userStake.View()), old(token.accounts), ctx, now);
            && (o.Err? ==> r == Err(o.error) && unchanged(userStake, token))
            && (o.Ok? ==> r == Ok(()) && (userStake.View(), token.accounts) == o.value)
  {
    var l := token.accounts;
    if userStake.key != UserStakeAddress(pool.key, userStake.user) {
      return Err(Anchor(ConstraintSeeds));
    }
    if ctx.userTokenAccount !in l || ctx.rewardVault !in l {
      return Err(Anchor(AccountNotInitialized));
    }
    if userStake.poolId != pool.poolId {
      return Err(Program(InvalidPool));
    }
    if ctx.rewardVault != pool.rewardVault {
      return Err(Program(InvalidPoolVault));
    }
    var elapsed := CheckedSubI64(now, userStake.lastClaimed);
    if elapsed.None? {
      return Err(Program(InvalidTimestamp));
    }
    if elapsed.value <= 0 {
      return Ok(());
    }
    var rewards := CalculateRewards(userStake.stakeAmount, elapsed.value, pool.baseRewardRate, pool.performanceMultiplier);
    if rewards.None? {
      return Err(Program(MathOverflow));
    }
    if rewards.value > 0 {
      var moved := ClaimTransfer(l, pool.View(), ctx, rewards.value);
      if moved.Err? {
        return Err(Token(moved.error));
      }
      userStake.lastClaimed := now;
      userStake.pendingRewards := 0;
      token.accounts := moved.value;
    } else {
      userStake.lastClaimed := now;
    }
    r := Ok(());
  }

  // ---------------------------------------------------------------------------
  // unstake

  /** The penalty `unstake` charges on `amount`: a share of the slashing rate
      while the lock runs, nothing afterwards. When `lock_until - now`
      overflows `i64` the program's `unwrap_or(0)` makes the time remaining 0,
      and so the penalty. */
  function EarlyExitPenalty(p: PoolRec, s: StakeRec, amount: u64, now: i64): (penalty: u64)
    ensures now >= s.lockUntil ==> penalty == 0
    ensures now < s.lockUntil && InI64(s.lockUntil - now) && p.slashingRate <= BPS ==>
              penalty * BPS <= amount * p.slashingRate < penalty * BPS + BPS
    ensures !InI64(s.lockUntil - now) ==> penalty == 0
    ensures p.slashingRate <= BPS ==> penalty <= amount
  {
    var isEarly := now < s.lockUntil;
    var timeRemaining := match CheckedSubI64(s.lockUntil, now) case None => 0 case Some(t) => t;
    if isEarly && timeRemaining > 0 then CalculateSlashingPenalty(amount, timeRemaining, p.slashingRate).value
    else 0
  }

  /** Anchor's checks on `Unstake`: the position is the signer's position in
      this pool (`seeds` and `has_one = user`); both token accounts exist. */
  predicate UnstakeAccountsValid(l: Ledger, s: StakeRec, ctx: PositionAccounts)
  {
    && ctx.userStake == UserStakeAddress(ctx.pool, ctx.user)
    && s.user == ctx.user
    && ctx.userTokenAccount in l
    && ctx.poolVault in l
  }

  /** The handler's checks of `unstake`, all passed. */
  predicate UnstakeGuards(p: PoolRec, s: StakeRec, ctx: PositionAccounts, amount: u64)
  {
    s.poolId == p.poolId && ctx.poolVault == p.poolVault && 0 < amount <= s.stakeAmount && !s.isSlashed
  }

  function UnstakeSigners(p: PoolRec, ctx: PositionAccounts): set<Pubkey>
  {
    {ctx.user, PoolAddress(p.poolId)}
  }

  /** The two token moves of `unstake`: what the user receives, then the burn
      of the penalty. */
  function UnstakeTransfers(l: Ledger, p: PoolRec, ctx: PositionAccounts, returned: u64, penalty: u64)
    : (r: Result<Ledger, TokenError>)
    ensures r.Ok? && ctx.userTokenAccount != ctx.poolVault ==>
              && BalanceOf(r.value, ctx.userTokenAccount) == BalanceOf(l, ctx.userTokenAccount) + returned
              && BalanceOf(r.value, ctx.poolVault) + returned + penalty == BalanceOf(l, ctx.poolVault)
    ensures r.Ok? ==> OnlyTouches(l, r.value, ctx.userTokenAccount, ctx.poolVault)
  {
    match Transfer(l, ctx.poolVault, ctx.userTokenAccount, Some(ctx.tokenMint), ctx.pool, UnstakeSigners(p, ctx), returned)
    case Err(e) => Err(e)
    case Ok(l1) =>
      if penalty > 0 then Burn(l1, ctx.poolVault, ctx.tokenMint, ctx.pool, UnstakeSigners(p, ctx), penalty)
      else Ok(l1)
  }

  function UnstakeOutcome(p: PoolRec, s: StakeRec, l: Ledger, ctx: PositionAccounts, amount: u64, now: i64)
    : (r: Result<(StakeRec, Ledger), Failure>)
    ensures r.Err? && r.error.Anchor? <==> !UnstakeAccountsValid(l, s, ctx)
    ensures UnstakeAccountsValid(l, s, ctx) ==>
              && (r == Err(Program(InvalidPool)) <==> s.poolId != p.poolId)
              && (r == Err(Program(InvalidPoolVault)) <==> s.poolId == p.poolId && ctx.poolVault != p.poolVault)
              && (r == Err(Program(InvalidAmount)) <==>
                    s.poolId == p.poolId && ctx.poolVault == p.poolVault && amount == 0)
              && (r == Err(Program(InsufficientStake)) <==>
                    s.poolId == p.poolId && ctx.poolVault == p.poolVault && 0 < amount && s.stakeAmount < amount)
              && (r == Err(Program(StakeSlashed)) <==>
                    s.poolId == p.poolId && ctx.poolVault == p.poolVault && 0 < amount <= s.stakeAmount && s.isSlashed)
              && (r == Err(Program(MathOverflow)) <==>
                    UnstakeGuards(p, s, ctx, amount) && EarlyExitPenalty(p, s, amount, now) > amount)
    ensures r.Ok? <==>
              && UnstakeAccountsValid(l, s, ctx)
              && UnstakeGuards(p, s, ctx, amount)
              && EarlyExitPenalty(p, s, amount, now) <= amount
              && UnstakeTransfers(l, p, ctx, amount - EarlyExitPenalty(p, s, amount, now),
                                  EarlyExitPenalty(p, s, amount, now)).Ok?
    ensures r.Ok? ==>
              && r.value.0.stakeAmount + amount == s.stakeAmount
              && r.value.0.(stakeAmount := s.stakeAmount) == s
    ensures r.Ok? && ctx.userTokenAccount != ctx.poolVault ==>
              var penalty := EarlyExitPenalty(p, s, amount, now);
              && BalanceOf(r.value.1, ctx.userTokenAccount) == BalanceOf(l, ctx.userTokenAccount) + amount - penalty
              && BalanceOf(r.value.1, ctx.poolVault) + amount == BalanceOf(l, ctx.poolVault)
    ensures r.Ok? ==> OnlyTouches(l, r.value.1, ctx.userTokenAccount, ctx.poolVault)
  {
    if ctx.userStake != UserStakeAddress(ctx.pool, ctx.user) then Err(Anchor(ConstraintSeeds))
    else if s.user != ctx.user then Err(Anchor(ConstraintHasOne))
    else if ctx.userTokenAccount !in l || ctx.poolVault !in l then Err(Anchor(AccountNotInitialized))
    else if s.poolId != p.poolId then Err(Program(InvalidPool))
    else if ctx.poolVault != p.poolVault then Err(Program(InvalidPoolVault))
    else if amount == 0 then Err(Program(InvalidAmount))
    else if amount > s.stakeAmount then Err(Program(InsufficientStake))
    else if s.isSlashed then Err(Program(StakeSlashed))
    else
      var penalty := EarlyExitPenalty(p, s, amount, now);
      if penalty > amount then Err(Program(MathOverflow))
      else match UnstakeTransfers(l, p, ctx, amount - penalty, penalty)
        case Err(e) => Err(Token(e))
        case Ok(l') => Ok((s.(stakeAmount := s.stakeAmount - amount), l'))
  }

  /** `unstake` borrows the pool immutably, so `current_staked` is never
      lowered: the frame below leaves the pool out. */
  method Unstake(pool: StakingPool, userStake: UserStake, token: TokenProgram, ctx: PositionAccounts,
                 amount: u64, now: i64)
    returns (r: Result<(), Failure>)
    requires ctx.pool == pool.key && ctx.userStake == userStake.key
    modifies userStake`stakeAmount, token
    ensures var o := UnstakeOutcome(pool.View(), old(userStake.View()), old(token.accounts), ctx, amount, now);
            && (o.Err? ==> r == Err(o.error) && unchanged(userStake, token))
            && (o.Ok? ==> r == Ok(()) && (userStake.View(), token.accounts) == o.value)
  {
    var l := token.accounts;
    if userStake.key != UserStakeAddress(pool.key, ctx.user) {
      return Err(Anchor(ConstraintSeeds));
    }
    if userStake.user != ctx.user {
      return Err(Anchor(ConstraintHasOne));
    }
    if ctx.userTokenAccount !in l || ctx.poolVault !in l {
      return Err(Anchor(AccountNotInitialized));
    }
    if userStake.poolId != pool.poolId {
      return Err(Program(InvalidPool));
    }
    if ctx.poolVault != pool.poolVault {
      return Err(Program(InvalidPoolVault));
    }
    if amount == 0 {
      return Err(Program(InvalidAmount));
    }
    if amount > userStake.stakeAmount {
      return Err(Program(InsufficientStake));
    }
    if userStake.isSlashed {
      return Err(Program(StakeSlashed));
    }
    var penalty := EarlyExitPenalty(pool.View(), userStake.View(), amount, now);
    if penalty > amount {
      return Err(Program(MathOverflow));
    }
    var moved := UnstakeTransfers(l, pool.View(), ctx, amount - penalty, penalty);
    if moved.Err? {
      return Err(Token(moved.error));
    }
    userStake.stakeAmount := userStake.stakeAmount - amount;
    token.accounts := moved.value;
    r := Ok(());
  }

  // ---------------------------------------------------------------------------
  // close_stake

  datatype CloseAccounts = CloseAccounts(userStake: Pubkey, pool: Pubkey, user: Pubkey)

  /** `close_stake`: only an empty position can be closed; closing wipes the
      account, so a later `stake` opens it afresh. */
  function CloseStakeOutcome(s: StakeRec, ctx: CloseAccounts): (r: Result<StakeRec, Failure>)
    ensures r.Ok? <==> ctx.userStake == UserStakeAddress(ctx.pool, ctx.user) && s.user == ctx.user && s.stakeAmount == 0
    ensures r == Err(Program(StakeNotZero)) <==>
              ctx.userStake == UserStakeAddress(ctx.pool, ctx.user) && s.user == ctx.user && s.stakeAmount != 0
    ensures r.Ok? ==> r.value == ZeroStake
  {
    if ctx.userStake != UserStakeAddress(ctx.pool, ctx.user) then Err(Anchor(ConstraintSeeds))
    else if s.user != ctx.user then Err(Anchor(ConstraintHasOne))
    else if s.stakeAmount != 0 then Err(Program(StakeNotZero))
    else Ok(ZeroStake)
  }

  method CloseStake(userStake: UserStake, ctx: CloseAccounts) returns (r: Result<(), Failure>)
    requires ctx.userStake == userStake.key
    modifies userStake
    ensures var o := CloseStakeOutcome(old(userStake.View()), ctx);
            && (o.Err? ==> r == Err(o.error) && unchanged(userStake))
            && (o.Ok? ==> r == Ok(()) && userStake.View() == o.value)
  {
    if userStake.key != UserStakeAddress(ctx.pool, ctx.user) {
      return Err(Anchor(ConstraintSeeds));
    }
    if userStake.user != ctx.user {
      return Err(Anchor(ConstraintHasOne));
    }
    if userStake.stakeAmount != 0 {
      return Err(Program(StakeNotZero));
    }
    userStake.user, userStake.poolId, userStake.stakeAmount := Default, 0, 0;
    userStake.lockDuration, userStake.stakedAt, userStake.lockUntil := 0, 0, 0;
    userStake.lastClaimed, userStake.pendingRewards, userStake.isSlashed := 0, 0, false;
    r := Ok(());
  }
}
