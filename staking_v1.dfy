/** The earlier staking program (programs/mindshare-staking-pool/src/lib.rs).

    It has the same three accounts as the current program and the same
    shape of handlers, but fewer checks: account constraints are mostly
    absent, `create_pool` validates nothing but the pause flag, and every
    arithmetic step is `checked_*().unwrap()`, so an overflow is a panic
    (`Failure.Panic`), which aborts the transaction like an error does.

    Three places in the account declarations do not do what they evidently
    mean to (see `Build`): the outcome functions take a `Build` and describe
    the program as written or with those three places corrected; the methods
    implement the corrected program. */
module StakingV1 {
  import opened Solana
  import opened Accounts
  import opened RewardsV1

  datatype ErrorCode =
    | Unauthorized | InvalidLockPeriod | PoolCapacityExceeded | InvalidAmount
    | InsufficientStake | StakeSlashed | InvalidTokenMint | PoolInactive
    | InvalidPool | InvalidPoolVault | ProgramPaused

  datatype Failure = Program(code: ErrorCode) | Anchor(anchor: AnchorError) | Token(token: TokenError) | Panic

  /** `AsWritten` is the program as declared; `Corrected` allocates the
      position account with the struct's full size, derives the position
      address from the pool id rather than from the staked amount, and signs
      the vault transfers with the pool's own seeds. */
  datatype Build = AsWritten | Corrected

  const DEFAULT_PERFORMANCE_MULTIPLIER: u64 := 10000

  /** The `space` of each `init`, as the program writes it. */
  const PROGRAM_STATE_SPACE: nat := 8 + 32 + 8 + 1 + 1
  const STAKING_POOL_SPACE: nat := 8 + 8 + 32 + 32 + 32 + 32 + 8 + 8 + 8 + 2 + 8 + 8 + 8 + 1 + 1
  const USER_STAKE_SPACE_AS_WRITTEN: nat := 8 + 32 + 8 + 8 + 8 + 8 + 8 + 8 + 1 + 1

  /** The bytes a `UserStake` account needs (`SpacesAgainstLayouts`). */
  const USER_STAKE_SPACE_NEEDED: nat := 8 + 32 + 8 + 8 + 8 + 8 + 8 + 8 + 8 + 1 + 1

  function UserStakeSpaceOf(b: Build): nat
  {
    if b.AsWritten? then USER_STAKE_SPACE_AS_WRITTEN else USER_STAKE_SPACE_NEEDED
  }

  /** The program state and the pool get exactly the bytes their structs
      need; the position gets 8 bytes fewer (one `i64` is missing from the
      sum). */
  lemma SpacesAgainstLayouts()
    ensures PROGRAM_STATE_SPACE == ProgramStateSpace()
    ensures STAKING_POOL_SPACE == StakingPoolSpace()
    ensures USER_STAKE_SPACE_NEEDED == UserStakeSpace()
    ensures USER_STAKE_SPACE_AS_WRITTEN + 8 == UserStakeSpace()
    ensures UserStakeSpaceOf(AsWritten) < UserStakeSpace() == UserStakeSpaceOf(Corrected)
  {
  }

  function PoolAddress(poolId: u64): Pubkey { FindProgramAddress(PoolSeeds(poolId)) }

  function PoolVaultAddress(poolId: u64): Pubkey { FindProgramAddress(PoolVaultByIdSeeds(poolId)) }

  function RewardVaultAddress(poolId: u64): Pubkey { FindProgramAddress(RewardVaultByIdSeeds(poolId)) }

  /** The address of a position. `Stake` declares `#[instruction(pool_id)]`,
      but the first argument of `stake` is `amount`, so as written the seeds
      hold the staked amount. */
  function PositionAddress(b: Build, user: Pubkey, poolId: u64, amount: u64): Pubkey
  {
    if b.AsWritten? then FindProgramAddress(UserStakeByIdSeeds(user, amount))
    else FindProgramAddress(UserStakeByIdSeeds(user, poolId))
  }

  /** The address `unstake` signs for: as written, the seeds of the pool vault
      (with the pool's bump), which is not the pool, the vault's authority. */
  function UnstakeSigner(b: Build, poolId: u64): Pubkey
  {
    if b.AsWritten? then PoolVaultAddress(poolId) else PoolAddress(poolId)
  }

  /** The address `claim_rewards` signs for, likewise. */
  function ClaimSigner(b: Build, poolId: u64): Pubkey
  {
    if b.AsWritten? then RewardVaultAddress(poolId) else PoolAddress(poolId)
  }

  // ---------------------------------------------------------------------------
  // initialize_program

  /** The admin is an argument here, not the payer. */
  function InitializeProgramOutcome(stateKey: Pubkey, admin: Pubkey): (r: Result<StateRec, Failure>)
    ensures r.Ok? <==> stateKey == FindProgramAddress(ProgramStateSeeds)
    ensures r.Ok? ==> r.value.admin == admin && r.value.totalPools == 0 && !r.value.isPaused
  {
    if stateKey != FindProgramAddress(ProgramStateSeeds) then Err(Anchor(ConstraintSeeds))
    else Ok(StateRec(admin, 0, false))
  }

  method InitializeProgram(state: ProgramState, admin: Pubkey) returns (r: Result<(), Failure>)
    modifies state
    ensures var o := InitializeProgramOutcome(state.key, admin);
            && (o.Err? ==> r == Err(o.error) && unchanged(state))
            && (o.Ok? ==> r == Ok(()) && state.View() == o.value)
  {
    if state.key != FindProgramAddress(ProgramStateSeeds) {
      return Err(Anchor(ConstraintSeeds));
    }
    state.admin, state.totalPools, state.isPaused := admin, 0, false;
    r := Ok(());
  }

  // ---------------------------------------------------------------------------
  // create_pool

  /** The accounts of `CreatePool`. `programState` carries no constraint and
      any signer may be `admin`. */
  datatype CreatePoolAccounts = CreatePoolAccounts(pool: Pubkey, tokenMint: Pubkey, poolVault: Pubkey,
                                                   rewardVault: Pubkey, admin: Pubkey)

  /** Anchor's checks: the pool and both vaults are at the addresses derived
      from `pool_id`, and both vault addresses are still free. */
  predicate CreatePoolAccountsValid(l: Ledger, ctx: CreatePoolAccounts, poolId: u64)
  {
    && ctx.pool == PoolAddress(poolId)
    && ctx.poolVault == PoolVaultAddress(poolId) && ctx.poolVault !in l
    && ctx.rewardVault == RewardVaultAddress(poolId) && ctx.rewardVault !in l
  }

  function CreatePoolOutcome(st: StateRec, l: Ledger, ctx: CreatePoolAccounts, poolId: u64, maxStakeAmount: u64,
                             minLockPeriod: i64, slashingRate: u16, baseRewardRate: u64, now: i64)
    : (r: Result<(StateRec, PoolRec, Ledger), Failure>)
    ensures r.Err? && r.error.Anchor? <==> !CreatePoolAccountsValid(l, ctx, poolId)
    ensures r == Err(Program(ProgramPaused)) <==> CreatePoolAccountsValid(l, ctx, poolId) && st.isPaused
    ensures r == Err(Panic) <==> CreatePoolAccountsValid(l, ctx, poolId) && !st.isPaused && st.totalPools == U64_MAX
    ensures r.Ok? <==> CreatePoolAccountsValid(l, ctx, poolId) && !st.isPaused && st.totalPools < U64_MAX
    ensures r.Ok? ==> r.value.0 == st.(totalPools := st.totalPools + 1)
    ensures r.Ok? ==> var p := r.value.1;
              && p.poolId == poolId && p.admin == ctx.admin && p.tokenMint == ctx.tokenMint
              && p.maxStakeAmount == maxStakeAmount && p.minLockPeriod == minLockPeriod
              && p.slashingRate == slashingRate && p.baseRewardRate == baseRewardRate && p.createdAt == now
              && p.currentStaked == 0 && p.performanceMultiplier == 10000 && p.isActive
              && p.poolVault == PoolVaultAddress(poolId) && p.rewardVault == RewardVaultAddress(poolId)
    ensures r.Ok? ==> r.value.2 == l[ctx.poolVault := TokenAccount(ctx.tokenMint, ctx.pool, 0)]
                                    [ctx.rewardVault := TokenAccount(ctx.tokenMint, ctx.pool, 0)]
  {
    if ctx.pool != PoolAddress(poolId) || ctx.poolVault != PoolVaultAddress(poolId) then Err(Anchor(ConstraintSeeds))
    else match InitTokenAccount(l, ctx.poolVault, ctx.tokenMint, ctx.pool)
      case Err(e) => Err(Anchor(e))
      case Ok(l1) =>
        if ctx.rewardVault != RewardVaultAddress(poolId) then Err(Anchor(ConstraintSeeds))
        else match InitTokenAccount(l1, ctx.rewardVault, ctx.tokenMint, ctx.pool)
          case Err(e) => Err(Anchor(e))
          case Ok(l2) =>
            if st.isPaused then Err(Program(ProgramPaused))
            else if st.totalPools + 1 > U64_MAX then Err(Panic)
            else
              Ok((st.(totalPools := st.totalPools + 1),
                  PoolRec(poolId, ctx.tokenMint, ctx.poolVault, ctx.rewardVault, ctx.admin, maxStakeAmount, 0,
                          minLockPeriod, slashingRate, baseRewardRate, DEFAULT_PERFORMANCE_MULTIPLIER, now, true),
                  l2))
  }

  method CreatePool(state: ProgramState, pool: StakingPool, token: TokenProgram, ctx: CreatePoolAccounts,
                    poolId: u64, maxStakeAmount: u64, minLockPeriod: i64, slashingRate: u16,
                    baseRewardRate: u64, now: i64)
    returns (r: Result<(), Failure>)
    requires ctx.pool == pool.key
    modifies state, pool, token
    ensures var o := CreatePoolOutcome(old(state.View()), old(token.accounts), ctx, poolId, maxStakeAmount,
                                       minLockPeriod, slashingRate, baseRewardRate, now);
            && (o.Err? ==> r == Err(o.error) && unchanged(state, pool, token))
            && (o.Ok? ==> r == Ok(()) && (state.View(), pool.View(), token.accounts) == o.value)
  {
    ghost var o := CreatePoolOutcome(state.View(), token.accounts, ctx, poolId, maxStakeAmount,
                                     minLockPeriod, slashingRate, baseRewardRate, now);
    var l := token.accounts;
    if pool.key != PoolAddress(poolId) || ctx.poolVault != PoolVaultAddress(poolId) {
      return Err(Anchor(ConstraintSeeds));
    }
    if ctx.poolVault in l {
      return Err(Anchor(AccountInUse));
    }
    if ctx.rewardVault != RewardVaultAddress(poolId) {
      return Err(Anchor(ConstraintSeeds));
    }
    if ctx.rewardVault in l {
      return Err(Anchor(AccountInUse));
    }
    if state.isPaused {
      return Err(Program(ProgramPaused));
    }
    if state.totalPools == U64_MAX {
      return Err(Panic);
    }
    state.totalPools := state.totalPools + 1;
    pool.Store(PoolRec(poolId, ctx.tokenMint, ctx.poolVault, ctx.rewardVault, ctx.admin, maxStakeAmount, 0,
                       minLockPeriod, slashingRate, baseRewardRate, DEFAULT_PERFORMANCE_MULTIPLIER, now, true));
    token.accounts := l[ctx.poolVault := TokenAccount(ctx.tokenMint, pool.key, 0)]
                       [ctx.rewardVault := TokenAccount(ctx.tokenMint, pool.key, 0)];
    assert o == Ok((state.View(), pool.View(), token.accounts));
    r := Ok(());
  }

  // ---------------------------------------------------------------------------
  // stake

  /** The accounts of `Stake`, `ClaimRewards` and `Unstake`. Only the
      position's address is constrained, and only in `Stake`; `vault` is the
      `pool_vault` or the `reward_vault` account, whichever the instruction
      takes, and need not be the pool's. */
  datatype PositionAccounts = PositionAccounts(pool: Pubkey, userStake: Pubkey, user: Pubkey,
                                               userTokenAccount: Pubkey, vault: Pubkey)

  /** Anchor's checks on `Stake`. The position account must be readable as a
      `UserStake`, which fails whenever it is allocated with too few bytes. */
  predicate StakeAccountsValid(b: Build, l: Ledger, p: PoolRec, ctx: PositionAccounts, amount: u64)
  {
    && ctx.userStake == PositionAddress(b, ctx.user, p.poolId, amount)
    && UserStakeSpaceOf(b) >= USER_STAKE_SPACE_NEEDED
    && ctx.userTokenAccount in l
    && ctx.vault in l
  }

  /** The position update of `stake`; `None` is a panic. A top-up does not
      compare the position's pool with the pool staked into. */
  function StakePosition(s: StakeRec, poolId: u64, user: Pubkey, amount: u64, lockDuration: i64, now: i64)
    : (r: Option<StakeRec>)
    ensures s.user == Default ==> (r.Some? <==> InI64(now + lockDuration))
    ensures s.user == Default && r.Some? ==>
              r.value == StakeRec(user, poolId, amount, lockDuration, now, now + lockDuration, now, 0, false)
    ensures s.user != Default ==> (r.Some? <==> InU64(s.stakeAmount + amount) && InI64(now + lockDuration))
    ensures s.user != Default && r.Some? ==>
              var n := r.value;
              && n.stakeAmount == s.stakeAmount + amount
              && n.lockUntil == (if now + lockDuration > s.lockUntil then now + lockDuration else s.lockUntil)
              && n.lockDuration == (if now + lockDuration > s.lockUntil then lockDuration else s.lockDuration)
              && n.(stakeAmount := s.stakeAmount, lockUntil := s.lockUntil, lockDuration := s.lockDuration) == s
  {
    if s.user == Default then
      match CheckedAddI64(now, lockDuration)
      case None => None
      case Some(lockUntil) => Some(StakeRec(user, poolId, amount, lockDuration, now, lockUntil, now, 0, false))
    else if s.stakeAmount + amount > U64_MAX then None
    else match CheckedAddI64(now, lockDuration)
      case None => None
      case Some(newLockUntil) =>
        var topped := s.(stakeAmount := s.stakeAmount + amount);
        if newLockUntil > s.lockUntil then Some(topped.(lockUntil := newLockUntil, lockDuration := lockDuration))
        else Some(topped)
  }

  method UpdatePosition(userStake: UserStake, poolId: u64, user: Pubkey, amount: u64, lockDuration: i64, now: i64)
    returns (ok: bool)
    modifies userStake
    ensures var o := StakePosition(old(userStake.View()), poolId, user, amount, lockDuration, now);
            && (o.None? ==> !ok && unchanged(userStake))
            && (o.Some? ==> ok && userStake.View() == o.value)
  {
    var lockUntil := CheckedAddI64(now, lockDuration);
    if lockUntil.None? {
      return false;
    }
    if userStake.user == Default {
      userStake.user, userStake.poolId, userStake.stakeAmount := user, poolId, amount;
      userStake.lockDuration, userStake.stakedAt, userStake.lockUntil := lockDuration, now, lockUntil.value;
      userStake.lastClaimed, userStake.pendingRewards, userStake.isSlashed := now, 0, false;
    } else {
      if userStake.stakeAmount + amount > U64_MAX {
        return false;
      }
      userStake.stakeAmount := userStake.stakeAmount + amount;
      if lockUntil.value > userStake.lockUntil {
        userStake.lockUntil, userStake.lockDuration := lockUntil.value, lockDuration;
      }
    }
    ok := true;
  }

  function StakeTransfer(l: Ledger, ctx: PositionAccounts, amount: u64): Result<Ledger, TokenError>
  {
    Transfer(l, ctx.userTokenAccount, ctx.vault, None, ctx.user, {ctx.user}, amount)
  }

  function StakeOutcome(b: Build, p: PoolRec, s: StakeRec, l: Ledger, ctx: PositionAccounts,
                        amount: u64, lockDuration: i64, now: i64)
    : (r: Result<(PoolRec, StakeRec, Ledger), Failure>)
    ensures r.Err? && r.error.Anchor? <==> !StakeAccountsValid(b, l, p, ctx, amount)
    ensures StakeAccountsValid(b, l, p, ctx, amount) ==>
              && (r == Err(Program(PoolInactive)) <==> !p.isActive)
              && (r == Err(Program(InvalidLockPeriod)) <==> p.isActive && lockDuration < p.minLockPeriod)
              && (r == Err(Program(PoolCapacityExceeded)) <==>
                    p.isActive && lockDuration >= p.minLockPeriod
                    && p.maxStakeAmount < p.currentStaked + amount <= U64_MAX)
              && (r == Err(Program(InvalidAmount)) <==>
                    p.isActive && lockDuration >= p.minLockPeriod && p.currentStaked <= p.maxStakeAmount
                    && amount == 0)
              && (p.isActive && lockDuration >= p.minLockPeriod && p.currentStaked + amount > U64_MAX ==>
                    r == Err(Panic))
    ensures r.Ok? <==>
              && StakeAccountsValid(b, l, p, ctx, amount)
              && p.isActive && lockDuration >= p.minLockPeriod
              && p.currentStaked + amount <= p.maxStakeAmount && amount > 0
              && StakeTransfer(l, ctx, amount).Ok?
              && StakePosition(s, p.poolId, ctx.user, amount, lockDuration, now).Some?
    ensures r.Ok? ==>
              && r.value.0 == p.(currentStaked := p.currentStaked + amount)
              && r.value.1 == StakePosition(s, p.poolId, ctx.user, amount, lockDuration, now).value
    ensures r.Ok? && ctx.userTokenAccount != ctx.vault ==>
              && BalanceOf(r.value.2, ctx.userTokenAccount) + amount == BalanceOf(l, ctx.userTokenAccount)
              && BalanceOf(r.value.2, ctx.vault) == BalanceOf(l, ctx.vault) + amount
    ensures r.Ok? ==> OnlyTouches(l, r.value.2, ctx.userTokenAccount, ctx.vault)
  {
    if ctx.userStake != PositionAddress(b, ctx.user, p.poolId, amount) then Err(Anchor(ConstraintSeeds))
    else if UserStakeSpaceOf(b) < USER_STAKE_SPACE_NEEDED then Err(Anchor(AccountDidNotDeserialize))
    else if ctx.userTokenAccount !in l || ctx.vault !in l then Err(Anchor(AccountNotInitialized))
    else if !p.isActive then Err(Program(PoolInactive))
    else if lockDuration < p.minLockPeriod then Err(Program(InvalidLockPeriod))
    else if p.currentStaked + amount > U64_MAX then Err(Panic)
    else if p.currentStaked + amount > p.maxStakeAmount then Err(Program(PoolCapacityExceeded))
    else if amount == 0 then Err(Program(InvalidAmount))
    else match StakeTransfer(l, ctx, amount)
      case Err(e) => Err(Token(e))
      case Ok(l') =>
        match StakePosition(s, p.poolId, ctx.user, amount, lockDuration, now)
        case None => Err(Panic)
        case Some(s') => Ok((p.(currentStaked := p.currentStaked + amount), s', l'))
  }

  method Stake(pool: StakingPool, userStake: UserStake, token: TokenProgram, ctx: PositionAccounts,
               amount: u64, lockDuration: i64, now: i64)
    returns (r: Result<(), Failure>)
    requires ctx.pool == pool.key && ctx.userStake == userStake.key
    modifies pool`currentStaked, userStake, token
    ensures var o := StakeOutcome(Corrected, old(pool.View()), old(userStake.View()), old(token.accounts), ctx,
                                  amount, lockDuration, now);
            && (o.Err? ==> r == Err(o.error) && unchanged(pool, userStake, token))
            && (o.Ok? ==> r == Ok(()) && (pool.View(), userStake.View(), token.accounts) == o.value)
  {
    var l := token.accounts;
    ghost var o := StakeOutcome(Corrected, pool.View(), userStake.View(), l, ctx, amount, lockDuration, now);
    if userStake.key != PositionAddress(Corrected, ctx.user, pool.poolId, amount) {
      return Err(Anchor(ConstraintSeeds));
    }
    if ctx.userTokenAccount !in l || ctx.vault !in l {
      return Err(Anchor(AccountNotInitialized));
    }
    if !pool.isActive {
      return Err(Program(PoolInactive));
    }
    if lockDuration < pool.minLockPeriod {
      return Err(Program(InvalidLockPeriod));
    }
    if pool.currentStaked + amount > U64_MAX {
      return Err(Panic);
    }
    var newStaked: u64 := pool.currentStaked + amount;
    if newStaked > pool.maxStakeAmount {
      return Err(Program(PoolCapacityExceeded));
    }
    if amount == 0 {
      return Err(Program(InvalidAmount));
    }
    var moved := StakeTransfer(l, ctx, amount);
    if moved.Err? {
      return Err(Token(moved.error));
    }
    var ok := UpdatePosition(userStake, pool.poolId, ctx.user, amount, lockDuration, now);
    if !ok {
      return Err(Panic);
    }
    pool.currentStaked := newStaked;
    token.accounts := moved.value;
    assert o == Ok((pool.View(), userStake.View(), token.accounts));
    r := Ok(());
  }

  // ---------------------------------------------------------------------------
  // claim_rewards

  predicate TokenAccountsExist(l: Ledger, ctx: PositionAccounts)
  {
    ctx.userTokenAccount in l && ctx.vault in l
  }

  function ClaimTransfer(b: Build, l: Ledger, p: PoolRec, ctx: PositionAccounts, rewards: u64)
    : Result<Ledger, TokenError>
  {
    Transfer(l, ctx.vault, ctx.userTokenAccount, None, ctx.pool, {ctx.user, ClaimSigner(b, p.poolId)}, rewards)
  }

  function PositionReward(p: PoolRec, s: StakeRec, elapsed: i64): Option<u64>
  {
    CalculateRewards(s.stakeAmount, elapsed, p.baseRewardRate, p.performanceMultiplier)
  }

  /** `claim_rewards`: the position is written only when the reward is
      positive; a zero reward leaves `last_claimed` where it was. */
  function ClaimOutcome(b: Build, p: PoolRec, s: StakeRec, l: Ledger, ctx: PositionAccounts, now: i64)
    : (r: Result<(StakeRec, Ledger), Failure>)
    ensures r.Err? && r.error.Anchor? <==> !TokenAccountsExist(l, ctx)
    ensures TokenAccountsExist(l, ctx) ==>
              (r == Err(Panic) <==>
                 !InI64(now - s.lastClaimed) || PositionReward(p, s, now - s.lastClaimed).None?)
    ensures TokenAccountsExist(l, ctx) && now == s.lastClaimed ==> r == Ok((s, l))
    ensures r.Ok? <==>
              && TokenAccountsExist(l, ctx) && InI64(now - s.lastClaimed)
              && PositionReward(p, s, now - s.lastClaimed).Some?
              && (PositionReward(p, s, now - s.lastClaimed).value > 0 ==>
                    ClaimTransfer(b, l, p, ctx, PositionReward(p, s, now - s.lastClaimed).value).Ok?)
    ensures r.Ok? ==>
              var reward := PositionReward(p, s, now - s.lastClaimed).value;
              && (reward == 0 ==> r.value == (s, l))
              && (reward > 0 ==> r.value.0 == s.(pendingRewards := 0, lastClaimed := now))
              && (reward > 0 && ctx.userTokenAccount != ctx.vault ==>
                    && BalanceOf(r.value.1, ctx.userTokenAccount) == BalanceOf(l, ctx.userTokenAccount) + reward
                    && BalanceOf(r.value.1, ctx.vault) + reward == BalanceOf(l, ctx.vault))
    ensures r.Ok? ==> OnlyTouches(l, r.value.1, ctx.userTokenAccount, ctx.vault)
  {
    if !TokenAccountsExist(l, ctx) then Err(Anchor(AccountNotInitialized))
    else match CheckedSubI64(now, s.lastClaimed)
      case None => Err(Panic)
      case Some(elapsed) =>
        match PositionReward(p, s, elapsed)
        case None => Err(Panic)
        case Some(rewards) =>
          if rewards > 0 then
            match ClaimTransfer(b, l, p, ctx, rewards)
            case Err(e) => Err(Token(e))
            case Ok(l') => Ok((s.(pendingRewards := 0, lastClaimed := now), l'))
          else Ok((s, l))
  }

  method ClaimRewards(pool: StakingPool, userStake: UserStake, token: TokenProgram, ctx: PositionAccounts, now: i64)
    returns (r: Result<(), Failure>)
    requires ctx.pool == pool.key
    modifies userStake`lastClaimed, userStake`pendingRewards, token
    ensures var o := ClaimOutcome(Corrected, pool.View(), old(userStake.View()), old(token.accounts), ctx, now);
            && (o.Err? ==> r == Err(o.error) && unchanged(userStake, token))
            && (o.Ok? ==> r == Ok(()) && (userStake.View(), token.accounts) == o.value)
  {
    var l := token.accounts;
    if ctx.userTokenAccount !in l || ctx.vault !in l {
      return Err(Anchor(AccountNotInitialized));
    }
    var elapsed := CheckedSubI64(now, userStake.lastClaimed);
    if elapsed.None? {
      return Err(Panic);
    }
    var rewards := CalculateRewards(userStake.stakeAmount, elapsed.value, pool.baseRewardRate,
                                    pool.performanceMultiplier);
    if rewards.None? {
      return Err(Panic);
    }
    if rewards.value > 0 {
      var moved := ClaimTransfer(Corrected, l, pool.View(), ctx, rewards.value);
      if moved.Err? {
        return Err(Token(moved.error));
      }
      userStake.pendingRewards, userStake.lastClaimed := 0, now;
      token.accounts := moved.value;
    }
    r := Ok(());
  }

  // ---------------------------------------------------------------------------
  // unstake

  /** The penalty of `unstake`; `None` is a panic (the time remaining or the
      product overflowing). */
  function EarlyExitPenalty(p: PoolRec, s: StakeRec, amount: u64, now: i64): (r: Option<u64>)
    ensures now >= s.lockUntil ==> r == Some(0)
    ensures now < s.lockUntil ==>
              (r.None? <==> !InI64(s.lockUntil - now) || amount * p.slashingRate > U64_MAX)
    ensures now < s.lockUntil && r.Some? ==>
              r.value * BPS <= amount * p.slashingRate < r.value * BPS + BPS
    ensures r.Some? && p.slashingRate <= BPS ==> r.value <= amount
  {
    if now < s.lockUntil then
      match CheckedSubI64(s.lockUntil, now)
      case None => None
      case Some(timeRemaining) => CalculateSlashingPenalty(amount, timeRemaining, p.slashingRate)
    else Some(0)
  }

  function UnstakeTransfer(b: Build, l: Ledger, p: PoolRec, ctx: PositionAccounts, returned: u64)
    : Result<Ledger, TokenError>
  {
    Transfer(l, ctx.vault, ctx.userTokenAccount, None, ctx.pool, {ctx.user, UnstakeSigner(b, p.poolId)}, returned)
  }

  /** `unstake`: a zero amount is accepted; the penalty stays in the vault.
      Nothing ties the position to the signer or to the pool passed. */
  function UnstakeOutcome(b: Build, p: PoolRec, s: StakeRec, l: Ledger, ctx: PositionAccounts,
                          amount: u64, now: i64)
    : (r: Result<(StakeRec, Ledger), Failure>)
    ensures r.Err? && r.error.Anchor? <==> !TokenAccountsExist(l, ctx)
    ensures TokenAccountsExist(l, ctx) ==>
              && (r == Err(Program(InsufficientStake)) <==> amount > s.stakeAmount)
              && (r == Err(Program(StakeSlashed)) <==> amount <= s.stakeAmount && s.isSlashed)
              && (r == Err(Panic) <==>
                    amount <= s.stakeAmount && !s.isSlashed
                    && (EarlyExitPenalty(p, s, amount, now).None? || EarlyExitPenalty(p, s, amount, now).value > amount))
    ensures r.Ok? <==>
              && TokenAccountsExist(l, ctx) && amount <= s.stakeAmount && !s.isSlashed
              && EarlyExitPenalty(p, s, amount, now).Some? && EarlyExitPenalty(p, s, amount, now).value <= amount
              && UnstakeTransfer(b, l, p, ctx, amount - EarlyExitPenalty(p, s, amount, now).value).Ok?
    ensures r.Ok? ==> r.value.0 == s.(stakeAmount := s.stakeAmount - amount)
    ensures r.Ok? && ctx.userTokenAccount != ctx.vault ==>
              var penalty := EarlyExitPenalty(p, s, amount, now).value;
              && BalanceOf(r.value.1, ctx.userTokenAccount) == BalanceOf(l, ctx.userTokenAccount) + amount - penalty
              && BalanceOf(r.value.1, ctx.vault) + amount == BalanceOf(l, ctx.vault) + penalty
    ensures r.Ok? ==> OnlyTouches(l, r.value.1, ctx.userTokenAccount, ctx.vault)
  {
    if !TokenAccountsExist(l, ctx) then Err(Anchor(AccountNotInitialized))
    else if amount > s.stakeAmount then Err(Program(InsufficientStake))
    else if s.isSlashed then Err(Program(StakeSlashed))
    else match EarlyExitPenalty(p, s, amount, now)
      case None => Err(Panic)
      case Some(penalty) =>
        if penalty > amount then Err(Panic)
        else match UnstakeTransfer(b, l, p, ctx, amount - penalty)
          case Err(e) => Err(Token(e))
          case Ok(l') => Ok((s.(stakeAmount := s.stakeAmount - amount), l'))
  }

  method Unstake(pool: StakingPool, userStake: UserStake, token: TokenProgram, ctx: PositionAccounts,
                 amount: u64, now: i64)
    returns (r: Result<(), Failure>)
    requires ctx.pool == pool.key
    modifies userStake`stakeAmount, token
    ensures var o := UnstakeOutcome(Corrected, pool.View(), old(userStake.View()), old(token.accounts), ctx,
                                    amount, now);
            && (o.Err? ==> r == Err(o.error) && unchanged(userStake, token))
            && (o.Ok? ==> r == Ok(()) && (userStake.View(), token.accounts) == o.value)
  {
    var l := token.accounts;
    if ctx.userTokenAccount !in l || ctx.vault !in l {
      return Err(Anchor(AccountNotInitialized));
    }
    if amount > userStake.stakeAmount {
      return Err(Program(InsufficientStake));
    }
    if userStake.isSlashed {
      return Err(Program(StakeSlashed));
    }
    var penalty := EarlyExitPenalty(pool.View(), userStake.View(), amount, now);
    if penalty.None? || penalty.value > amount {
      return Err(Panic);
    }
    var moved := UnstakeTransfer(Corrected, l, pool.View(), ctx, amount - penalty.value);
    if moved.Err? {
      return Err(Token(moved.error));
    }
    userStake.stakeAmount := userStake.stakeAmount - amount;
    token.accounts := moved.value;
    r := Ok(());
  }
}
