/** The three account structs, which both program versions declare with the
    same fields: their values, the program-owned accounts that hold them, and
    their Borsh sizes. The `bump` fields are not modelled (bumps are abstracted
    away in `Solana.FindProgramAddress`), but they are counted in the sizes. */
module Accounts {
  import opened Solana

  datatype StateRec = StateRec(admin: Pubkey, totalPools: u64, isPaused: bool)

  datatype PoolRec = PoolRec(
    poolId: u64,
    tokenMint: Pubkey,
    poolVault: Pubkey,
    rewardVault: Pubkey,
    admin: Pubkey,
    maxStakeAmount: u64,
    currentStaked: u64,
    minLockPeriod: i64,
    slashingRate: u16,
    baseRewardRate: u64,
    performanceMultiplier: u64,
    createdAt: i64,
    isActive: bool)

  datatype StakeRec = StakeRec(
    user: Pubkey,
    poolId: u64,
    stakeAmount: u64,
    lockDuration: i64,
    stakedAt: i64,
    lockUntil: i64,
    lastClaimed: i64,
    pendingRewards: u64,
    isSlashed: bool)

  /** The all-zero data of an account that Anchor has just allocated. */
  const ZeroState := StateRec(Default, 0, false)
  const ZeroPool := PoolRec(0, Default, Default, Default, Default, 0, 0, 0, 0, 0, 0, 0, false)
  const ZeroStake := StakeRec(Default, 0, 0, 0, 0, 0, 0, 0, false)

  /** The global `ProgramState` account. */
  class ProgramState {
    const key: Pubkey
    var admin: Pubkey
    var totalPools: u64
    var isPaused: bool

    function View(): StateRec
      reads this
    {
      StateRec(admin, totalPools, isPaused)
    }

    constructor Zeroed(key: Pubkey)
      ensures this.key == key && View() == ZeroState
    {
      this.key := key;
      admin, totalPools, isPaused := Default, 0, false;
    }
  }

  /** A `StakingPool` account. */
  class StakingPool {
    const key: Pubkey
    var poolId: u64
    var tokenMint: Pubkey
    var poolVault: Pubkey
    var rewardVault: Pubkey
    var admin: Pubkey
    var maxStakeAmount: u64
    var currentStaked: u64
    var minLockPeriod: i64
    var slashingRate: u16
    var baseRewardRate: u64
    var performanceMultiplier: u64
    var createdAt: i64
    var isActive: bool

    function View(): PoolRec
      reads this
    {
      PoolRec(poolId, tokenMint, poolVault, rewardVault, admin, maxStakeAmount, currentStaked,
              minLockPeriod, slashingRate, baseRewardRate, performanceMultiplier, createdAt, isActive)
    }

    constructor Zeroed(key: Pubkey)
      ensures this.key == key && View() == ZeroPool
    {
      this.key := key;
      poolId, tokenMint, poolVault, rewardVault, admin := 0, Default, Default, Default, Default;
      maxStakeAmount, currentStaked, minLockPeriod, slashingRate := 0, 0, 0, 0;
      baseRewardRate, performanceMultiplier, createdAt, isActive := 0, 0, 0, false;
    }

    /** Overwrites every modelled field with `p`. */
    method Store(p: PoolRec)
      modifies this
      ensures View() == p
    {
      poolId, tokenMint, poolVault, rewardVault, admin := p.poolId, p.tokenMint, p.poolVault, p.rewardVault, p.admin;
      maxStakeAmount, currentStaked, minLockPeriod := p.maxStakeAmount, p.currentStaked, p.minLockPeriod;
      slashingRate, baseRewardRate, performanceMultiplier := p.slashingRate, p.baseRewardRate, p.performanceMultiplier;
      createdAt, isActive := p.createdAt, p.isActive;
    }
  }

  /** A `UserStake` account: one position of one user in one pool. */
  class UserStake {
    const key: Pubkey
    var user: Pubkey
    var poolId: u64
    var stakeAmount: u64
    var lockDuration: i64
    var stakedAt: i64
    var lockUntil: i64
    var lastClaimed: i64
    var pendingRewards: u64
    var isSlashed: bool

    function View(): StakeRec
      reads this
    {
      StakeRec(user, poolId, stakeAmount, lockDuration, stakedAt, lockUntil, lastClaimed, pendingRewards, isSlashed)
    }

    constructor Zeroed(key: Pubkey)
      ensures this.key == key && View() == ZeroStake
    {
      this.key := key;
      user, poolId, stakeAmount, lockDuration, stakedAt := Default, 0, 0, 0, 0;
      lockUntil, lastClaimed, pendingRewards, isSlashed := 0, 0, 0, false;
    }
  }

  /** The token ledger the handlers move tokens in. */
  class TokenProgram {
    var accounts: Ledger

    constructor (accounts: Ledger)
      ensures this.accounts == accounts
    {
      this.accounts := accounts;
    }
  }

  // Borsh sizes of the account structs

  datatype FieldType = PubkeyField | U64Field | I64Field | U16Field | BoolField | U8Field

  function FieldSize(f: FieldType): nat
  {
    match f
    case PubkeyField => 32
    case U64Field => 8
    case I64Field => 8
    case U16Field => 2
    case BoolField => 1
    case U8Field => 1
  }

  function LayoutSize(fields: seq<FieldType>): nat
  {
    if fields == [] then 0 else FieldSize(fields[0]) + LayoutSize(fields[1..])
  }

  /** Anchor's account discriminator. */
  const DISCRIMINATOR_LEN: nat := 8

  const PROGRAM_STATE_LAYOUT: seq<FieldType> := [PubkeyField, U64Field, BoolField, U8Field]

  const STAKING_POOL_LAYOUT: seq<FieldType> :=
    [U64Field, PubkeyField, PubkeyField, PubkeyField, PubkeyField, U64Field, U64Field,
     I64Field, U16Field, U64Field, U64Field, I64Field, BoolField, U8Field]

  const USER_STAKE_LAYOUT: seq<FieldType> :=
    [PubkeyField, U64Field, U64Field, I64Field, I64Field, I64Field, I64Field, U64Field, BoolField, U8Field]

  /** The bytes an account of each struct needs. */
  function ProgramStateSpace(): nat { DISCRIMINATOR_LEN + LayoutSize(PROGRAM_STATE_LAYOUT) }
  function StakingPoolSpace(): nat { DISCRIMINATOR_LEN + LayoutSize(STAKING_POOL_LAYOUT) }
  function UserStakeSpace(): nat { DISCRIMINATOR_LEN + LayoutSize(USER_STAKE_LAYOUT) }
}
