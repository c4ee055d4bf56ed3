# Mindshare staking pool — a Dafny model

The Mindshare staking pool is an Anchor program on Solana. Users lock SPL
tokens into pools for a minimum period. While locked, a position earns
rewards from the pool's reward vault. A user who leaves before the lock runs
out pays a slashing penalty. An administrator creates the pools.

The repository holds two versions of the program, and both are modelled:

- the current program, `mindshare-staking-pool/programs/mindshare-staking-pool/src/lib.rs`
  (modules `RewardsV2`, `StakingV2`, `PropertiesV2`), with instructions
  `initialize`, `create_pool`, `init_pool_vault`, `init_reward_vault`,
  `stake`, `claim_rewards`, `unstake` and `close_stake`;
- the earlier program, `programs/mindshare-staking-pool/src/lib.rs`
  (modules `RewardsV1`, `StakingV1`, `PropertiesV1`), with instructions
  `initialize_program`, `create_pool`, `stake`, `claim_rewards` and `unstake`.

## How the model is built

- `Solana` holds the runtime pieces the handlers rely on:
  - the integer widths `u16`, `u64` and `i64`, with the checked `i64` operations;
  - program-derived addresses: `FindProgramAddress(seeds)` is a `Derived(seeds)`
    key, which is injective, never the default key and never a wallet;
  - the SPL token ledger (`map<Pubkey, TokenAccount>`), with `Transfer`,
    `Burn` and the `token::init` of a vault. Each checks the owner, the signer
    set and the mint as the token program does.
- `Accounts` holds the three `#[account]` structs, which both versions share:
  - as values (`StateRec`, `PoolRec`, `StakeRec`);
  - as classes whose fields the handlers update in place (`ProgramState`,
    `StakingPool`, `UserStake`), each with `View()`;
  - with their Borsh sizes.
- Each instruction is modelled twice:
  - a pure `…Outcome` function gives the new account records and ledger, or
    the error: a program `ErrorCode`, an Anchor constraint failure, a token
    program failure, or (in the earlier version) a panic from `unwrap()`;
  - a method on the account objects checks everything, then writes, and its
    `ensures` ties the new fields to that function. A failing instruction
    changes nothing, as a failed Solana transaction is rolled back.
- The clock (`Clock::get()`) is a parameter `now`.
- The earlier version has three defects (see "## Findings"). Its account
  checks and signer seeds therefore take a `Build`:
  - `AsWritten` is the program as declared;
  - `Corrected` is the evidently intended fix.

  The lemmas about `AsWritten` show each defect. The handler methods and the
  positive properties use `Corrected`.

## Behaviour worth knowing

These follow from the programs' own code, and the model keeps each of them:

- `unstake` does not lower the pool's `current_staked`, in either version. Capacity freed by an exit is never given back.
- The current `unstake` burns the penalty. The earlier one leaves it in the pool vault.
- A top-up moves `lock_until` later whenever `now + lock_duration` exceeds it. The first lock is `now + lock_duration`, not a maximum with the pool's minimum; a shorter `lock_duration` is refused outright.
- No instruction sets `is_slashed`. The `StakeSlashed` check can therefore only fail on a position that was already flagged.
- `claim_rewards` neither records an unpaid remainder in `pending_rewards` nor turns an empty reward vault into a program error. A short vault makes the token transfer fail.
- There is no pause instruction. `is_paused` is only read, and only by `create_pool`.
- The current version has no `Unauthorized` check. Ownership comes from the position's seeds and from `has_one = user`.
- The earlier `create_pool` does not check the admin, the capacity or the slashing rate.
- The earlier `unstake` accepts a zero amount, and nothing ties its position to its signer.

## Model

| member | source | states |
|---|---|---|
| Solana.FindProgramAddress | mindshare-staking-pool/programs/mindshare-staking-pool/src/lib.rs:277-293 | a derived address is never the default key and never a wallet key |
| Solana.AddressInjective | mindshare-staking-pool/programs/mindshare-staking-pool/src/lib.rs:380-383 | two seed lists give the same address exactly when they are equal, so each (pool, user) has one position account |
| Solana.Transfer | mindshare-staking-pool/programs/mindshare-staking-pool/src/lib.rs:98-105 | a transfer succeeds only from an existing account owned by a signer, with enough balance and matching mints; it keeps the set of accounts, preserves the sum of the two balances, credits the destination and leaves every other account alone |
| Solana.Burn | mindshare-staking-pool/programs/mindshare-staking-pool/src/lib.rs:237-249 | a burn succeeds only with the right mint and a signing owner, lowers the source by the amount and leaves every other account alone |
| Solana.TransferRoundTrip | mindshare-staking-pool/programs/mindshare-staking-pool/src/lib.rs:222-233 | a transfer followed by the reverse transfer, signed by the destination's owner, restores the ledger |
| Accounts.ProgramState.Zeroed | mindshare-staking-pool/programs/mindshare-staking-pool/src/lib.rs:501-507 | a freshly allocated program state holds the all-zero record |
| Accounts.StakingPool.Zeroed | mindshare-staking-pool/programs/mindshare-staking-pool/src/lib.rs:513-529 | a freshly allocated pool holds the all-zero record |
| Accounts.StakingPool.Store | mindshare-staking-pool/programs/mindshare-staking-pool/src/lib.rs:41-58 | writing a pool record leaves exactly that record in the account |
| Accounts.UserStake.Zeroed | mindshare-staking-pool/programs/mindshare-staking-pool/src/lib.rs:536-548 | a freshly allocated position holds the all-zero record, whose `user` is the default key that `stake` tests for |
| RewardsV2.StakeTimeFitsU128 | mindshare-staking-pool/programs/mindshare-staking-pool/src/lib.rs:472-477 | `stake * t` of a `u64` stake and a positive `i64` time never overflows `u128` |
| RewardsV2.CalculateRewards | mindshare-staking-pool/programs/mindshare-staking-pool/src/lib.rs:470-489 | no time gives no reward; `MathOverflow` exactly when stake·time·rate or that times the multiplier exceeds `u128`; otherwise the reward is stake·time·rate·multiplier divided by 10000·1000000, saturated at `u64::MAX` |
| RewardsV2.CalculateSlashingPenalty | mindshare-staking-pool/programs/mindshare-staking-pool/src/lib.rs:491-498 | never fails; zero once the lock is over; with a rate of at most 100 %, otherwise the floor of amount·rate/10000 and never more than the amount |
| RewardsV2.BasisPointsAtMostWhole | mindshare-staking-pool/programs/mindshare-staking-pool/src/lib.rs:493-495 | a share of at most 10000 basis points is at most the whole |
| RewardsV2.DefaultMultiplierReward | mindshare-staking-pool/programs/mindshare-staking-pool/src/lib.rs:480-486 | with the default multiplier of 10000, the reward is stake·time·rate over the precision |
| RewardsV2.RewardsMonotoneInTime | mindshare-staking-pool/programs/mindshare-staking-pool/src/lib.rs:470-489 | a longer elapsed time never gives a smaller reward, and a shorter time never overflows when a longer one does not |
| StakingV2.LenConstantsMatchLayouts | mindshare-staking-pool/programs/mindshare-staking-pool/src/lib.rs:509-553 | each `LEN` is the discriminator plus the Borsh size of its struct's fields |
| StakingV2.InitializeOutcome | mindshare-staking-pool/programs/mindshare-staking-pool/src/lib.rs:15-22 | succeeds exactly at the program-state address, with the payer as admin, no pools and not paused |
| StakingV2.Initialize | mindshare-staking-pool/programs/mindshare-staking-pool/src/lib.rs:271-284 | writes the program state as `InitializeOutcome` says, or changes nothing |
| StakingV2.CreatePoolOutcome | mindshare-staking-pool/programs/mindshare-staking-pool/src/lib.rs:24-62 | Anchor failure exactly on the wrong pool address, state address or admin (`has_one`); then `ProgramPaused`, `InvalidAmount` (zero capacity or rate above 100 %), `MathOverflow` (pool counter full), each exactly under its condition; success exactly when none of them holds; on success the counter goes up by one and the pool holds the arguments, is active, empty, with unset vaults, and satisfies the pool invariant |
| StakingV2.CreatePool | mindshare-staking-pool/programs/mindshare-staking-pool/src/lib.rs:286-311 | writes the program state and the pool as `CreatePoolOutcome` says, or changes nothing |
| StakingV2.InitPoolVaultOutcome | mindshare-staking-pool/programs/mindshare-staking-pool/src/lib.rs:65-69 | succeeds exactly when the admin signs for the pool (seeds and `has_one`) and the vault is at its derived, unused address; sets `pool_vault` and creates an empty vault owned by the pool |
| StakingV2.InitRewardVaultOutcome | mindshare-staking-pool/programs/mindshare-staking-pool/src/lib.rs:72-76 | the same for the reward vault and `reward_vault` |
| StakingV2.InitPoolVault | mindshare-staking-pool/programs/mindshare-staking-pool/src/lib.rs:313-341 | writes the pool and the ledger as `InitPoolVaultOutcome` says, or changes nothing |
| StakingV2.InitRewardVault | mindshare-staking-pool/programs/mindshare-staking-pool/src/lib.rs:343-371 | writes the pool and the ledger as `InitRewardVaultOutcome` says, or changes nothing |
| StakingV2.StakePosition | mindshare-staking-pool/programs/mindshare-staking-pool/src/lib.rs:108-131 | a first stake opens a position for the user locked until `now + lock_duration`; a top-up fails with `InvalidPool` exactly when the position belongs to another pool, adds the amount and only ever moves the lock later; `MathOverflow` otherwise only on overflow |
| StakingV2.UpdatePosition | mindshare-staking-pool/programs/mindshare-staking-pool/src/lib.rs:108-131 | writes the position as `StakePosition` says, or changes nothing |
| StakingV2.StakeOutcome | mindshare-staking-pool/programs/mindshare-staking-pool/src/lib.rs:78-134 | Anchor failure exactly on a wrong position address or token account; then `PoolInactive`, `InvalidAmount`, `InvalidLockPeriod`, `VaultNotInitialized`, `InvalidPoolVault`, `PoolCapacityExceeded`, each exactly under its condition; `MathOverflow` exactly when `current_staked + amount` overflows or the position update overflows; success exactly when all checks, the transfer and the position update pass; then `current_staked` grows by the amount and stays within capacity, and the amount moves from the user to the vault, no other token account changing |
| StakingV2.Stake | mindshare-staking-pool/programs/mindshare-staking-pool/src/lib.rs:373-403 | writes the pool, the position and the ledger as `StakeOutcome` says, or changes nothing |
| StakingV2.ClaimOutcome | mindshare-staking-pool/programs/mindshare-staking-pool/src/lib.rs:136-188 | Anchor failure exactly on a wrong position address or missing token accounts; then `InvalidPool`, `InvalidPoolVault`, `InvalidTimestamp`, `MathOverflow`, each exactly under its condition; success exactly when these checks pass and, for a positive reward, the transfer from the reward vault succeeds; only `last_claimed` and `pending_rewards` change; a claim with time elapsed sets `last_claimed` to now, and a positive reward moves from the reward vault to the destination account and clears `pending_rewards`; no other token account changes |
| StakingV2.ClaimRewards | mindshare-staking-pool/programs/mindshare-staking-pool/src/lib.rs:405-425 | writes only `last_claimed`, `pending_rewards` and the ledger, as `ClaimOutcome` says, or changes nothing |
| StakingV2.EarlyExitPenalty | mindshare-staking-pool/programs/mindshare-staking-pool/src/lib.rs:200-210 | no penalty once the lock is over or when the time remaining overflows; otherwise the slashing formula; never more than the amount when the rate is at most 100 % |
| StakingV2.UnstakeTransfers | mindshare-staking-pool/programs/mindshare-staking-pool/src/lib.rs:220-250 | the user receives the amount less the penalty and the vault loses the whole amount; no other token account changes, so the penalty is burned |
| StakingV2.UnstakeOutcome | mindshare-staking-pool/programs/mindshare-staking-pool/src/lib.rs:190-258 | Anchor failure exactly on a position not the signer's or a missing token account; then `InvalidPool`, `InvalidPoolVault`, `InvalidAmount`, `InsufficientStake`, `StakeSlashed` and `MathOverflow` (penalty above the amount), each exactly under its condition; on success only `stake_amount` changes, lowered by the amount; the user gains the amount less the penalty, the vault loses the amount and no other token account changes, so the penalty leaves the ledger |
| StakingV2.Unstake | mindshare-staking-pool/programs/mindshare-staking-pool/src/lib.rs:427-449 | writes only `stake_amount` and the ledger, as `UnstakeOutcome` says, and never the pool |
| StakingV2.CloseStakeOutcome | mindshare-staking-pool/programs/mindshare-staking-pool/src/lib.rs:261-266 | succeeds exactly for the signer's own position with nothing staked; `StakeNotZero` exactly when it still holds stake; the closed account holds the all-zero record |
| StakingV2.CloseStake | mindshare-staking-pool/programs/mindshare-staking-pool/src/lib.rs:451-467 | writes the position as `CloseStakeOutcome` says, or changes nothing |
| PropertiesV2.StakeKeepsPoolValid | mindshare-staking-pool/programs/mindshare-staking-pool/src/lib.rs:88-93 | a successful stake keeps the pool invariant: derived address, within capacity, valid rate, vaults unset or derived |
| PropertiesV2.InitVaultsKeepPoolValid | mindshare-staking-pool/programs/mindshare-staking-pool/src/lib.rs:65-76 | creating either vault keeps the pool invariant |
| PropertiesV2.VaultsInitOnce | mindshare-staking-pool/programs/mindshare-staking-pool/src/lib.rs:325-333 | after a vault is created, creating it again fails with `AccountInUse` |
| PropertiesV2.StakedInUpdate | mindshare-staking-pool/programs/mindshare-staking-pool/src/lib.rs:92-93 | replacing one position changes the pool's total stake by the difference of that position's contributions |
| PropertiesV2.StakeKeepsCovered | mindshare-staking-pool/programs/mindshare-staking-pool/src/lib.rs:92-131 | after a stake, the positions of the pool still hold no more than `current_staked` |
| PropertiesV2.StakeElsewhereKeepsCovered | mindshare-staking-pool/programs/mindshare-staking-pool/src/lib.rs:120-124 | a stake into another pool keeps this pool's positions covered |
| PropertiesV2.UnstakeKeepsCovered | mindshare-staking-pool/programs/mindshare-staking-pool/src/lib.rs:252 | an unstake keeps the positions covered, since it only lowers a position |
| PropertiesV2.ClaimKeepsCovered | mindshare-staking-pool/programs/mindshare-staking-pool/src/lib.rs:183-185 | a claim keeps the positions covered |
| PropertiesV2.CloseKeepsCovered | mindshare-staking-pool/programs/mindshare-staking-pool/src/lib.rs:261-266 | closing a position keeps the positions covered |
| PropertiesV2.StakeThenUnstakeAfterLock | mindshare-staking-pool/programs/mindshare-staking-pool/src/lib.rs:78-258 | staking an amount and unstaking it once the lock has run out succeeds and gives the user's account and the vault back exactly their earlier balances |
| PropertiesV2.ClaimTwiceSameTime | mindshare-staking-pool/programs/mindshare-staking-pool/src/lib.rs:144-185 | a second claim at the same time succeeds and changes nothing |
| PropertiesV2.ClaimIgnoresDestinationOwner | mindshare-staking-pool/programs/mindshare-staking-pool/src/lib.rs:405-425 | the claim's outcome does not depend on who owns the destination token account |
| PropertiesV2.ScenarioStake | mindshare-staking-pool/programs/mindshare-staking-pool/src/lib.rs:78-134 | in a pool of capacity 1000, a first stake of 1000 succeeds and fills it |
| PropertiesV2.ScenarioUnstake | mindshare-staking-pool/programs/mindshare-staking-pool/src/lib.rs:190-258 | unstaking those 1000 half-way through a one-day lock at 5 % returns 950 and burns 50 |
| PropertiesV2.Scenario | mindshare-staking-pool/programs/mindshare-staking-pool/src/lib.rs:78-258 | stake 1000, a stake of 1 fails with `PoolCapacityExceeded`, unstake 1000 early, and a stake of 1 still fails because `current_staked` stays at 1000 |
| RewardsV1.CalculateRewards | programs/mindshare-staking-pool/src/lib.rs:204-224 | no time gives no reward; a panic exactly when a step overflows `u64`; otherwise the reward is the base reward plus its multiplier share, i.e. between base and base·(10000+multiplier)/10000 by floor division |
| RewardsV1.DefaultMultiplierDoubles | programs/mindshare-staking-pool/src/lib.rs:216-223 | with the default multiplier of 10000, the reward is twice the base reward |
| RewardsV1.NegativeTimePanics | programs/mindshare-staking-pool/src/lib.rs:210-214 | a negative elapsed time with a stake of at least 2 overflows after the wrapping cast |
| RewardsV1.RewardsMonotoneInTime | programs/mindshare-staking-pool/src/lib.rs:204-224 | for non-negative times, a longer elapsed time never gives a smaller reward and never removes a panic |
| RewardsV1.CalculateSlashingPenalty | programs/mindshare-staking-pool/src/lib.rs:226-240 | zero once the lock is over; otherwise a panic exactly when amount·rate overflows `u64`, else the floor of amount·rate/10000; at most the amount when the rate is at most 100 % |
| RewardsV1.PenaltyCanExceedAmount | programs/mindshare-staking-pool/src/lib.rs:235-239 | while the lock is still running, a slashing rate above 100 % makes the penalty on an amount of at least 10000 larger than the amount |
| StakingV1.SpacesAgainstLayouts | programs/mindshare-staking-pool/src/lib.rs:287-352 | the program state and pool spaces match their structs; the position space is 8 bytes short of what `UserStake` needs |
| StakingV1.InitializeProgramOutcome | programs/mindshare-staking-pool/src/lib.rs:10-22 | succeeds exactly at the program-state address, with the argument as admin, no pools and not paused |
| StakingV1.InitializeProgram | programs/mindshare-staking-pool/src/lib.rs:282-297 | writes the program state as `InitializeProgramOutcome` says, or changes nothing |
| StakingV1.CreatePoolOutcome | programs/mindshare-staking-pool/src/lib.rs:24-56 | Anchor failure exactly when the pool or a vault is off its derived address or a vault address is used; then `ProgramPaused`, and a panic exactly when the pool counter is full; otherwise the counter rises, the pool holds the arguments and both vaults, and two empty vaults owned by the pool appear |
| StakingV1.CreatePool | programs/mindshare-staking-pool/src/lib.rs:299-341 | writes the program state, the pool and the ledger as `CreatePoolOutcome` says, or changes nothing |
| StakingV1.StakePosition | programs/mindshare-staking-pool/src/lib.rs:83-101 | a first stake opens a position locked until `now + lock_duration`; a top-up adds the amount and only moves the lock later; `None` (a panic) exactly on overflow |
| StakingV1.UpdatePosition | programs/mindshare-staking-pool/src/lib.rs:83-101 | writes the position as `StakePosition` says, or changes nothing |
| StakingV1.StakeOutcome | programs/mindshare-staking-pool/src/lib.rs:58-107 | Anchor failure exactly on a wrong position address, a too-small position account or a missing token account; then `PoolInactive`, `InvalidLockPeriod`, a panic when `current_staked + amount` overflows, else `PoolCapacityExceeded` above capacity, then `InvalidAmount`, each under its condition; on success `current_staked` grows by the amount and the amount moves from the user to the vault, no other token account changing |
| StakingV1.Stake | programs/mindshare-staking-pool/src/lib.rs:343-370 | writes the pool, the position and the ledger as `StakeOutcome` of the corrected build says, or changes nothing |
| StakingV1.ClaimOutcome | programs/mindshare-staking-pool/src/lib.rs:109-150 | Anchor failure exactly on missing token accounts; a panic exactly on an overflowing elapsed time or reward; success exactly when the token accounts exist, nothing panics and a positive reward's transfer succeeds; a claim at `last_claimed` or with zero reward changes nothing; a positive reward is paid from the vault, clears `pending_rewards` and sets `last_claimed`; no other token account changes |
| StakingV1.ClaimRewards | programs/mindshare-staking-pool/src/lib.rs:372-390 | writes the position and the ledger as `ClaimOutcome` of the corrected build says, or changes nothing |
| StakingV1.EarlyExitPenalty | programs/mindshare-staking-pool/src/lib.rs:160-169 | no penalty once the lock is over; otherwise a panic exactly when the time remaining or the product overflows, else the floor of amount·rate/10000 |
| StakingV1.UnstakeOutcome | programs/mindshare-staking-pool/src/lib.rs:152-202 | Anchor failure exactly on missing token accounts; then `InsufficientStake`, `StakeSlashed`, and a panic exactly when the penalty overflows or exceeds the amount; on success `stake_amount` falls by the amount, the user gains the amount less the penalty, the penalty stays in the vault and no other token account changes |
| StakingV1.Unstake | programs/mindshare-staking-pool/src/lib.rs:392-411 | writes only `stake_amount` and the ledger, as `UnstakeOutcome` of the corrected build says |
| PropertiesV1.StakeNeverSucceedsAsWritten | programs/mindshare-staking-pool/src/lib.rs:352 | as written, every `stake` fails with an Anchor error |
| PropertiesV1.StakeAccountsValidCorrected | programs/mindshare-staking-pool/src/lib.rs:348-356 | with the full space, a position at its address with both token accounts passes Anchor's checks |
| PropertiesV1.PositionAddressAsWritten | programs/mindshare-staking-pool/src/lib.rs:344-353 | as written, the position address ignores the pool and depends on the amount |
| PropertiesV1.PositionAddressCorrected | programs/mindshare-staking-pool/src/lib.rs:353 | corrected, two positions share an address exactly when user and pool are equal |
| PropertiesV1.UnstakeNeverSucceedsAsWritten | programs/mindshare-staking-pool/src/lib.rs:174-186 | as written, `unstake` always fails, because the vault's authority never signs |
| PropertiesV1.ClaimPaysNothingAsWritten | programs/mindshare-staking-pool/src/lib.rs:122-140 | as written, a successful claim pays nothing and changes nothing |
| PropertiesV1.ClaimPaysCorrected | programs/mindshare-staking-pool/src/lib.rs:122-146 | corrected, a positive reward that the vault covers is paid, clearing `pending_rewards` and setting `last_claimed` |
| PropertiesV1.StakeThenUnstakeAfterLock | programs/mindshare-staking-pool/src/lib.rs:58-202 | corrected, staking an amount and unstaking it once the lock has run out succeeds and gives the user's account and the vault back exactly their earlier balances |
| PropertiesV1.ExcessiveRatePanics | programs/mindshare-staking-pool/src/lib.rs:160-172 | a rate above 100 % makes an early unstake of at least 10000 panic |
| PropertiesV1.UnstakeIgnoresPositionOwner | programs/mindshare-staking-pool/src/lib.rs:392-411 | the outcome of `unstake` does not depend on whose position it is |
| PropertiesV1.ScenarioStake | programs/mindshare-staking-pool/src/lib.rs:58-107 | corrected, a first stake of 1000 into a pool of capacity 1000 succeeds |
| PropertiesV1.ScenarioUnstake | programs/mindshare-staking-pool/src/lib.rs:152-202 | corrected, unstaking those 1000 half-way through the lock at 5 % returns 950 and leaves 50 in the vault |
| PropertiesV1.Scenario | programs/mindshare-staking-pool/src/lib.rs:58-202 | corrected, stake 1000, a further stake of 1 exceeds capacity, unstake early, and the capacity stays used |

## Left out

- The SPL token program's internals are not modelled: frozen accounts, delegates, decimals (`transfer_checked`'s decimals argument), the mint's supply (which a burn also lowers; the ledger holds no mint accounts) and the order in which it reports its own errors. A token failure is one `TokenError`.
- Bumps are not modelled. A derived address is a function of its seeds alone, and the `bump` fields count only in the account sizes.
- SHA-256 and the off-curve search behind program-derived addresses are not modelled. Derived addresses are distinct constructors.
- Lamports, rent and the payer's balance are not modelled. `close = user` in `close_stake` is modelled as the account's data returning to zero, without the lamport refund.
- `init` of the program state and of a pool is modelled by its address check only. A second `initialize` or `create_pool` at a used address (`AccountInUse`) is not modelled; vault accounts do model it. As a consequence, in the model a repeated `create_pool` at a used pool address would overwrite the pool and reset `current_staked` to 0, so the invariant that a pool's positions hold no more than `current_staked` is proved for `stake`, `unstake`, `claim_rewards` and `close_stake` but not for `create_pool`.
- The Anchor account discriminator and owner checks (the wrong account type at the right address) are not modelled. Every account passed holds the struct its context names.
- `Clock::get()` is the parameter `now`. The `msg!` log lines are left out.
- The earlier `Stake` context's `token_mint` account is unused by that program and left out.
- StakingV1.Stake, StakingV1.ClaimRewards, StakingV1.Unstake: the methods run the corrected build only; the as-written build is stated by the `…Outcome` functions and the `PropertiesV1` lemmas.
- RewardsV1.CalculateRewards: the final `base_reward + performance_bonus` uses a plain `+`; the model treats its overflow as a panic, which holds only when the program is built with `overflow-checks = true` (Anchor's default release profile). The build profile is not part of this model; without overflow checks the sum would instead wrap modulo 2^64.
- RewardsV2.CalculateSlashingPenalty: for a rate above 100 % the contract states only that no error is raised, not the saturated value; `create_pool` refuses such rates in the current version.
- StakingV2.ClaimOutcome: the reward itself is named through `PositionReward` and its `RewardsV2.CalculateRewards` contract rather than restated.
- The TypeScript clients, scripts, tests and front ends, and the IDL file, are outside the programs and not modelled.

## Findings

| source | as written | input that shows it | evidently intended | confidence | as-written member | corrected member |
|---|---|---|---|---|---|---|
| programs/mindshare-staking-pool/src/lib.rs:352 | `user_stake` is allocated `8 + 32 + 8 + 8 + 8 + 8 + 8 + 8 + 1 + 1` = 90 bytes, but `UserStake` needs 98 (nine fields, the discriminator and the bump) | any `stake`: the new position cannot be serialized into 90 bytes | the space of the struct, 98 bytes | not executed | PropertiesV1.StakeNeverSucceedsAsWritten | PropertiesV1.StakeAccountsValidCorrected |
| programs/mindshare-staking-pool/src/lib.rs:344-353 | `#[instruction(pool_id: u64)]` binds the first instruction argument, which is `amount`, so the position's seeds hold the amount | two stakes of 5 by one user into pools 1 and 2 derive the same position; a stake of 5 and one of 6 into pool 1 derive different ones | seeds of user and pool id, one position per user and pool | not executed | PropertiesV1.PositionAddressAsWritten | PropertiesV1.PositionAddressCorrected |
| programs/mindshare-staking-pool/src/lib.rs:174-186 | `unstake` signs with the seeds `pool_vault` and the pool id, while the pool vault's authority is the pool account at seeds `pool` and the pool id | any `unstake`: the pool never signs, so the transfer out of the vault is refused | sign with the pool's own seeds | not executed | PropertiesV1.UnstakeNeverSucceedsAsWritten | PropertiesV1.StakeThenUnstakeAfterLock |
| programs/mindshare-staking-pool/src/lib.rs:122-140 | `claim_rewards` signs with the seeds `reward_vault` and the pool id, while the reward vault's authority is the pool account | any claim with a positive reward: the transfer is refused, so only claims that pay nothing succeed | sign with the pool's own seeds | not executed | PropertiesV1.ClaimPaysNothingAsWritten | PropertiesV1.ClaimPaysCorrected |
