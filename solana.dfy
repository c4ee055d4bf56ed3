/** The runtime facts both staking programs rely on: the Rust integer widths,
    program-derived addresses, and an abstract token ledger standing for the
    SPL Token program that the instruction handlers call into. */
module Solana {

  const U16_MAX: int := 0xFFFF
  const U64_MAX: int := 0xFFFF_FFFF_FFFF_FFFF
  const U128_MAX: int := 0xFFFF_FFFF_FFFF_FFFF_FFFF_FFFF_FFFF_FFFF
  const I64_MIN: int := -0x8000_0000_0000_0000
  const I64_MAX: int := 0x7FFF_FFFF_FFFF_FFFF

  type u16 = x: int | 0 <= x <= 0xFFFF
  type u64 = x: int | 0 <= x <= 0xFFFF_FFFF_FFFF_FFFF
  type i64 = x: int | -0x8000_0000_0000_0000 <= x <= 0x7FFF_FFFF_FFFF_FFFF

  datatype Option<+T> = None | Some(value: T)

  datatype Result<+T, +E> = Ok(value: T) | Err(error: E)

  predicate InU64(x: int) { 0 <= x <= U64_MAX }

  predicate InI64(x: int) { I64_MIN <= x <= I64_MAX }

  /** `i64::checked_add` and `i64::checked_sub`: None on overflow. */
  function CheckedAddI64(a: i64, b: i64): Option<i64>
  {
    if InI64(a + b) then Some(a + b) else None
  }

  function CheckedSubI64(a: i64, b: i64): Option<i64>
  {
    if InI64(a - b) then Some(a - b) else None
  }

  /** The seed tuples the two programs derive addresses from. Each constructor
      stands for one byte layout: a distinct tag, then little-endian ids or
      32-byte keys. No two layouts in use produce the same concatenated bytes
      (their tags or lengths differ), so distinct constructors are distinct
      seed strings. */
  datatype Seeds =
    | ProgramStateSeeds                               // [b"program_state"]
    | PoolSeeds(poolId: u64)                          // [b"pool", pool_id_le]
    | PoolVaultSeeds(pool: Pubkey)                    // [b"pool_vault", pool]
    | RewardVaultSeeds(pool: Pubkey)                  // [b"reward_vault", pool]
    | UserStakeSeeds(pool: Pubkey, user: Pubkey)      // [b"user_stake", pool, user]
    | PoolVaultByIdSeeds(poolId: u64)                 // [b"pool_vault", pool_id_le]
    | RewardVaultByIdSeeds(poolId: u64)               // [b"reward_vault", pool_id_le]
    | UserStakeByIdSeeds(user: Pubkey, poolId: u64)   // [b"user_stake", user, pool_id_le]

  /** A 32-byte public key. `Default` is the all-zero key; `Wallet` is any key
      with a private key behind it (users, admins, mints); `Derived` is a
      program-derived address, which is off the curve and so never signs a
      transaction. */
  datatype Pubkey = Default | Wallet(id: nat) | Derived(seeds: Seeds)

  /** `Pubkey::find_program_address`: SHA-256 and the off-curve bump search are
      abstracted to an injective map from seed tuples onto off-curve keys. */
  function FindProgramAddress(seeds: Seeds): (k: Pubkey)
    ensures k != Default && !k.Wallet?
  {
    Derived(seeds)
  }

  /** Same seeds, same address; different seeds, different address. */
  lemma AddressInjective(s1: Seeds, s2: Seeds)
    ensures FindProgramAddress(s1) == FindProgramAddress(s2) <==> s1 == s2
  {
  }

  /** Errors the Anchor account validation raises before a handler runs. */
  datatype AnchorError =
    | ConstraintSeeds          // account is not at the address its seeds give
    | ConstraintHasOne         // `has_one` field differs from the account passed
    | ConstraintTokenMint      // `token::mint` differs
    | ConstraintTokenOwner     // `token::authority` differs
    | AccountNotInitialized    // a token account that does not exist
    | AccountInUse             // `init` of an account that already exists
    | AccountDidNotDeserialize // the account data is too small for the struct

  /** Errors of the token program, as the CPI reports them. */
  datatype TokenError =
    | InvalidAccount
    | InsufficientFunds
    | MintMismatch
    | OwnerMismatch
    | MissingRequiredSignature
    | Overflow

  datatype TokenAccount = TokenAccount(mint: Pubkey, owner: Pubkey, amount: u64)

  /** Every token account of the ledger, by address. */
  type Ledger = map<Pubkey, TokenAccount>

  function BalanceOf(l: Ledger, k: Pubkey): nat
  {
    if k in l then l[k].amount else 0
  }

  /** `l'` holds the same accounts as `l`, and every account other than `a`
      and `b` is exactly as it was. */
  ghost predicate OnlyTouches(l: Ledger, l': Ledger, a: Pubkey, b: Pubkey)
  {
    l'.Keys == l.Keys && forall k :: k in l && k != a && k != b ==> l'[k] == l[k]
  }

  /** `token::transfer` (mint = None) and `token_interface::transfer_checked`
      (mint = Some(m)): `authority` must own `from` and be among the
      `signers` of the call (the transaction signers plus the addresses the
      program signs for with `invoke_signed`). */
  function Transfer(l: Ledger, from: Pubkey, to: Pubkey, mint: Option<Pubkey>,
                    authority: Pubkey, signers: set<Pubkey>, amount: u64): (r: Result<Ledger, TokenError>)
    ensures r.Ok? ==> from in l && to in l && l[from].owner == authority && authority in signers
    ensures r.Ok? ==> amount <= l[from].amount && l[from].mint == l[to].mint
    ensures r.Ok? ==> r.value.Keys == l.Keys
    ensures r.Ok? ==> BalanceOf(r.value, from) + BalanceOf(r.value, to)
                      == BalanceOf(l, from) + BalanceOf(l, to)
    ensures r.Ok? && from != to ==> BalanceOf(r.value, to) == BalanceOf(l, to) + amount
    ensures r.Ok? ==> forall k :: k in l && k != from && k != to ==> r.value[k] == l[k]
  {
    if from !in l || to !in l then Err(InvalidAccount)
    else if l[from].amount < amount then Err(InsufficientFunds)
    else if l[from].mint != l[to].mint then Err(MintMismatch)
    else if mint.Some? && mint.value != l[from].mint then Err(MintMismatch)
    else if l[from].owner != authority then Err(OwnerMismatch)
    else if authority !in signers then Err(MissingRequiredSignature)
    else if from == to then Ok(l)
    else if l[to].amount + amount > U64_MAX then Err(Overflow)
    else
      Ok(l[from := l[from].(amount := l[from].amount - amount)]
          [to := l[to].(amount := l[to].amount + amount)])
  }

  /** `token_interface::burn`: the tokens leave `from` and go nowhere. */
  function Burn(l: Ledger, from: Pubkey, mint: Pubkey, authority: Pubkey,
                signers: set<Pubkey>, amount: u64): (r: Result<Ledger, TokenError>)
    ensures r.Ok? ==> from in l && l[from].mint == mint && l[from].owner == authority && authority in signers
    ensures r.Ok? ==> r.value.Keys == l.Keys
    ensures r.Ok? ==> BalanceOf(r.value, from) + amount == BalanceOf(l, from)
    ensures r.Ok? ==> forall k :: k in l && k != from ==> r.value[k] == l[k]
  {
    if from !in l then Err(InvalidAccount)
    else if l[from].amount < amount then Err(InsufficientFunds)
    else if l[from].mint != mint then Err(MintMismatch)
    else if l[from].owner != authority then Err(OwnerMismatch)
    else if authority !in signers then Err(MissingRequiredSignature)
    else Ok(l[from := l[from].(amount := l[from].amount - amount)])
  }

  /** Anchor `init` with `token::mint` and `token::authority`: a new empty
      token account, refused when the address is already in use. */
  function InitTokenAccount(l: Ledger, key: Pubkey, mint: Pubkey, owner: Pubkey): (r: Result<Ledger, AnchorError>)
    ensures r.Ok? <==> key !in l
    ensures r.Ok? ==> r.value == l[key := TokenAccount(mint, owner, 0)]
  {
    if key in l then Err(AccountInUse) else Ok(l[key := TokenAccount(mint, owner, 0)])
  }

  /** A transfer is undone by the transfer of the same amount back, signed by
      the owner of the destination. */
  lemma TransferRoundTrip(l: Ledger, from: Pubkey, to: Pubkey, authority: Pubkey,
                          signers: set<Pubkey>, amount: u64)
    requires Transfer(l, from, to, None, authority, signers, amount).Ok?
    requires to in l && l[to].owner in signers
    ensures Transfer(Transfer(l, from, to, None, authority, signers, amount).value,
                     to, from, None, l[to].owner, signers, amount) == Ok(l)
  {
    var l1 := Transfer(l, from, to, None, authority, signers, amount).value;
    if from != to {
      assert l1[to].amount == l[to].amount + amount;
      assert l1[from].amount == l[from].amount - amount;
      var l2 := l1[to := l1[to].(amount := l1[to].amount - amount)]
                  [from := l1[from].(amount := l1[from].amount + amount)];
      assert l2 == l;
    }
  }
}
