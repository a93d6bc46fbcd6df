/** The vault record of state.rs and its checked primitives: the solvency check,
    the two floor-rounding conversions, and the share/asset counters' mint, burn,
    add and delete operations. Every primitive returns the updated record. */
module VaultState {
  import opened VaultErrors
  import opened Arith
  import opened Guards
  import opened MulDiv
  import opened FeeBpsModel

  /** An account address (32 bytes in the program); the accounting never looks inside it. */
  datatype Pubkey = Pubkey(bytes: seq<bv8>)

  const ZeroWord: seq<bv8> := [0, 0, 0, 0, 0, 0, 0, 0]

  /** `Pubkey::default()`: 32 zero bytes. */
  const ZeroKey: Pubkey := Pubkey(ZeroWord + ZeroWord + ZeroWord + ZeroWord)

  /** The vault account: the fields of `struct Vault`, plus two that the unit-test
      vault sets although the struct does not declare them. `fee_amount` (the
      accrued, uncollected fee) is read and cleared by `vault_collect_fee`; the
      assets-account bump is used by no operation. */
  datatype Vault = Vault(
    admin: Pubkey,
    sharesMint: Pubkey,
    assetsMint: Pubkey,
    shares: u64,
    assets: u64,
    vaultAssetsAccount: Pubkey,
    vaultAssetsAccountBump: u8,
    feeAmount: u64,
    feeBps: u64,
    feeTokenAccount: Pubkey)

  /** `Vault::new()`: the all-zero record. */
  function NewVault(): (v: Vault)
    ensures v.shares == 0 && v.assets == 0 && v.feeAmount == 0 && v.feeBps == 0
    ensures IsSolvent(v)
  {
    Vault(ZeroKey, ZeroKey, ZeroKey, 0, 0, ZeroKey, 0, 0, 0, ZeroKey)
  }

  /** Everything but the two counters is the same in `v` and `w`. */
  predicate SameConfig(v: Vault, w: Vault) {
    v.(shares := w.shares, assets := w.assets) == w
  }

  /** Solvency: the vault never owes more shares than it holds assets. */
  predicate IsSolvent(v: Vault) {
    v.shares <= v.assets
  }

  /** `check_invariant`: passes exactly on a solvent vault, else `GuardFail`. */
  function CheckInvariant(v: Vault): (r: Outcome)
    ensures r.Pass? <==> IsSolvent(v)
    ensures r.Fail? ==> r.error == GuardFail
  {
    RequireLe(v.shares, v.assets)
  }

  /** `fee_in_bps`: the stored rate as a `FeeBps`, failing when it is above 100%. */
  function FeeInBps(v: Vault): (r: Result<FeeBps>)
    ensures r.Ok? <==> v.feeBps <= MAX_FEE_BPS
    ensures r.Ok? ==> r.value == v.feeBps
    ensures r.Err? ==> r.error == GuardFail
  {
    FeeBpsTryFrom(v.feeBps)
  }

  /** `convert_shares_to_assets`: 1:1 when the counters are equal (which also
      covers the empty vault), otherwise `shares * assets / shares_total` rounded
      down. The result never over-pays the ratio, and on a solvent vault a share
      is worth at least one asset. */
  function ConvertSharesToAssets(v: Vault, shares: u64): (r: Result<u64>)
    ensures v.shares == v.assets ==> r == Ok(shares)
    ensures v.shares != v.assets ==>
      (r.Ok? <==> 0 < v.shares && shares * v.assets < (U64_MAX + 1) * v.shares)
    ensures r.Ok? ==> r.value * v.shares <= shares * v.assets
    ensures r.Ok? && v.shares != v.assets ==> shares * v.assets < r.value * v.shares + v.shares
    ensures r.Ok? && IsSolvent(v) ==> shares <= r.value
    ensures r.Err? ==> r.error == MathOverflow
  {
    if v.shares == v.assets then
      Ok(shares)
    else
      var r := MulDivFloor(shares, v.assets, v.shares);
      if r.Ok? && v.shares <= v.assets then FloorAtLeastFirst(shares, v.assets, v.shares); r else r
  }

  /** `convert_assets_to_shares`: 1:1 when the counters are equal, otherwise
      `tokens * shares / assets` rounded down. On a solvent vault it cannot fail
      and never mints more shares than assets deposited. */
  function ConvertAssetsToShares(v: Vault, tokens: u64): (r: Result<u64>)
    ensures v.shares == v.assets ==> r == Ok(tokens)
    ensures v.shares != v.assets ==>
      (r.Ok? <==> 0 < v.assets && tokens * v.shares < (U64_MAX + 1) * v.assets)
    ensures r.Ok? ==> r.value * v.assets <= tokens * v.shares
    ensures r.Ok? && v.shares != v.assets ==> tokens * v.shares < r.value * v.assets + v.assets
    ensures IsSolvent(v) ==> r.Ok? && r.value <= tokens
    ensures r.Err? ==> r.error == MathOverflow
  {
    if v.shares == v.assets then
      Ok(tokens)
    else
      if v.shares <= v.assets then FloorAtMostFirst(tokens, v.shares, v.assets); MulDivFloor(tokens, v.shares, v.assets)
      else MulDivFloor(tokens, v.shares, v.assets)
  }

  /** Converting assets to shares and back on the same vault never yields more
      than was put in: both roundings favour the vault. */
  lemma ConversionRoundTrip(v: Vault, tokens: u64)
    requires ConvertAssetsToShares(v, tokens).Ok?
    requires ConvertSharesToAssets(v, ConvertAssetsToShares(v, tokens).value).Ok?
    ensures ConvertSharesToAssets(v, ConvertAssetsToShares(v, tokens).value).value <= tokens
  {
    var s := ConvertAssetsToShares(v, tokens).value;
    var back := ConvertSharesToAssets(v, s).value;
    if v.shares != v.assets {
      assert s * v.assets <= tokens * v.shares;
      assert back * v.shares <= s * v.assets;
      MulLeCancel(back, tokens, v.shares);
    }
  }

  /** `burn_shares`: no zero guard; underflow is `MathOverflow`; otherwise only
      the share counter drops by `amt`. */
  function BurnShares(v: Vault, amt: u64): (r: Result<Vault>)
    ensures r.Ok? <==> amt <= v.shares
    ensures r.Ok? ==> r.value.shares + amt == v.shares && r.value == v.(shares := r.value.shares)
    ensures r.Err? ==> r.error == MathOverflow
  {
    var shares :- CheckedSub(v.shares, amt);
    Ok(v.(shares := shares))
  }

  /** `mint_shares`: a zero amount is `GuardFail`, overflow is `MathOverflow`,
      otherwise only the share counter grows by `amt`. */
  function MintShares(v: Vault, amt: u64): (r: Result<Vault>)
    ensures amt == 0 ==> r == Err(GuardFail)
    ensures 0 < amt && v.shares + amt > U64_MAX ==> r == Err(MathOverflow)
    ensures r.Ok? <==> 0 < amt && v.shares + amt <= U64_MAX
    ensures r.Ok? ==> r.value.shares == v.shares + amt && r.value == v.(shares := r.value.shares)
  {
    var nonZero := RequireGt(amt, 0);
    :- nonZero;
    var shares :- CheckedAdd(v.shares, amt);
    Ok(v.(shares := shares))
  }

  /** `add_token`: a zero amount is `GuardFail`, overflow is `MathOverflow`,
      otherwise only the asset counter grows by `amt`. */
  function AddToken(v: Vault, amt: u64): (r: Result<Vault>)
    ensures amt == 0 ==> r == Err(GuardFail)
    ensures 0 < amt && v.assets + amt > U64_MAX ==> r == Err(MathOverflow)
    ensures r.Ok? <==> 0 < amt && v.assets + amt <= U64_MAX
    ensures r.Ok? ==> r.value.assets == v.assets + amt && r.value == v.(assets := r.value.assets)
  {
    var nonZero := RequireGt(amt, 0);
    :- nonZero;
    var assets :- CheckedAdd(v.assets, amt);
    Ok(v.(assets := assets))
  }

  /** `del_token`: underflow is `MathOverflow`; the lowered vault must still be
      solvent, else `GuardFail`. Every success leaves a solvent vault. */
  function DelToken(v: Vault, amt: u64): (r: Result<Vault>)
    ensures amt > v.assets ==> r == Err(MathOverflow)
    ensures amt <= v.assets && v.shares > v.assets - amt ==> r == Err(GuardFail)
    ensures r.Ok? <==> amt <= v.assets && v.shares + amt <= v.assets
    ensures r.Ok? ==> r.value.assets + amt == v.assets && r.value == v.(assets := r.value.assets)
    ensures r.Ok? ==> IsSolvent(r.value)
  {
    var assets :- CheckedSub(v.assets, amt);
    var lowered := v.(assets := assets);
    :- CheckInvariant(lowered);
    Ok(lowered)
  }
}
