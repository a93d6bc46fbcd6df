/** The four vault operations of operations/vault_operations.rs (the newer
    revision). Each takes the vault and an amount and returns the updated vault
    with the effect record the caller turns into token transfers, or the first
    error met; on an error the transaction reverts, so no vault is returned. */
module VaultOperations {
  import opened VaultErrors
  import opened Arith
  import opened VaultState

  /** `VaultEffect`: how many shares and assets move, and where to. */
  datatype VaultEffect = VaultEffect(
    sharesToBurn: u64,
    sharesToUser: u64,
    assetsToVault: u64,
    assetsToUser: u64,
    assetsToFee: u64)

  /** `VaultEffect::default()`. */
  const NoEffect: VaultEffect := VaultEffect(0, 0, 0, 0, 0)

  /** `VaultResult<VaultEffect>` together with the vault the operation leaves behind. */
  type OpResult = Result<(Vault, VaultEffect)>

  /** Pairs a successful primitive's vault with an effect; passes an error through. */
  function WithEffect(r: Result<Vault>, e: VaultEffect): (out: OpResult)
    ensures out.Ok? <==> r.Ok?
    ensures r.Ok? ==> out.value == (r.value, e)
    ensures r.Err? ==> out.error == r.error
  {
    match r
    case Ok(w) => Ok((w, e))
    case Err(err) => Err(err)
  }

  /** `vault_deposit_assets`: convert the deposit to shares, mint them, then add
      the deposit to the assets. A deposit of nothing, or one worth no shares,
      fails; a success mints the converted shares and banks the whole deposit. */
  function Deposit(v: Vault, tknAmt: u64): (r: OpResult)
    ensures tknAmt == 0 ==> r.Err?
    ensures ConvertAssetsToShares(v, tknAmt) == Ok(0) ==> r == Err(GuardFail)
    ensures r.Ok? <==>
      && ConvertAssetsToShares(v, tknAmt).Ok?
      && 0 < ConvertAssetsToShares(v, tknAmt).value
      && v.shares + ConvertAssetsToShares(v, tknAmt).value <= U64_MAX
      && v.assets + tknAmt <= U64_MAX
    ensures r.Ok? ==>
      && r.value.1 == VaultEffect(0, ConvertAssetsToShares(v, tknAmt).value, tknAmt, 0, 0)
      && r.value.0.shares == v.shares + r.value.1.sharesToUser
      && r.value.0.assets == v.assets + tknAmt
      && SameConfig(v, r.value.0)
  {
    var sharesToUser :- ConvertAssetsToShares(v, tknAmt);
    var minted :- MintShares(v, sharesToUser);
    var added :- AddToken(minted, tknAmt);
    Ok((added, VaultEffect(0, sharesToUser, tknAmt, 0, 0)))
  }

  /** `vault_redeem_shares`: convert the shares to assets, burn the shares, then
      take the assets out under the solvency re-check of `del_token`. A success
      pays out the converted amount and leaves a solvent vault. */
  function Redeem(v: Vault, sharesAmt: u64): (r: OpResult)
    ensures sharesAmt > v.shares ==> r.Err? && r.error == MathOverflow
    ensures r.Ok? <==>
      && ConvertSharesToAssets(v, sharesAmt).Ok?
      && sharesAmt <= v.shares
      && ConvertSharesToAssets(v, sharesAmt).value <= v.assets
      && v.shares - sharesAmt + ConvertSharesToAssets(v, sharesAmt).value <= v.assets
    ensures r.Ok? ==>
      && r.value.1 == VaultEffect(sharesAmt, 0, 0, ConvertSharesToAssets(v, sharesAmt).value, 0)
      && r.value.0.shares + sharesAmt == v.shares
      && r.value.0.assets + r.value.1.assetsToUser == v.assets
      && IsSolvent(r.value.0)
      && SameConfig(v, r.value.0)
  {
    var assetsToUser :- ConvertSharesToAssets(v, sharesAmt);
    var burnt :- BurnShares(v, sharesAmt);
    var lowered :- DelToken(burnt, assetsToUser);
    Ok((lowered, VaultEffect(sharesAmt, 0, 0, assetsToUser, 0)))
  }

  /** `vault_update_reward`: set the asset total to `newAmt`. A lower total is
      `MathOverflow`, the same total is a successful no-op (newer revision), a
      higher one raises only the assets; the effect is always empty. */
  function UpdateReward(v: Vault, newAmt: u64): (r: OpResult)
    ensures newAmt < v.assets ==> r == Err(MathOverflow)
    ensures newAmt == v.assets ==> r == Ok((v, NoEffect))
    ensures newAmt > v.assets ==> r == Ok((v.(assets := newAmt), NoEffect))
  {
    var reward :- CheckedSub(newAmt, v.assets);
    if reward > 0 then WithEffect(AddToken(v, reward), NoEffect) else Ok((v, NoEffect))
  }

  /** `vault_process_slash`: remove `slashAmt` assets with no matching share
      burn; it fails when that would leave the vault insolvent. */
  function Slash(v: Vault, slashAmt: u64): (r: OpResult)
    ensures slashAmt > v.assets ==> r == Err(MathOverflow)
    ensures slashAmt <= v.assets && v.shares + slashAmt > v.assets ==> r == Err(GuardFail)
    ensures r.Ok? <==> v.shares + slashAmt <= v.assets
    ensures r.Ok? ==>
      && r.value.1 == VaultEffect(0, 0, 0, slashAmt, 0)
      && r.value.0.shares == v.shares
      && r.value.0.assets + slashAmt == v.assets
      && IsSolvent(r.value.0)
      && SameConfig(v, r.value.0)
  {
    WithEffect(DelToken(v, slashAmt), VaultEffect(0, 0, 0, slashAmt, 0))
  }

  /** The vault of the unit tests: 100 shares, 100 assets, a 5% fee. */
  function TestVault(): (v: Vault)
    ensures v.shares == 100 && v.assets == 100 && v.feeBps == 500
  {
    NewVault().(shares := 100, assets := 100, feeBps := 500)
  }

  /** The unit-test vectors: deposit 50, redeem 40, a failing slash of 20 and a
      reward up to 150, each on the 100/100 test vault. */
  lemma UnitTestVectors()
    ensures Deposit(TestVault(), 50) == Ok((TestVault().(shares := 150, assets := 150), VaultEffect(0, 50, 50, 0, 0)))
    ensures Redeem(TestVault(), 40) == Ok((TestVault().(shares := 60, assets := 60), VaultEffect(40, 0, 0, 40, 0)))
    ensures Slash(TestVault(), 20).Err?
    ensures UpdateReward(TestVault(), 150) == Ok((TestVault().(assets := 150), NoEffect))
  {
  }
}
