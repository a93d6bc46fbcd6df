/** The "exact" deposits of operations/vault_exact_deposit_operations.rs. They
    close the rounding loop: shares are computed from the offered amount, then the
    debit is recomputed by converting those shares back to assets, so the debit is
    exactly what the minted shares are worth. Both conversions use the pre-state. */
module ExactDepositOperations {
  import opened VaultErrors
  import opened VaultState
  import opened FeeBpsModel
  import opened VaultOperations
  import FeeOperations

  /** `vault_deposit_assets_exact`: mint the shares the amount buys and bank only
      what those shares are worth, which never exceeds the amount offered. */
  function DepositExact(v: Vault, tknAmt: u64): (r: OpResult)
    ensures ConvertAssetsToShares(v, tknAmt) == Ok(0) && ConvertSharesToAssets(v, 0).Ok? ==> r == Err(GuardFail)
    ensures ConvertAssetsToShares(v, tknAmt).Ok? ==>
      var shares := ConvertAssetsToShares(v, tknAmt).value;
      0 < shares && v.shares + shares <= U64_MAX && ConvertSharesToAssets(v, shares) == Ok(0) ==>
        r == Err(GuardFail)
    ensures r.Ok? <==>
      && ConvertAssetsToShares(v, tknAmt).Ok?
      && var shares := ConvertAssetsToShares(v, tknAmt).value;
         && ConvertSharesToAssets(v, shares).Ok?
         && 0 < shares
         && v.shares + shares <= U64_MAX
         && 0 < ConvertSharesToAssets(v, shares).value
         && v.assets + ConvertSharesToAssets(v, shares).value <= U64_MAX
    ensures r.Ok? ==> ConvertAssetsToShares(v, tknAmt).Ok?
    ensures r.Ok? ==>
      var shares := ConvertAssetsToShares(v, tknAmt).value;
      && ConvertSharesToAssets(v, shares).Ok?
      && r.value.1 == VaultEffect(0, shares, ConvertSharesToAssets(v, shares).value, 0, 0)
    ensures r.Ok? ==>
      && 0 < r.value.1.sharesToUser && 0 < r.value.1.assetsToVault <= tknAmt
      && r.value.0.shares == v.shares + r.value.1.sharesToUser
      && r.value.0.assets == v.assets + r.value.1.assetsToVault
      && SameConfig(v, r.value.0)
  {
    var sharesToUser :- ConvertAssetsToShares(v, tknAmt);
    var assetsToVault :- ConvertSharesToAssets(v, sharesToUser);
    ConversionRoundTrip(v, tknAmt);
    var minted :- MintShares(v, sharesToUser);
    var added :- AddToken(minted, assetsToVault);
    Ok((added, VaultEffect(0, sharesToUser, assetsToVault, 0, 0)))
  }

  /** `vault_deposit_assets_with_fee_exact`: shares from the net of the maximum
      fee, the debit from those shares, and the fee recomputed on that actual
      debit. The vault itself is left untouched; only the effect is returned. */
  function DepositWithFeeExact(v: Vault, tknAmt: u64): (r: OpResult)
    ensures v.feeBps > MAX_FEE_BPS ==> r == Err(GuardFail)
    ensures r.Ok? <==>
      && v.feeBps <= MAX_FEE_BPS
      && ConvertAssetsToShares(v, Apply(v.feeBps, tknAmt).value.netAmount).Ok?
      && ConvertSharesToAssets(v, ConvertAssetsToShares(v, Apply(v.feeBps, tknAmt).value.netAmount).value).Ok?
    ensures r.Ok? ==> r.value.0 == v && v.feeBps <= MAX_FEE_BPS
    ensures r.Ok? ==> ConvertAssetsToShares(v, Apply(v.feeBps, tknAmt).value.netAmount).Ok?
    ensures r.Ok? ==>
      var maxGross := Apply(v.feeBps, tknAmt).value;
      var shares := ConvertAssetsToShares(v, maxGross.netAmount).value;
      && ConvertSharesToAssets(v, shares).Ok?
      && r.value.1.sharesToUser == shares
      && r.value.1.assetsToVault == ConvertSharesToAssets(v, shares).value
      && r.value.1.assetsToVault <= maxGross.netAmount
      && r.value.1.assetsToFee == Apply(v.feeBps, r.value.1.assetsToVault).value.fee
      && r.value.1.assetsToFee <= maxGross.fee
    ensures r.Ok? ==> r.value.1.sharesToBurn == 0 && r.value.1.assetsToUser == 0
  {
    var feeBps :- FeeInBps(v);
    // maximum possible fee; `apply` cannot fail, so its `?` is dropped
    var gross := Apply(feeBps, tknAmt).value;
    var sharesToUser :- ConvertAssetsToShares(v, gross.netAmount);
    var assetsToVault :- ConvertSharesToAssets(v, sharesToUser);
    ConversionRoundTrip(v, gross.netAmount);
    ApplyMonotone(feeBps, assetsToVault, tknAmt);
    // fee on the actual debit
    var actualGross := Apply(feeBps, assetsToVault).value;
    Ok((v, VaultEffect(0, sharesToUser, assetsToVault, 0, actualGross.fee)))
  }

  /** An exact deposit can fail even though shares would be minted: from 3 shares
      over 2 assets, one token buys one share, which is worth nothing, so the
      debit of 0 reaches `add_token` and is rejected. */
  lemma DepositExactZeroDebit()
    ensures var v := NewVault().(shares := 3, assets := 2);
      && ConvertAssetsToShares(v, 1) == Ok(1)
      && ConvertSharesToAssets(v, 1) == Ok(0)
      && DepositExact(v, 1) == Err(GuardFail)
  {
    var v := NewVault().(shares := 3, assets := 2);
    assert ConvertAssetsToShares(v, 1) == Ok(1);
  }

  /** Against the plain deposits: the exact variants mint the same shares for the
      same (net) amount and never bank more; on a vault priced 1:1 nothing is
      rounded, so the exact deposit banks the whole amount. */
  lemma ExactDepositsAgainstPlain(v: Vault, tknAmt: u64)
    ensures DepositExact(v, tknAmt).Ok? && Deposit(v, tknAmt).Ok? ==>
      && DepositExact(v, tknAmt).value.1.sharesToUser == Deposit(v, tknAmt).value.1.sharesToUser
      && DepositExact(v, tknAmt).value.1.assetsToVault <= Deposit(v, tknAmt).value.1.assetsToVault
    ensures DepositExact(v, tknAmt).Ok? && v.shares == v.assets ==>
      DepositExact(v, tknAmt).value.1.assetsToVault == tknAmt
    ensures DepositWithFeeExact(v, tknAmt).Ok? && FeeOperations.DepositWithFee(v, tknAmt).Ok? ==>
      && DepositWithFeeExact(v, tknAmt).value.1.sharesToUser == FeeOperations.DepositWithFee(v, tknAmt).value.1.sharesToUser
      && DepositWithFeeExact(v, tknAmt).value.1.assetsToVault <= FeeOperations.DepositWithFee(v, tknAmt).value.1.assetsToVault
      && DepositWithFeeExact(v, tknAmt).value.1.assetsToFee <= FeeOperations.DepositWithFee(v, tknAmt).value.1.assetsToFee
  {
  }
}
