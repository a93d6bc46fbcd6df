/** The fee-taking operations of operations/vault_fee_operations.rs. */
module FeeOperations {
  import opened VaultErrors
  import opened VaultState
  import opened FeeBpsModel
  import opened VaultOperations

  /** `vault_deposit_assets_with_fee`: split the deposit into fee and net amount,
      convert only the net amount to shares, mint them and bank only the net
      amount. The fee is reported in the effect; it is not added to the vault. */
  function DepositWithFee(v: Vault, tknAmt: u64): (r: OpResult)
    ensures v.feeBps > MAX_FEE_BPS ==> r == Err(GuardFail)
    ensures v.feeBps <= MAX_FEE_BPS && ConvertAssetsToShares(v, Apply(v.feeBps, tknAmt).value.netAmount) == Ok(0) ==>
      r == Err(GuardFail)
    ensures r.Ok? <==>
      && v.feeBps <= MAX_FEE_BPS
      && var net := Apply(v.feeBps, tknAmt).value.netAmount;
         && ConvertAssetsToShares(v, net).Ok?
         && 0 < ConvertAssetsToShares(v, net).value
         && v.shares + ConvertAssetsToShares(v, net).value <= U64_MAX
         && 0 < net
         && v.assets + net <= U64_MAX
    ensures r.Ok? ==>
      var gross := Apply(v.feeBps, tknAmt).value;
      && ConvertAssetsToShares(v, gross.netAmount).Ok?
      && r.value.1 == VaultEffect(0, ConvertAssetsToShares(v, gross.netAmount).value, gross.netAmount, 0, gross.fee)
      && r.value.0.shares == v.shares + r.value.1.sharesToUser
      && r.value.0.assets == v.assets + gross.netAmount
      && SameConfig(v, r.value.0)
    ensures r.Ok? ==> r.value.1.assetsToVault + r.value.1.assetsToFee == tknAmt
    ensures r.Ok? ==> 0 < r.value.1.sharesToUser && 0 < r.value.1.assetsToVault
  {
    var feeBps :- FeeInBps(v);
    // `apply` cannot fail (FeeBpsModel.Apply), so its `?` is dropped
    var gross := Apply(feeBps, tknAmt).value;
    var sharesToUser :- ConvertAssetsToShares(v, gross.netAmount);
    var minted :- MintShares(v, sharesToUser);
    var added :- AddToken(minted, gross.netAmount);
    Ok((added, VaultEffect(0, sharesToUser, gross.netAmount, 0, gross.fee)))
  }

  /** `vault_collect_fee`: pay out the accrued fee and clear it. It never fails
      and touches nothing but the fee accrual. */
  function CollectFee(v: Vault): (r: OpResult)
    ensures r.Ok?
    ensures r.value.1 == VaultEffect(0, 0, 0, v.feeAmount, 0)
    ensures r.value.0.feeAmount == 0
    ensures r.value.0 == v.(feeAmount := r.value.0.feeAmount)
  {
    var feeAmount := v.feeAmount;
    var cleared := v.(feeAmount := 0);
    Ok((cleared, VaultEffect(0, 0, 0, feeAmount, 0)))
  }

  /** Collecting twice pays nothing the second time and changes nothing more. */
  lemma CollectFeeIdempotent(v: Vault)
    ensures CollectFee(CollectFee(v).value.0).value.1.assetsToUser == 0
    ensures CollectFee(CollectFee(v).value.0).value.0 == CollectFee(v).value.0
  {
  }
}
