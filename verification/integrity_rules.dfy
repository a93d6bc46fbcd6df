/** The integrity rules of certora/specs/integrity/integrity.rs, stated on the
    vault counters before and after the operation a processor runs. The
    processors' other steps (account loading, token transfers) do not touch the
    counters, and a failure anywhere reverts the whole instruction, so a
    successful instruction leaves exactly the counters of the successful
    operation. The slash rule of that file is NoDilutionRules.SlashDilutes. */
module IntegrityRules {
  import opened VaultErrors
  import opened VaultState
  import opened VaultOperations

  /** `rule_deposit_must_increase_assets`, and in fact strictly: a deposit of
      nothing fails. */
  lemma DepositMustIncreaseAssets(v: Vault, amount: u64)
    requires Deposit(v, amount).Ok?
    ensures v.assets < Deposit(v, amount).value.0.assets
  {
  }

  /** `rule_deposit_must_increase_shares`, and in fact strictly: a deposit worth
      no shares fails. */
  lemma DepositMustIncreaseShares(v: Vault, amount: u64)
    requires Deposit(v, amount).Ok?
    ensures v.shares < Deposit(v, amount).value.0.shares
  {
  }

  /** `rule_deposit_assets_and_shares_monotonicity`: if the assets did not go
      down, neither did the shares. */
  lemma DepositMonotonicity(v: Vault, amount: u64)
    requires Deposit(v, amount).Ok?
    ensures var w := Deposit(v, amount).value.0;
      v.assets <= w.assets ==> v.shares <= w.shares
  {
  }

  /** `rule_redeem_assets_and_shares_monotonicity`: on a solvent vault, a redeem
      that does not lower the assets paid nothing, so it burned nothing. */
  lemma RedeemMonotonicity(v: Vault, amount: u64)
    requires IsSolvent(v) && Redeem(v, amount).Ok?
    ensures var w := Redeem(v, amount).value.0;
      v.assets <= w.assets ==> v.shares <= w.shares
  {
    var out := Redeem(v, amount).value.1.assetsToUser;
    assert amount <= ConvertSharesToAssets(v, amount).value == out;
  }

  /** The solvency assumption of that rule is needed: from 10 shares over 9
      assets, redeeming one share pays nothing, so the assets stay while the
      shares drop. */
  lemma RedeemMonotonicityNeedsSolvency()
    ensures var v := NewVault().(shares := 10, assets := 9);
      && Redeem(v, 1) == Ok((v.(shares := 9), VaultEffect(1, 0, 0, 0, 0)))
      && !IsSolvent(v)
  {
    var v := NewVault().(shares := 10, assets := 9);
    assert ConvertSharesToAssets(v, 1) == Ok(0);
  }
}
