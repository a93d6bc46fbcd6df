/** The fee rule of certora/specs/fees/fees.rs (registered twice, also in
    certora/specs/fees.rs): a deposit with fee never charges more than the
    deposit, and charges something whenever the fee rate is positive.

    The second half does not hold as written: the fee is rounded down, so any
    deposit with `amount * fee_bps < 10_000` pays no fee at all. The corrected
    property `FeeBounded` requires a nonzero fee only once the exact fee reaches
    one token, and it holds. */
module FeeRules {
  import opened VaultErrors
  import opened VaultState
  import opened FeeBpsModel
  import opened VaultOperations
  import opened FeeOperations
  import opened Harness

  /** The fee of a successful deposit with fee is zero exactly when the exact fee
      `amount * fee_bps / 10_000` is below one token, and it never exceeds the
      deposit. */
  lemma FeeZeroExactlyBelowOneToken(v: Vault, amount: u64)
    requires DepositWithFee(v, amount).Ok?
    ensures DepositWithFee(v, amount).value.1.assetsToFee <= amount
    ensures DepositWithFee(v, amount).value.1.assetsToFee == 0 <==> amount * v.feeBps < MAX_FEE_BPS
  {
    var fee := DepositWithFee(v, amount).value.1.assetsToFee;
    assert fee == Apply(v.feeBps, amount).value.fee;
    assert fee * MAX_FEE_BPS <= amount * v.feeBps < fee * MAX_FEE_BPS + MAX_FEE_BPS;
    if fee > 0 {
      assert fee * MAX_FEE_BPS >= MAX_FEE_BPS;
    }
  }

  /** `rule_fees_assessed` as written passes on a run exactly when the rate is
      zero or the exact fee reaches one token. */
  lemma FeeAssessedRunIff(v: Vault, amount: u64)
    requires InDomain(v) && DepositWithFee(v, amount).Ok?
    ensures Run(FeeAssessed, DriveDepositWithFee, v, amount) <==>
      (v.feeBps == 0 || MAX_FEE_BPS <= amount * v.feeBps)
  {
    FeeZeroExactlyBelowOneToken(v, amount);
  }

  /** `rule_fees_assessed` as written is refuted: an empty vault with a 0.01% fee
      takes a deposit of 100 tokens, mints 100 shares and charges no fee. */
  lemma FeeAssessedRefuted()
    ensures !RuleHolds(FeeAssessed, DriveDepositWithFee)
  {
    var v := NewVault().(feeBps := 1);
    assert Apply(1, 100).value == Gross(100, 0);
    assert DepositWithFee(v, 100) == Ok((v.(shares := 100, assets := 100), VaultEffect(0, 100, 100, 0, 0)));
    assert !Run(FeeAssessed, DriveDepositWithFee, v, 100);
  }

  /** The corrected fee rule holds for every vault of the domain and every amount. */
  lemma FeeBoundedHolds()
    ensures RuleHolds(FeeBounded, DriveDepositWithFee)
  {
    forall v: Vault, amount: u64 ensures Run(FeeBounded, DriveDepositWithFee, v, amount) {
      if DepositWithFee(v, amount).Ok? {
        FeeZeroExactlyBelowOneToken(v, amount);
      }
    }
  }
}
