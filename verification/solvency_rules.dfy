/** The solvency rules of certora/specs/solvency/solvency.rs (and the older
    registration in certora/specs/solvency.rs): every operation of the harness
    takes a solvent vault to a solvent vault. */
module SolvencyRules {
  import opened VaultErrors
  import opened VaultState
  import opened VaultOperations
  import opened FeeOperations
  import opened Harness

  /** `rule_solvency_deposit_assets`: a deposit mints at most as many shares as
      it banks tokens, because a solvent vault never prices a share below a token. */
  lemma SolvencyDeposit()
    ensures RuleHolds(Solvency, DriveDeposit)
  {
    forall v: Vault, amount: u64 ensures Run(Solvency, DriveDeposit, v, amount) {
      if IsSolvent(v) && Deposit(v, amount).Ok? {
        assert ConvertAssetsToShares(v, amount).value <= amount;
      }
    }
  }

  /** `rule_solvency_deposit_assets_with_fee`: the same for the net amount, which
      is all that is banked. */
  lemma SolvencyDepositWithFee()
    ensures RuleHolds(Solvency, DriveDepositWithFee)
  {
    forall v: Vault, amount: u64 ensures Run(Solvency, DriveDepositWithFee, v, amount) {
      if IsSolvent(v) && DepositWithFee(v, amount).Ok? {
        var net := DepositWithFee(v, amount).value.1.assetsToVault;
        assert ConvertAssetsToShares(v, net).value <= net;
      }
    }
  }

  /** `rule_solvency_redeem_shares`: the redeem re-checks solvency itself. */
  lemma SolvencyRedeem()
    ensures RuleHolds(Solvency, DriveRedeem)
  {
    forall v: Vault, amount: u64 ensures Run(Solvency, DriveRedeem, v, amount) {
    }
  }

  /** `rule_solvency_update_reward`: the assets can only grow. */
  lemma SolvencyUpdateReward()
    ensures RuleHolds(Solvency, DriveUpdateReward)
  {
    forall v: Vault, amount: u64 ensures Run(Solvency, DriveUpdateReward, v, amount) {
    }
  }

  /** `rule_solvency_process_slash`: the slash re-checks solvency itself. */
  lemma SolvencySlash()
    ensures RuleHolds(Solvency, DriveSlash)
  {
    forall v: Vault, amount: u64 ensures Run(Solvency, DriveSlash, v, amount) {
    }
  }

  /** Every solvency rule of the two registrations holds. */
  lemma SolvencyRulesHold()
    ensures forall d: Driver :: RuleHolds(Solvency, d)
  {
    SolvencyDeposit();
    SolvencyDepositWithFee();
    SolvencyRedeem();
    SolvencyUpdateReward();
    SolvencySlash();
    forall d: Driver ensures RuleHolds(Solvency, d) {
      match d
      case DriveDeposit =>
      case DriveDepositWithFee =>
      case DriveRedeem =>
      case DriveUpdateReward =>
      case DriveSlash =>
    }
  }
}
