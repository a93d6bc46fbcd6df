/** The no-dilution rules of certora/specs/no_dilution/no_dilution.rs: the
    assets-per-share ratio never decreases across deposits, redeems and reward
    updates. The slash rule is registered to fail, and it does: a slash takes
    assets without burning shares. */
module NoDilutionRules {
  import opened VaultErrors
  import opened Arith
  import opened VaultState
  import opened VaultOperations
  import opened FeeOperations
  import opened Harness

  /** Adding `t` tokens for `s` shares keeps the ratio when the shares were priced
      no cheaper than the vault's ratio. */
  lemma GrowKeepsRatio(shares: int, assets: int, s: int, t: int)
    requires s * assets <= t * shares
    ensures assets * (shares + s) <= shares * (assets + t)
  {
    assert assets * (shares + s) == assets * shares + s * assets;
    assert shares * (assets + t) == shares * assets + t * shares;
  }

  /** Removing `n` shares for `o` tokens keeps the ratio when the payout was
      priced no higher than the vault's ratio. */
  lemma ShrinkKeepsRatio(shares: int, assets: int, n: int, o: int)
    requires o * shares <= n * assets
    ensures assets * (shares - n) <= shares * (assets - o)
  {
    assert assets * (shares - n) == assets * shares - n * assets;
    assert shares * (assets - o) == shares * assets - o * shares;
  }

  /** `rule_no_dilution_deposit_assets`: the minted shares are rounded down, so
      the depositor never buys shares below the vault's price. */
  lemma NoDilutionDeposit()
    ensures RuleHolds(NoDilution, DriveDeposit)
  {
    forall v: Vault, amount: u64 ensures Run(NoDilution, DriveDeposit, v, amount) {
      if Deposit(v, amount).Ok? {
        GrowKeepsRatio(v.shares, v.assets, ConvertAssetsToShares(v, amount).value, amount);
      }
    }
  }

  /** `rule_no_dilution_deposit_assets_with_fee`: the same for the net amount. */
  lemma NoDilutionDepositWithFee()
    ensures RuleHolds(NoDilution, DriveDepositWithFee)
  {
    forall v: Vault, amount: u64 ensures Run(NoDilution, DriveDepositWithFee, v, amount) {
      if DepositWithFee(v, amount).Ok? {
        var e := DepositWithFee(v, amount).value.1;
        GrowKeepsRatio(v.shares, v.assets, e.sharesToUser, e.assetsToVault);
      }
    }
  }

  /** `rule_no_dilution_redeem_shares`: the payout is rounded down, so the
      redeemer never takes more than the shares' worth. */
  lemma NoDilutionRedeem()
    ensures RuleHolds(NoDilution, DriveRedeem)
  {
    forall v: Vault, amount: u64 ensures Run(NoDilution, DriveRedeem, v, amount) {
      if Redeem(v, amount).Ok? {
        ShrinkKeepsRatio(v.shares, v.assets, amount, Redeem(v, amount).value.1.assetsToUser);
      }
    }
  }

  /** `rule_no_dilution_update_reward`: the assets only grow, the shares stay. */
  lemma NoDilutionUpdateReward()
    ensures RuleHolds(NoDilution, DriveUpdateReward)
  {
    forall v: Vault, amount: u64 ensures Run(NoDilution, DriveUpdateReward, v, amount) {
      if UpdateReward(v, amount).Ok? {
        MulLeMono(v.assets, UpdateReward(v, amount).value.0.assets, v.shares);
      }
    }
  }

  /** `rule_no_dilution_process_slash` fails: a vault of 100 shares and 200
      assets slashed by 50 goes from 2 to 1.5 assets per share. */
  lemma NoDilutionSlashRefuted()
    ensures !RuleHolds(NoDilution, DriveSlash)
  {
    var v := NewVault().(shares := 100, assets := 200);
    assert Slash(v, 50) == Ok((v.(assets := 150), VaultEffect(0, 0, 0, 50, 0)));
    assert !Run(NoDilution, DriveSlash, v, 50);
  }

  /** More generally, every successful slash of a positive amount from a vault
      of the input domain with shares dilutes them: no-dilution fails exactly there. */
  lemma SlashDilutes(v: Vault, amount: u64)
    requires InDomain(v) && Slash(v, amount).Ok?
    ensures (0 < v.shares && 0 < amount) <==> !Run(NoDilution, DriveSlash, v, amount)
  {
    var w := Slash(v, amount).value.0;
    assert v.shares * w.assets == v.shares * v.assets - v.shares * amount;
    if 0 < v.shares && 0 < amount {
      assert 0 < v.shares * amount;
    }
  }
}
