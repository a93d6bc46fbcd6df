/** The older revision of the operations in operations.rs. Its deposit, redeem
    and slash are the same code as the newer revision (VaultOperations); only
    `vault_update_reward` differs: it calls `add_token` unconditionally, so a
    reward of zero is rejected by the zero-amount guard. */
module LegacyOperations {
  import opened VaultErrors
  import opened VaultState
  import VaultOperations

  /** Older `vault_update_reward`: lowering the total is `MathOverflow`, keeping
      it is `GuardFail`, raising it raises only the assets. */
  function UpdateReward(v: Vault, newAmt: u64): (r: VaultOperations.OpResult)
    ensures newAmt < v.assets ==> r == Err(MathOverflow)
    ensures newAmt == v.assets ==> r == Err(GuardFail)
    ensures newAmt > v.assets ==> r == Ok((v.(assets := newAmt), VaultOperations.NoEffect))
  {
    var reward :- CheckedSub(newAmt, v.assets);
    VaultOperations.WithEffect(AddToken(v, reward), VaultOperations.NoEffect)
  }

  /** The two revisions of `vault_update_reward` agree on every input except a
      zero reward, which the newer one accepts as a no-op and the older one rejects. */
  lemma UpdateRewardRevisions(v: Vault, newAmt: u64)
    ensures newAmt != v.assets ==> UpdateReward(v, newAmt) == VaultOperations.UpdateReward(v, newAmt)
    ensures newAmt == v.assets ==>
      UpdateReward(v, newAmt).Err? && VaultOperations.UpdateReward(v, newAmt) == Ok((v, VaultOperations.NoEffect))
  {
  }
}
