# Share vault accounting and its verification harness, in Dafny

This project models the accounting core of a share-based Solana vault program
(`programs/vault`). Users deposit an asset token and receive shares, and they
redeem shares for assets. An administrator can raise the asset total (a reward)
or remove assets without burning shares (a slash). A fee variant of the deposit
splits a basis-points fee off the amount. The model covers these pieces:

- the fixed-point mul-div of `utils/math.rs` (`MulDiv`) and its exact-arithmetic
  counterpart used by the verification build (`MathRules`);
- the guard macros of `utils/guards.rs` (`Guards`);
- the `Vault` record and its checked primitives of `state.rs` (`VaultState`);
- the operations of `operations/*.rs` (`VaultOperations`, `FeeOperations`,
  `ExactDepositOperations`) and the older revision in `operations.rs`
  (`LegacyOperations`);
- the operation-level verification harness: the drivers of `certora/specs/base.rs`,
  the input domain of `certora/nondet.rs` and the solvency, no-dilution and fee
  properties (`Harness`);
- the rules built on that harness: solvency, no-dilution, fees, mul-div
  equivalence, integrity and the two inflation-attack scenarios (the `*Rules`
  modules and `InflationAttack`).

The model is functional. An operation takes a `Vault` value and an amount. It
returns either the new vault together with the `VaultEffect` (the token
movements the caller performs) or the first error. Machine integers are bounded
subset types of `int` (`u64`, `u8`). Every `checked_*` call and every `?` of the
vault's own operations is an explicit error path. The exceptions are the `?` after
`fee_bps.apply(..)` (`vault_fee_operations.rs:7`,
`vault_exact_deposit_operations.rs:25` and `:31`) and the subtraction inside
`apply`. `FeeBpsModel.Apply` never fails, so those paths are dropped.

A rule of the harness is a statement over every vault of the input domain and
every amount. `Harness.Run` is one run: snapshot the vault, assume the
property's pre-condition, run the operation, and check the property on the
post-state. A run whose operation fails is discarded, as the harness's
`unwrap` discards it. `Harness.RuleHolds` quantifies over all runs.

Facts about the code that shape the model:

- A failing operation can leave partial changes in the in-memory vault.
  `vault_deposit_assets` mints shares before `add_token` can fail, and
  `vault_redeem_shares` burns shares before `del_token` can fail. The reverted
  transaction undoes those changes. The model returns no vault on an error,
  which is what a caller of the program observes.
- The native `mul_div_ceil` calls `u128::div_ceil`, which panics at a zero
  divisor rather than returning an error, so `MulDiv.MulDivCeil` requires a
  nonzero divisor.
- `vault_deposit_assets_with_fee_exact` calls the same floor-rounding `apply`
  twice: once on the offered amount, and once on the actual debit.
- `struct Vault` in `state.rs` declares neither `fee_amount` nor
  `vault_assets_account_bump`, but the unit-test vault
  (`vault_operations.rs:64-77`) sets both. `vault_collect_fee` reads and clears
  `fee_amount`; no operation uses the bump. The model's `Vault` carries both
  fields.

## Model

| member | source | states |
|---|---|---|
| VaultErrors.CheckedAdd | programs/vault/src/state.rs:82 | `u64::checked_add` succeeds exactly when the sum fits in `u64`, and it then undoes by subtraction; overflow is `MathOverflow` |
| VaultErrors.CheckedSub | programs/vault/src/state.rs:72 | `u64::checked_sub` succeeds exactly when the result is not negative, and it then undoes by addition; underflow is `MathOverflow` |
| Guards.Require | programs/vault/src/utils/guards.rs:4-14 | a guard passes exactly when its comparison holds, and otherwise fails with `GuardFail` |
| Guards.GuardDuality | programs/vault/src/utils/guards.rs:36-40 | `require_gt` passes exactly when `require_ge` on swapped operands fails, and likewise `require_lt` with `require_le`; `gt`/`lt` and `ge`/`le` are mirror images; `require_eq` is symmetric and is the conjunction of `ge` and `le` |
| MulDiv.ProductFitsU128 | programs/vault/src/utils/math.rs:8-10 | the widened product of two `u64` values is below 2^128, so that `checked_mul` never fails |
| MulDiv.DivCeil | programs/vault/src/utils/math.rs:21 | `u128::div_ceil(n, d)` for `d > 0` is the least `q` with `n <= q * d` |
| MulDiv.MulDivFloor | programs/vault/src/utils/math.rs:7-15 | the result is `Ok` exactly when `c != 0` and `a * b / c` fits in `u64`, and it is then the floor quotient (`q * c <= a * b < q * c + c`); every failure is `MathOverflow` |
| MulDiv.MulDivCeil | programs/vault/src/utils/math.rs:17-24 | for `c > 0` the result is `Ok` exactly when `a * b <= U64_MAX * c`, and it is then the ceiling quotient; every failure is `MathOverflow` |
| MulDiv.FloorCeilRelation | programs/vault/src/utils/math.rs:7-24 | if the ceiling succeeds then so does the floor; the ceiling is the floor or the floor plus one, and equals the floor exactly when `c` divides `a * b` |
| MulDiv.FloorAtMostFirst | programs/vault/src/utils/math.rs:7-15 | with `b <= c` the floor cannot fail and is at most `a`; this is what makes a conversion on a solvent vault safe |
| MulDiv.FloorAtLeastFirst | programs/vault/src/utils/math.rs:7-15 | with `c <= b` a successful floor is at least `a` |
| FeeBpsModel.FeeBpsTryFrom | programs/vault/src/state.rs:38-40 | the conversion to `FeeBps` succeeds exactly up to 10 000 bps, and otherwise fails with `GuardFail` |
| FeeBpsModel.Apply | programs/vault/src/operations/vault_fee_operations.rs:7 | `apply` never fails; net amount plus fee is the amount, and the fee is the floor of `amount * bps / 10 000` |
| FeeBpsModel.ApplyMonotone | programs/vault/src/operations/vault_exact_deposit_operations.rs:28-30 | the fee on a smaller amount is no larger, so the fee recomputed on the actual debit never exceeds the maximum fee |
| VaultState.NewVault | programs/vault/src/state.rs:26-28 | a new vault has zero shares, zero assets and no fee, and is solvent |
| VaultState.IsSolvent | programs/vault/src/state.rs:42-44 | the solvency predicate: no more shares than assets. It has no contract of its own; `CheckInvariant`, `DelToken`, `Redeem` and the solvency rules state what it guards |
| VaultState.CheckInvariant | programs/vault/src/state.rs:42-48 | the invariant check passes exactly on a solvent vault (`shares <= assets`), and otherwise fails with `GuardFail` |
| VaultState.FeeInBps | programs/vault/src/state.rs:38-40 | reading the stored fee rate succeeds exactly when it is at most 100% and returns it unchanged; otherwise it fails with `GuardFail` |
| VaultState.ConvertSharesToAssets | programs/vault/src/state.rs:50-57 | 1:1 when the counters are equal; otherwise it succeeds exactly when the floor of `shares * assets / total_shares` exists and fits. It never pays above the vault's ratio, and on a solvent vault a share is worth at least one asset |
| VaultState.ConvertAssetsToShares | programs/vault/src/state.rs:59-67 | 1:1 when the counters are equal, and otherwise the floor of `tokens * shares / assets`. It never mints above the vault's ratio, and on a solvent vault it cannot fail and mints at most one share per token |
| VaultState.ConversionRoundTrip | programs/vault/src/state.rs:50-67 | converting assets to shares and back never returns more than was put in |
| VaultState.BurnShares | programs/vault/src/state.rs:69-76 | the burn succeeds exactly when `amt <= shares`; it lowers only the share counter, and an underflow is `MathOverflow` |
| VaultState.MintShares | programs/vault/src/state.rs:78-86 | a zero amount is `GuardFail` and an overflow is `MathOverflow`; otherwise only the share counter grows by `amt` |
| VaultState.AddToken | programs/vault/src/state.rs:88-96 | a zero amount is `GuardFail` and an overflow is `MathOverflow`; otherwise only the asset counter grows by `amt` |
| VaultState.DelToken | programs/vault/src/state.rs:98-108 | an underflow is `MathOverflow` and a result that would be insolvent is `GuardFail`; otherwise only the assets drop, and the vault stays solvent |
| VaultOperations.Deposit | programs/vault/src/operations/vault_operations.rs:14-25 | a deposit of nothing, or one worth zero shares, fails. It succeeds exactly when the conversion succeeds and neither counter overflows. A success mints the converted shares, banks the whole amount, and changes nothing but the two counters |
| VaultOperations.Redeem | programs/vault/src/operations/vault_operations.rs:27-37 | redeeming more shares than exist is `MathOverflow`. A success burns exactly the shares, pays out their converted value, and leaves a solvent vault; the success conditions are stated both ways |
| VaultOperations.UpdateReward | programs/vault/src/operations/vault_operations.rs:39-49 | a lower total is `MathOverflow`; the same total is a successful no-op; a higher total raises only the assets. The effect is always empty |
| VaultOperations.Slash | programs/vault/src/operations/vault_operations.rs:51-57 | a slash succeeds exactly when the reduced vault stays solvent. It removes only assets and pays the slashed amount out; the failures are `MathOverflow` on underflow and `GuardFail` on insolvency |
| VaultOperations.TestVault | programs/vault/src/operations/vault_operations.rs:64-77 | the unit-test vault holds 100 shares, 100 assets and a 5% fee |
| VaultOperations.UnitTestVectors | programs/vault/src/operations/vault_operations.rs:79-112 | the four unit-test expectations: deposit 50 gives 150/150, redeem 40 gives 60/60, a slash of 20 fails, and a reward up to 150 gives 150 assets with an empty effect |
| LegacyOperations.UpdateReward | programs/vault/src/operations.rs:38-46 | in the older revision a lower total is `MathOverflow`, the same total is `GuardFail` (a zero reward reaches `add_token`), and a higher total raises only the assets |
| LegacyOperations.UpdateRewardRevisions | programs/vault/src/operations.rs:38-46 | the two revisions agree on every input except an unchanged total, which the newer accepts as a no-op and the older rejects |
| FeeOperations.DepositWithFee | programs/vault/src/operations/vault_fee_operations.rs:5-20 | a fee rate above 100% is `GuardFail`, and so is a net amount worth zero shares. The deposit succeeds exactly when the rate is valid, the net amount buys at least one share, and neither counter overflows. A success converts only the net amount, mints those shares and banks only the net amount; net plus fee is the deposit, and both the minted shares and the banked amount are positive |
| FeeOperations.CollectFee | programs/vault/src/operations/vault_fee_operations.rs:22-31 | collecting never fails; it pays out the accrued fee, clears it, and touches nothing else |
| FeeOperations.CollectFeeIdempotent | programs/vault/src/operations/vault_fee_operations.rs:22-31 | a second collection pays nothing and changes nothing |
| ExactDepositOperations.DepositExact | programs/vault/src/operations/vault_exact_deposit_operations.rs:5-17 | it succeeds exactly when both conversions succeed, the shares and the debit are positive, and neither counter overflows. Zero shares, or shares worth zero assets, is `GuardFail`. The debit is the value of the minted shares converted back; it is positive and at most the offered amount, and the counters grow by exactly the minted shares and the debit |
| ExactDepositOperations.DepositWithFeeExact | programs/vault/src/operations/vault_exact_deposit_operations.rs:19-39 | a fee rate above 100% is `GuardFail`. It succeeds exactly when the rate is valid and both conversions succeed. The shares come from the net of the maximum fee and the debit from those shares. The fee is recomputed on the debit and is at most the maximum fee. The vault itself is left unchanged |
| ExactDepositOperations.DepositExactZeroDebit | programs/vault/src/operations/vault_exact_deposit_operations.rs:6-10 | from 3 shares over 2 assets, one token buys one share worth zero assets, so the zero debit reaches `add_token` and the deposit is `GuardFail` |
| ExactDepositOperations.ExactDepositsAgainstPlain | programs/vault/src/operations/vault_exact_deposit_operations.rs:5-39 | the exact deposits mint the same shares as the plain ones and never bank more or charge a larger fee; at a 1:1 price the exact deposit banks the whole amount |
| Harness.InDomain | programs/vault/src/certora/nondet.rs:8-21 | the input domain: every field is arbitrary except `fee_bps <= MAX_FEE_BPS` (a definition, no contract of its own) |
| Harness.Snap | programs/vault/src/certora/specs/solvency/props.rs:28-33 | `CvlrProp::new`: the two totals for solvency and no-dilution, the fee rate for the fee properties (a definition, no contract of its own) |
| Harness.AssumePre | programs/vault/src/certora/specs/solvency/props.rs:35-37 | `assume_pre`: only solvency assumes something, that the pre-state is solvent (a definition, no contract of its own; see `SolvencyPropertyMeaning`) |
| Harness.CheckPost | programs/vault/src/certora/specs/fees/props.rs:30-38 | `check_post` of the three property files, plus the corrected fee property `FeeBounded` (a definition, no contract of its own; its meaning is stated by `SolvencyPropertyMeaning`, `NoDilutionPropertyMeaning` and `FeeAssessedRunIff`) |
| Harness.Operate | programs/vault/src/certora/specs/base.rs:19-31 | the operation each `base_*` driver invokes (a definition, no contract of its own) |
| Harness.Run | programs/vault/src/certora/specs/base.rs:19-31 | one driver run: snapshot, assume, operate, discard a failed `unwrap`, check on the post-state (a definition, no contract of its own) |
| Harness.RuleHolds | programs/vault/src/certora/specs/base.rs:19-31 | a registered rule holds: every run over every vault of the domain and every amount passes (a definition, no contract of its own) |
| Harness.SolvencyPropertyMeaning | programs/vault/src/certora/specs/solvency/props.rs:27-42 | the solvency property assumes exactly that the pre-state is solvent and checks exactly that the post-state is solvent |
| Harness.NoDilutionPropertyMeaning | programs/vault/src/certora/specs/no_dilution/props.rs:27-43 | the cross-multiplied check says exactly that assets per share do not decrease, read over the rationals when both vaults have shares; it assumes nothing of the pre-state |
| SolvencyRules.SolvencyDeposit | programs/vault/src/certora/specs/solvency/solvency.rs:8-11 | every successful deposit from a solvent vault of the domain leaves it solvent |
| SolvencyRules.SolvencyDepositWithFee | programs/vault/src/certora/specs/solvency/solvency.rs:13-16 | every successful deposit with fee from a solvent vault leaves it solvent |
| SolvencyRules.SolvencyRedeem | programs/vault/src/certora/specs/solvency/solvency.rs:18-21 | every successful redeem from a solvent vault leaves it solvent |
| SolvencyRules.SolvencyUpdateReward | programs/vault/src/certora/specs/solvency/solvency.rs:23-26 | every successful reward update from a solvent vault leaves it solvent |
| SolvencyRules.SolvencySlash | programs/vault/src/certora/specs/solvency/solvency.rs:28-31 | every successful slash from a solvent vault leaves it solvent |
| SolvencyRules.SolvencyRulesHold | programs/vault/src/certora/specs/solvency.rs:4-27 | all five solvency rules of the older registration hold |
| NoDilutionRules.NoDilutionDeposit | programs/vault/src/certora/specs/no_dilution/no_dilution.rs:8-11 | no successful deposit lowers the assets-per-share ratio |
| NoDilutionRules.NoDilutionDepositWithFee | programs/vault/src/certora/specs/no_dilution/no_dilution.rs:13-16 | no successful deposit with fee lowers the ratio |
| NoDilutionRules.NoDilutionRedeem | programs/vault/src/certora/specs/no_dilution/no_dilution.rs:18-21 | no successful redeem lowers the ratio |
| NoDilutionRules.NoDilutionUpdateReward | programs/vault/src/certora/specs/no_dilution/no_dilution.rs:23-26 | no successful reward update lowers the ratio |
| NoDilutionRules.NoDilutionSlashRefuted | programs/vault/src/certora/specs/no_dilution/no_dilution.rs:28-32 | the slash rule fails, as its comment expects: 100 shares over 200 assets, slashed by 50 |
| NoDilutionRules.SlashDilutes | programs/vault/src/certora/specs/integrity/integrity.rs:113-140 | a successful slash violates no-dilution exactly when the vault has shares and the amount is positive |
| FeeRules.FeeZeroExactlyBelowOneToken | programs/vault/src/certora/specs/fees/props.rs:30-38 | the fee of a successful deposit with fee never exceeds the deposit, and it is zero exactly when `amount * fee_bps < 10 000` |
| FeeRules.FeeAssessedRunIff | programs/vault/src/certora/specs/fees/props.rs:30-38 | a run of the fee rule as written passes exactly when the rate is zero or `amount * fee_bps >= 10 000` |
| FeeRules.FeeAssessedRefuted | programs/vault/src/certora/specs/fees/fees.rs:5-8 | the fee rule as written fails: an empty vault at 1 bps takes a deposit of 100 and charges no fee |
| FeeRules.FeeBoundedHolds | programs/vault/src/certora/specs/fees/fees.rs:5-8 | the corrected fee rule holds for every vault of the domain and every amount |
| MathRules.QuotientBySubtractionIsFloor | programs/vault/src/utils/math.rs:37 | the exact quotient by repeated subtraction is the floor quotient |
| MathRules.Narrow | programs/vault/src/utils/math.rs:39-43 | `is_u64` accepts exactly the values in `0..=U64_MAX` and returns them unchanged, else `MathOverflow` |
| MathRules.ExactMulDivFloor | programs/vault/src/utils/math.rs:32-44 | for `c > 0` a success is the floor quotient; every failure is `MathOverflow` |
| MathRules.ExactMulDivCeil | programs/vault/src/utils/math.rs:46-57 | for `c > 0` a success is the ceiling quotient; every failure is `MathOverflow` |
| MathRules.MulDivFloorEquivOk | programs/vault/src/certora/specs/utils_math.rs:3-12 | whenever the native and exact floor variants both succeed, they return the same value |
| MathRules.MulDivFloorEquivErr | programs/vault/src/certora/specs/utils_math.rs:14-25 | for `c > 0` the native and exact floor variants fail on exactly the same inputs |
| MathRules.FloorErrNeedsNonzeroDivisor | programs/vault/src/certora/specs/utils_math.rs:22-23 | the error rule needs its `c > 0` assumption: at `c == 0` the native variant fails and the exact one may not |
| MathRules.MulDivCeilEquivOk | programs/vault/src/certora/specs/utils_math.rs:27-36 | whenever the native and exact ceiling variants both succeed, they return the same value |
| MathRules.MulDivCeilEquivErr | programs/vault/src/certora/specs/utils_math.rs:38-47 | for `c > 0` the native and exact ceiling variants fail on exactly the same inputs |
| IntegrityRules.DepositMustIncreaseAssets | programs/vault/src/certora/specs/integrity/integrity.rs:29-42 | a successful deposit raises the asset total, strictly |
| IntegrityRules.DepositMustIncreaseShares | programs/vault/src/certora/specs/integrity/integrity.rs:44-57 | a successful deposit raises the share total, strictly |
| IntegrityRules.DepositMonotonicity | programs/vault/src/certora/specs/integrity/integrity.rs:59-82 | after a successful deposit, assets that did not go down mean shares did not go down |
| IntegrityRules.RedeemMonotonicity | programs/vault/src/certora/specs/integrity/integrity.rs:84-111 | on a solvent vault, a successful redeem that does not lower the assets does not lower the shares |
| IntegrityRules.RedeemMonotonicityNeedsSolvency | programs/vault/src/certora/specs/integrity/integrity.rs:93-94 | the solvency assumption is needed: from 10 shares over 9 assets, redeeming one share pays nothing but burns one |
| InflationAttack.BobAttack | programs/vault/src/certora/specs/inflation_attack/inflation_attack.rs:14-67 | a completed attack starts from Bob's balance, never spends more than he holds, and needs Bob's own deposit to succeed; he ends with at least what he kept back |
| InflationAttack.InflationAttackNoProfit | programs/vault/src/certora/specs/inflation_attack/inflation_attack.rs:4-76 | from a 1:1 vault with at least one share, every completed attack leaves Bob with at most his starting balance |
| InflationAttack.AttackWithoutDonationBreaksEven | programs/vault/src/certora/specs/inflation_attack/inflation_attack.rs:78-82 | the commented-out "Bob always loses" fails without a donation: a run where Bob ends where he began |
| InflationAttack.AttackWithDonationBreaksEven | programs/vault/src/certora/specs/inflation_attack/inflation_attack.rs:80-82 | it also fails with a donation: Bob deposits 2 and donates 1, and still redeems for 3 |
| InflationAttack.RoundTrip | programs/vault/src/certora/specs/inflation_attack/inflation_attack.rs:97-124 | the round trip completes exactly when both the deposit and the full redeem succeed; Alice then ends with exactly the payout of the redeem, since the deposit banks all she put in |
| InflationAttack.SharePrice | programs/vault/src/certora/specs/inflation_attack/inflation_attack.rs:93-95 | `share_price_pre`: with shares, the least whole price that covers the assets (`(p - 1) * shares < assets <= p * shares`); without shares, the logic's arbitrary value `atZero` |
| InflationAttack.RoundTripNoProfit | programs/vault/src/certora/specs/inflation_attack/inflation_attack.rs:134-135 | on a solvent vault, depositing and then redeeming every share bought never returns more than was deposited |
| InflationAttack.RoundTripLossBound | programs/vault/src/certora/specs/inflation_attack/inflation_attack.rs:144-145 | on a solvent vault with shares, that round trip loses at most `div_ceil(assets, shares)` |
| InflationAttack.RoundTripExactWithoutShares | programs/vault/src/certora/specs/inflation_attack/inflation_attack.rs:93-95 | on a vault without shares a completed round trip loses nothing, because it can only complete when there are no assets either |
| InflationAttack.RoundTripLosesMoreThanOneAtom | programs/vault/src/certora/specs/inflation_attack/inflation_attack.rs:137-142 | the commented-out "no loss" and "loss of at most one atom" both fail: 1 share over 10 assets, a deposit of 19 redeems for 14 |

The older copies of the code and the rules are covered by the members above.
`operations.rs` has the same deposit, redeem and slash as
`operations/vault_operations.rs`. `certora/specs/props.rs` and
`certora/specs/fees.rs` register the same properties and rules as their
per-directory successors. `rule_slash_no_dilution` of
`certora/specs/integrity/integrity.rs:113-140` checks the same cross-multiplied
ratio as the no-dilution slash rule of `certora/specs/no_dilution/no_dilution.rs:28-32`,
whose comment says it is expected to fail. `NoDilutionRules.SlashDilutes` shows
exactly when it fails: on every positive slash of a vault that has shares.

## Left out

- Instruction processing, account loading, SPL token transfers, mints and burns (`processor/`, `loaders/`) are outside this model. They are foreign calls made after the ledger update; the model stops at the returned effect.
- The processor-level harness (`base_processor.rs`, the `*_processor.rs` rules), access control and vault-consistency rules are not modelled: they are about account wiring, not accounting.
- IntegrityRules: the integrity rules run whole processors. Here they are stated on the operation each processor calls, because the processors' other steps do not touch the counters and any failure reverts the instruction.
- The verification build of the guards, which panics instead of returning `GuardFail`, is not modelled. The model follows the native build.
- MulDiv.MulDivCeil: requires a nonzero divisor, because the native `u128::div_ceil` panics at zero and does not return an error.
- MathRules.MulDivCeilEquivOk: requires `c > 0`. The rule itself has no such assumption, but at `c == 0` the native variant panics, which ends the run before the assertion.
- MathRules.MulDivCeilEquivErr: requires `c > 0` for the same reason. At a zero divisor the native variant panics rather than returning an error to compare.
- InflationAttack.RoundTripLossBound: requires at least one share. At zero shares the rule divides by zero, which has an arbitrary result in its logic. RoundTripExactWithoutShares shows that the loss there is zero, so the assertion holds exactly when that arbitrary price is not negative.
- FeeBpsModel: `FeeBps` is imported from `utils/math.rs` (`state.rs:4`), which does not define it, and `MAX_FEE_BPS` comes from `certora::constants`, which is not part of this model. The module is an assumption built from their call sites: a bound of 10 000 bps, `GuardFail` above it, and a floor-rounded fee that cannot fail.
- The accessors `fee_amount` and `clear_fee_amount` are not defined in `state.rs`. They are modelled as reading and zeroing the vault's fee accrual field.
- Account keys are opaque byte strings. Logging (`clog!`, `CvlrLog`) has no effect on the accounting and is left out.
- The scenario steps whose `unwrap` can never fail are computed directly, with a comment at each: the reward update to at least the current total, Alice's two subtractions, and Bob's share subtraction.

## Findings

| source | as written | input that shows it | evidently intended | confidence | as-written member | corrected member |
|---|---|---|---|---|---|---|
| programs/vault/src/certora/specs/fees/props.rs:35-37 | the fee rule asserts `assets_to_fee > 0` whenever `fee_bps > 0` | an empty vault with `fee_bps = 1` and a deposit of 100: the fee is the floor of 100 * 1 / 10 000, which is 0 | a positive fee is required only once `amount * fee_bps >= 10 000`, that is, once the exact fee reaches one token | not executed | FeeRules.FeeAssessedRefuted | FeeRules.FeeBoundedHolds |

The corrected property is the `FeeBounded` case of `Harness.CheckPost`.
`FeeRules.FeeAssessedRunIff` shows that the rule as written fails on exactly
the runs where a positive rate meets an amount too small to be charged.
