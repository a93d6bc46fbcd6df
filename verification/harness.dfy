/** The operation-level verification harness of certora/specs/base.rs and the
    property catalogue of certora/specs/{solvency,no_dilution,fees}/props.rs.

    A property is a snapshot of the vault (`Snap`), an assumption on the
    pre-state snapshot (`AssumePre`) and a check on the post-state snapshot
    against the pre-state one, the raw amount and the effect (`CheckPost`).
    A driver runs one operation; a rule pairs a property with a driver and must
    hold for every vault of the input domain (nondet.rs) and every amount for
    which the operation succeeds: a failing operation is excluded, as the
    harness's `unwrap` excludes it, not counted as a violation. */
module Harness {
  import opened VaultErrors
  import opened VaultState
  import opened FeeBpsModel
  import opened VaultOperations
  import opened FeeOperations

  /** nondet.rs: both counters and every key are arbitrary and independent; the
      only constraint is `fee_bps <= MAX_FEE_BPS`. No solvency or ratio relation
      is built in: each property states its own assumption. */
  predicate InDomain(v: Vault) {
    v.feeBps <= MAX_FEE_BPS
  }

  /** `OperationParams`: the raw input of the operation (tokens for the deposits
      and the slash, shares for the redeem, the new total for the reward update). */
  datatype OperationParams = OperationParams(amount: u64)

  /** The registered properties. `FeeBounded` is not in the program: it is the
      fee property with its nonzero-fee clause restricted to amounts large enough
      for the floor-rounded fee to be nonzero (see FeeRules). */
  datatype Property = Solvency | NoDilution | FeeAssessed | FeeBounded

  /** What a property captures of a vault, as unbounded integers. */
  datatype Snapshot =
    | TotalsSnap(sharesTotal: int, tokenTotal: int)
    | FeeSnap(feeBps: int)

  /** `CvlrProp::new`: solvency and no-dilution keep the two totals, the fee
      properties keep only the fee rate. */
  function Snap(p: Property, v: Vault): Snapshot {
    match p
    case Solvency => TotalsSnap(v.shares, v.assets)
    case NoDilution => TotalsSnap(v.shares, v.assets)
    case FeeAssessed => FeeSnap(v.feeBps)
    case FeeBounded => FeeSnap(v.feeBps)
  }

  /** `CvlrProp::assume_pre`: only solvency assumes something of the pre-state. */
  predicate AssumePre(p: Property, pre: Snapshot) {
    match p
    case Solvency => pre.TotalsSnap? && pre.sharesTotal <= pre.tokenTotal
    case NoDilution => true
    case FeeAssessed => true
    case FeeBounded => true
  }

  /** `CvlrProp::check_post`, called on the post-state snapshot with the
      pre-state one as `before` (the source's `old`). */
  predicate CheckPost(p: Property, post: Snapshot, before: Snapshot, params: OperationParams, effect: VaultEffect) {
    match p
    case Solvency =>
      // solvency on the new snapshot; old, params and effect are ignored
      post.TotalsSnap? && post.sharesTotal <= post.tokenTotal
    case NoDilution =>
      // the ratio tokens/shares does not decrease, cross-multiplied
      && post.TotalsSnap? && before.TotalsSnap?
      && before.tokenTotal * post.sharesTotal <= before.sharesTotal * post.tokenTotal
    case FeeAssessed =>
      && post.FeeSnap?
      && effect.assetsToFee <= params.amount
      && (post.feeBps > 0 ==> effect.assetsToFee > 0)
    case FeeBounded =>
      && post.FeeSnap?
      && effect.assetsToFee <= params.amount
      && (post.feeBps > 0 && params.amount * post.feeBps >= MAX_FEE_BPS ==> effect.assetsToFee > 0)
  }

  /** The five drivers `base_*` of base.rs. */
  datatype Driver = DriveDeposit | DriveDepositWithFee | DriveRedeem | DriveUpdateReward | DriveSlash

  /** The operation a driver invokes. */
  function Operate(d: Driver, v: Vault, amount: u64): OpResult {
    match d
    case DriveDeposit => Deposit(v, amount)
    case DriveDepositWithFee => DepositWithFee(v, amount)
    case DriveRedeem => Redeem(v, amount)
    case DriveUpdateReward => UpdateReward(v, amount)
    case DriveSlash => Slash(v, amount)
  }

  /** One run of a driver on one vault and amount: snapshot the pre-state,
      assume the property's pre-condition, run the operation, and, when it
      succeeds, check the property on the post-state. A vault outside the input
      domain, a rejected pre-state or a failed operation makes the run vacuous. */
  predicate Run(p: Property, d: Driver, v: Vault, amount: u64) {
    var pre := Snap(p, v);
    InDomain(v) && AssumePre(p, pre) && Operate(d, v, amount).Ok? ==>
      CheckPost(p, Snap(p, Operate(d, v, amount).value.0), pre, OperationParams(amount), Operate(d, v, amount).value.1)
  }

  /** A registered rule holds: every run passes. */
  ghost predicate RuleHolds(p: Property, d: Driver) {
    forall v: Vault, amount: u64 :: Run(p, d, v, amount)
  }

  /** The solvency property means exactly: assume the vault solvent before, and
      require it solvent after, whatever the amount and the effect. */
  lemma SolvencyPropertyMeaning(v: Vault, w: Vault, params: OperationParams, effect: VaultEffect)
    ensures AssumePre(Solvency, Snap(Solvency, v)) <==> IsSolvent(v)
    ensures CheckPost(Solvency, Snap(Solvency, w), Snap(Solvency, v), params, effect) <==> IsSolvent(w)
  {
  }

  /** The no-dilution check is the statement that assets per share do not
      decrease, read over the rationals when both vaults have shares; with no
      shares before, it holds exactly when there were no assets either or there
      are no shares after. It assumes nothing of the pre-state. */
  lemma NoDilutionPropertyMeaning(v: Vault, w: Vault, params: OperationParams, effect: VaultEffect)
    ensures AssumePre(NoDilution, Snap(NoDilution, v))
    ensures 0 < v.shares && 0 < w.shares ==>
      (CheckPost(NoDilution, Snap(NoDilution, w), Snap(NoDilution, v), params, effect) <==>
       (v.assets as real) / (v.shares as real) <= (w.assets as real) / (w.shares as real))
    ensures v.shares == 0 ==>
      (CheckPost(NoDilution, Snap(NoDilution, w), Snap(NoDilution, v), params, effect) <==>
       v.assets == 0 || w.shares == 0)
  {
    if 0 < v.shares && 0 < w.shares {
      var s0, a0, s1, a1 := v.shares as real, v.assets as real, w.shares as real, w.assets as real;
      var x, y, k := a0 / s0, a1 / s1, s0 * s1;
      assert 0.0 < k;
      assert x * k == a0 * s1 && y * k == s0 * a1;
      // scaling by the positive k preserves the order both ways
      assert x <= y ==> (y - x) * k >= 0.0;
      assert y < x ==> (x - y) * k > 0.0;
      assert (v.assets * w.shares) as real == a0 * s1;
      assert (v.shares * w.assets) as real == s0 * a1;
    }
    if v.shares == 0 && v.assets != 0 && w.shares != 0 {
      assert v.assets * w.shares > 0;
    }
  }
}
