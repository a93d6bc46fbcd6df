/** The `require_*` guard macros of utils/guards.rs (non-certora build): a guard
    falls through when its comparison holds and otherwise returns `GuardFail`.
    A guard is a pure check: in this functional model it has no state to change. */
module Guards {
  import opened VaultErrors

  /** The comparison a guard macro is instantiated with. */
  datatype Comparison = Gt | Ge | Eq | Lt | Le

  /** The relation each comparison denotes. */
  predicate Holds(cmp: Comparison, lhs: int, rhs: int) {
    match cmp
    case Gt => lhs > rhs
    case Ge => lhs >= rhs
    case Eq => lhs == rhs
    case Lt => lhs < rhs
    case Le => lhs <= rhs
  }

  /** `impl_bin_require!`: `if lhs <pred> rhs {} else { return Err(GuardFail) }`. */
  function Require(cmp: Comparison, lhs: int, rhs: int): (r: Outcome)
    ensures r.Pass? <==> Holds(cmp, lhs, rhs)
    ensures r.Fail? ==> r.error == GuardFail
  {
    if Holds(cmp, lhs, rhs) then Pass else Fail(GuardFail)
  }

  function RequireGt(lhs: int, rhs: int): Outcome { Require(Gt, lhs, rhs) }
  function RequireGe(lhs: int, rhs: int): Outcome { Require(Ge, lhs, rhs) }
  function RequireEq(lhs: int, rhs: int): Outcome { Require(Eq, lhs, rhs) }
  function RequireLt(lhs: int, rhs: int): Outcome { Require(Lt, lhs, rhs) }
  function RequireLe(lhs: int, rhs: int): Outcome { Require(Le, lhs, rhs) }

  /** The five guards are related by swapping operands and by negation: each
      strict guard passes exactly when the non-strict guard on the swapped
      operands fails, `require_eq` is symmetric, and every failure is `GuardFail`. */
  lemma GuardDuality(lhs: int, rhs: int)
    ensures RequireGt(lhs, rhs).Pass? <==> RequireGe(rhs, lhs).Fail?
    ensures RequireLt(lhs, rhs).Pass? <==> RequireLe(rhs, lhs).Fail?
    ensures RequireGt(lhs, rhs) == RequireLt(rhs, lhs)
    ensures RequireGe(lhs, rhs) == RequireLe(rhs, lhs)
    ensures RequireEq(lhs, rhs) == RequireEq(rhs, lhs)
    ensures RequireEq(lhs, rhs).Pass? <==> RequireGe(lhs, rhs).Pass? && RequireLe(lhs, rhs).Pass?
    ensures RequireGt(lhs, rhs).Fail? ==> RequireGt(lhs, rhs) == Fail(GuardFail)
  {
  }
}
