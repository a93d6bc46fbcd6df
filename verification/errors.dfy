/** Error taxonomy of the vault program and the failure-compatible result types
    used by every fallible operation (`VaultResult<T>` in the Rust program). */
module VaultErrors {

  /** The three error kinds of the program. */
  datatype VaultError = Unspecified | MathOverflow | GuardFail

  /** `VaultResult<T>`: either a value or the first error met. Usable with `:-`. */
  datatype Result<+T> = Ok(value: T) | Err(error: VaultError) {

    predicate IsFailure() {
      Err?
    }

    function PropagateFailure<U>(): Result<U>
      requires Err?
    {
      Err(error)
    }

    function Extract(): T
      requires Ok?
    {
      value
    }
  }

  /** `VaultResult<()>`: the result of a guard, usable as `:- Guard(...); rest`. */
  datatype Outcome = Pass | Fail(error: VaultError) {

    predicate IsFailure() {
      Fail?
    }

    function PropagateFailure<U>(): Result<U>
      requires Fail?
    {
      Err(error)
    }
  }

  /** Unsigned machine integers of the program, as bounded mathematical integers. */
  const U64_MAX: int := 0xFFFF_FFFF_FFFF_FFFF
  const U128_MAX: int := 0xFFFF_FFFF_FFFF_FFFF_FFFF_FFFF_FFFF_FFFF

  type u64 = x: int | 0 <= x <= U64_MAX
  type u8 = x: int | 0 <= x < 0x100

  /** `u64::checked_add`. */
  function CheckedAdd(x: u64, y: u64): (r: Result<u64>)
    ensures r.Ok? <==> x + y <= U64_MAX
    ensures r.Ok? ==> r.value - y == x
    ensures r.Err? ==> r.error == MathOverflow
  {
    if x + y <= U64_MAX then Ok(x + y) else Err(MathOverflow)
  }

  /** `u64::checked_sub`. */
  function CheckedSub(x: u64, y: u64): (r: Result<u64>)
    ensures r.Ok? <==> y <= x
    ensures r.Ok? ==> r.value + y == x
    ensures r.Err? ==> r.error == MathOverflow
  {
    if y <= x then Ok(x - y) else Err(MathOverflow)
  }
}
