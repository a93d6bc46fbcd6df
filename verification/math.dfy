/** Fixed-point multiply-then-divide of utils/math.rs (the native build, which
    widens to `u128`). Both variants compute `a * b` exactly, divide by `c`, and
    narrow back to `u64`, failing with `MathOverflow` when the result does not fit. */
module MulDiv {
  import opened VaultErrors
  import opened Arith

  /** The `checked_mul` on the widened operands never fails: a product of two
      `u64` values is below `2^128`. */
  lemma ProductFitsU128(a: u64, b: u64)
    ensures 0 <= a * b <= U64_MAX * U64_MAX < U128_MAX
  {
    MulLeMono(a, U64_MAX, b);
    MulLeMono(b, U64_MAX, U64_MAX);
    assert U64_MAX * b == b * U64_MAX;
  }

  /** `u128::div_ceil`: the floor quotient, plus one when a remainder is left.
      The result is the least `q` with `n <= q * d`. */
  function DivCeil(n: nat, d: nat): (q: nat)
    requires 0 < d
    ensures q * d - d < n <= q * d
  {
    DivBounds(n, d);
    assert (n / d + 1) * d == n / d * d + d;
    if n % d == 0 then n / d else n / d + 1
  }

  /** A ceiling quotient is at most `m` exactly when the dividend is at most `m * d`. */
  lemma DivCeilLeIff(n: nat, d: nat, m: nat)
    requires 0 < d
    ensures DivCeil(n, d) <= m <==> n <= m * d
  {
    var q := DivCeil(n, d);
    if q <= m {
      MulLeMono(q, m, d);
    } else {
      MulLeMono(m, q - 1, d);
    }
  }

  /** `mul_div_floor(a, b, c)`: `Ok(floor(a * b / c))` exactly when `c != 0` and
      the quotient fits in a `u64`; `Err(MathOverflow)` otherwise. */
  function MulDivFloor(a: u64, b: u64, c: u64): (r: Result<u64>)
    ensures r.Ok? <==> 0 < c && a * b < (U64_MAX + 1) * c
    ensures r.Ok? ==> r.value * c <= a * b < r.value * c + c
    ensures r.Err? ==> r.error == MathOverflow
  {
    ProductFitsU128(a, b);
    var product := a * b;
    // the failed `checked_mul` (unreachable) and the failed `checked_div` give the same error
    if product > U128_MAX || c == 0 then
      Err(MathOverflow)
    else
      DivBounds(product, c);
      DivLtIff(product, c, U64_MAX + 1);
      var q := product / c;
      if q <= U64_MAX then Ok(q) else Err(MathOverflow)
  }

  /** `mul_div_ceil(a, b, c)` for `c > 0`: `Ok(ceil(a * b / c))` exactly when the
      rounded-up quotient fits in a `u64`. With `c == 0` the native
      `u128::div_ceil` panics instead of returning an error, so `c > 0` is the
      caller's obligation here. */
  function MulDivCeil(a: u64, b: u64, c: u64): (r: Result<u64>)
    requires 0 < c
    ensures r.Ok? <==> a * b <= U64_MAX * c
    ensures r.Ok? ==> r.value * c - c < a * b <= r.value * c
    ensures r.Err? ==> r.error == MathOverflow
  {
    ProductFitsU128(a, b);
    var product := a * b;
    DivCeilLeIff(product, c, U64_MAX);
    var q := DivCeil(product, c);
    // the failed `checked_mul` (unreachable) and the failed narrowing give the same error
    if product > U128_MAX || q > U64_MAX then Err(MathOverflow) else Ok(q)
  }

  /** When both succeed, the ceiling is the floor or one more, and the two agree
      exactly when `c` divides `a * b`; a successful ceiling implies a successful floor. */
  lemma FloorCeilRelation(a: u64, b: u64, c: u64)
    requires 0 < c && MulDivCeil(a, b, c).Ok?
    ensures MulDivFloor(a, b, c).Ok?
    ensures MulDivFloor(a, b, c).value <= MulDivCeil(a, b, c).value <= MulDivFloor(a, b, c).value + 1
    ensures MulDivCeil(a, b, c).value == MulDivFloor(a, b, c).value <==> (a * b) % c == 0
  {
    var n := a * b;
    var g := MulDivCeil(a, b, c).value;
    MulLeMono(g, U64_MAX, c);
    assert n < (U64_MAX + 1) * c;
    var f := MulDivFloor(a, b, c).value;
    MulLeCancel(f, g, c);
    assert (g - 1) * c < (f + 1) * c;
    MulLtCancel(g - 1, f + 1, c);
    DivBounds(n, c);
    QuotientUnique(n, c, f);
    if n % c == 0 {
      assert n == f * c;
      MulLtCancel(g - 1, f, c);
    }
  }

  /** With `0 < c` and `b <= c` the floor variant cannot fail and never exceeds
      `a`: the bound the share/asset conversions rely on. */
  lemma FloorAtMostFirst(a: u64, b: u64, c: u64)
    requires 0 < c && b <= c
    ensures MulDivFloor(a, b, c).Ok?
    ensures MulDivFloor(a, b, c).value <= a
  {
    MulLeMono(b, c, a);
    assert a * b <= a * c;
    MulLeMono(a, U64_MAX, c);
    assert a * b < (U64_MAX + 1) * c;
    var q := MulDivFloor(a, b, c).value;
    MulLeCancel(q, a, c);
  }

  /** Dually, with `c <= b` a successful floor is at least `a`. */
  lemma FloorAtLeastFirst(a: u64, b: u64, c: u64)
    requires 0 < c <= b && MulDivFloor(a, b, c).Ok?
    ensures a <= MulDivFloor(a, b, c).value
  {
    var q := MulDivFloor(a, b, c).value;
    MulLeMono(c, b, a);
    assert a * c < (q + 1) * c;
    MulLtCancel(a, q + 1, c);
  }
}
