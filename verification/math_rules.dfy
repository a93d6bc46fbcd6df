/** The equivalence rules of certora/specs/utils_math.rs, which compare the
    native mul-div of utils/math.rs (`u128` arithmetic, `MulDiv`) with the
    verification build's variant, which computes the exact quotient over
    unbounded integers and accepts it when it fits in a `u64`.

    The exact quotient is defined here independently, by repeated subtraction,
    so the rules relate two genuinely different definitions. In the logic of
    the verification build a division by zero has an arbitrary result; that
    result is the parameter `atZero`. */
module MathRules {
  import opened VaultErrors
  import opened Arith
  import opened MulDiv

  /** How many times `d` can be taken from `n`. */
  function QuotientBySubtraction(n: nat, d: nat): nat
    requires 0 < d
    decreases n
  {
    if n < d then 0 else 1 + QuotientBySubtraction(n - d, d)
  }

  /** Repeated subtraction computes the floor quotient. */
  lemma {:induction false} QuotientBySubtractionIsFloor(n: nat, d: nat)
    requires 0 < d
    ensures QuotientBySubtraction(n, d) * d <= n < QuotientBySubtraction(n, d) * d + d
    decreases n
  {
    if n >= d {
      QuotientBySubtractionIsFloor(n - d, d);
      var q := QuotientBySubtraction(n - d, d);
      assert (1 + q) * d == q * d + d;
    }
  }

  /** `is_u64` followed by `u64::from`, or `MathOverflow`. */
  function Narrow(x: int): (r: Result<u64>)
    ensures r.Ok? <==> 0 <= x <= U64_MAX
    ensures r.Ok? ==> r.value == x
    ensures r.Err? ==> r.error == MathOverflow
  {
    if 0 <= x <= U64_MAX then Ok(x) else Err(MathOverflow)
  }

  /** `math_certora::mul_div_floor`: the exact floor quotient `a * b / c`. */
  function ExactMulDivFloor(a: u64, b: u64, c: u64, atZero: int): (r: Result<u64>)
    ensures 0 < c && r.Ok? ==> r.value * c <= a * b < r.value * c + c
    ensures r.Err? ==> r.error == MathOverflow
  {
    if c == 0 then Narrow(atZero)
    else
      QuotientBySubtractionIsFloor(a * b, c);
      Narrow(QuotientBySubtraction(a * b, c))
  }

  /** `math_certora::mul_div_ceil`: the exact ceiling quotient, the floor of
      `(a * b + c - 1) / c`. */
  function ExactMulDivCeil(a: u64, b: u64, c: u64, atZero: int): (r: Result<u64>)
    ensures 0 < c && r.Ok? ==> r.value * c - c < a * b <= r.value * c
    ensures r.Err? ==> r.error == MathOverflow
  {
    if c == 0 then Narrow(atZero)
    else
      QuotientBySubtractionIsFloor(a * b + c - 1, c);
      Narrow(QuotientBySubtraction(a * b + c - 1, c))
  }

  /** `mul_div_floor_equiv_ok`: whenever both variants succeed they agree. With
      `c == 0` the native variant fails, so no assumption on `c` is needed. */
  lemma MulDivFloorEquivOk(a: u64, b: u64, c: u64, atZero: int)
    ensures MulDivFloor(a, b, c).Ok? && ExactMulDivFloor(a, b, c, atZero).Ok? ==>
      MulDivFloor(a, b, c).value == ExactMulDivFloor(a, b, c, atZero).value
  {
    if MulDivFloor(a, b, c).Ok? && ExactMulDivFloor(a, b, c, atZero).Ok? {
      QuotientUnique(a * b, c, MulDivFloor(a, b, c).value);
      QuotientUnique(a * b, c, ExactMulDivFloor(a, b, c, atZero).value);
    }
  }

  /** `mul_div_floor_equiv_err`: for a nonzero divisor both fail on the same inputs. */
  lemma MulDivFloorEquivErr(a: u64, b: u64, c: u64, atZero: int)
    requires 0 < c
    ensures MulDivFloor(a, b, c).Err? <==> ExactMulDivFloor(a, b, c, atZero).Err?
  {
    var n := a * b;
    QuotientBySubtractionIsFloor(n, c);
    var q := QuotientBySubtraction(n, c);
    QuotientUnique(n, c, q);
    DivLtIff(n, c, U64_MAX + 1);
  }

  /** Without the rule's assumption `c > 0` the error rule would fail: at a zero
      divisor the native variant reports an error while the exact one returns
      whatever the logic chooses. */
  lemma FloorErrNeedsNonzeroDivisor()
    ensures MulDivFloor(1, 1, 0).Err? && ExactMulDivFloor(1, 1, 0, 0).Ok?
  {
  }

  /** `mul_div_ceil_equiv_ok`: whenever both variants succeed they agree. */
  lemma MulDivCeilEquivOk(a: u64, b: u64, c: u64, atZero: int)
    requires 0 < c
    ensures MulDivCeil(a, b, c).Ok? && ExactMulDivCeil(a, b, c, atZero).Ok? ==>
      MulDivCeil(a, b, c).value == ExactMulDivCeil(a, b, c, atZero).value
  {
    if MulDivCeil(a, b, c).Ok? && ExactMulDivCeil(a, b, c, atZero).Ok? {
      var n := a * b + c - 1;
      var g := MulDivCeil(a, b, c).value;
      var e := ExactMulDivCeil(a, b, c, atZero).value;
      assert g * c <= n < g * c + c;
      assert e * c <= n < e * c + c;
      QuotientUnique(n, c, g);
      QuotientUnique(n, c, e);
    }
  }

  /** A ceiling quotient `q` of `n` by `c` fits in a `u64` exactly when `n` is
      at most `U64_MAX * c`. */
  lemma CeilFitsIff(n: int, c: int, q: int)
    requires 0 < c && q * c - c < n <= q * c
    ensures q <= U64_MAX <==> n <= U64_MAX * c
  {
    if q <= U64_MAX {
      ScaleLe(q, U64_MAX, c);
    } else {
      ScaleLe(U64_MAX, q - 1, c);
      assert (q - 1) * c == q * c - c;
    }
  }

  /** `mul_div_ceil_equiv_err`: for a nonzero divisor both fail on the same inputs. */
  lemma MulDivCeilEquivErr(a: u64, b: u64, c: u64, atZero: int)
    requires 0 < c
    ensures MulDivCeil(a, b, c).Err? <==> ExactMulDivCeil(a, b, c, atZero).Err?
  {
    var n: int := a * b;
    var q: int := QuotientBySubtraction(n + c - 1, c);
    assert q * c - c < n <= q * c by {
      QuotientBySubtractionIsFloor(n + c - 1, c);
    }
    assert q <= U64_MAX <==> n <= U64_MAX * c by {
      CeilFitsIff(n, c, q);
    }
  }
}
