/** The basis-points fee type `FeeBps`. state.rs imports it from utils/math.rs,
    which does not define it, so this module is an ASSUMPTION about it, built from
    its call sites: a fee is a `u64` of at most 10 000 basis points, built by a
    conversion from `u64` that fails with `GuardFail` above that bound, and
    `apply` splits a gross amount into a floor-rounded fee and the net remainder. */
module FeeBpsModel {
  import opened VaultErrors
  import opened Arith
  import opened MulDiv

  /** 100% in basis points; also the bound the harness puts on `fee_bps`. */
  const MAX_FEE_BPS: u64 := 10_000

  type FeeBps = x: u64 | x <= MAX_FEE_BPS

  /** The result of `FeeBps::apply`. */
  datatype Gross = Gross(netAmount: u64, fee: u64)

  /** `impl TryFrom<u64> for FeeBps`. */
  function FeeBpsTryFrom(x: u64): (r: Result<FeeBps>)
    ensures r.Ok? <==> x <= MAX_FEE_BPS
    ensures r.Ok? ==> r.value == x
    ensures r.Err? ==> r.error == GuardFail
  {
    if x <= MAX_FEE_BPS then Ok(x) else Err(GuardFail)
  }

  /** `FeeBps::apply(amount)`, assumed to be `fee = mul_div_floor(amount, bps, 10_000)`
      and `net_amount = amount - fee` by a checked subtraction. It never fails, the
      two parts add up to the amount, and the fee is the floor of `amount * bps / 10_000`. */
  function Apply(bps: FeeBps, amount: u64): (r: Result<Gross>)
    ensures r.Ok?
    ensures r.value.netAmount + r.value.fee == amount
    ensures r.value.fee * MAX_FEE_BPS <= amount * bps < r.value.fee * MAX_FEE_BPS + MAX_FEE_BPS
  {
    // neither `?` of the source can fire: the floor fee exists and is at most the amount
    FloorAtMostFirst(amount, bps, MAX_FEE_BPS);
    var fee := MulDivFloor(amount, bps, MAX_FEE_BPS).value;
    var net := CheckedSub(amount, fee).value;
    Ok(Gross(net, fee))
  }

  /** The fee grows with the amount it is taken from: the fee recomputed on a
      smaller actual debit never exceeds the fee on the requested amount. */
  lemma ApplyMonotone(bps: FeeBps, x: u64, y: u64)
    requires x <= y
    ensures Apply(bps, x).value.fee <= Apply(bps, y).value.fee
  {
    var fx := Apply(bps, x).value.fee;
    var fy := Apply(bps, y).value.fee;
    MulLeMono(x, y, bps);
    assert fx * MAX_FEE_BPS < (fy + 1) * MAX_FEE_BPS;
    MulLtCancel(fx, fy + 1, MAX_FEE_BPS);
  }
}
