/** The two scenarios of certora/specs/inflation_attack/inflation_attack.rs,
    played on the operations of VaultOperations.

    In the attack, Bob buys shares of a vault priced 1:1, donates assets to
    inflate the share price, lets Alice buy at that price and redeems. In the
    round trip, Alice deposits into a solvent vault and redeems all her shares
    at once. Each `unwrap` of the scenarios either passes or discards the run. */
module InflationAttack {
  import opened VaultErrors
  import opened Arith
  import opened MulDiv
  import opened VaultState
  import opened VaultOperations

  /** A scenario runs to its end or stops at a failed `unwrap`. */
  datatype Trace<+T> = Completed(value: T) | Reverted {
    predicate IsFailure() {
      Reverted?
    }

    function PropagateFailure<U>(): Trace<U>
      requires Reverted?
    {
      Reverted
    }

    function Extract(): T
      requires Completed?
    {
      value
    }
  }

  /** `unwrap`: a success continues the scenario, an error ends it. */
  function Unwrap<T>(r: Result<T>): (t: Trace<T>)
    ensures t.Completed? <==> r.Ok?
    ensures r.Ok? ==> t.value == r.value
  {
    match r
    case Ok(x) => Completed(x)
    case Err(_) => Reverted
  }

  /** A user's token balance at the start and at the end of a scenario. */
  datatype Balances = Balances(pre: int, post: int)

  /** `rule_inflation_attack` up to its assertion: Bob's balance before and after. */
  function BobAttack(v: Vault, bobAssets: u64, bobDeposit: u64, bobDonation: u64, aliceAssets: u64): (t: Trace<Balances>)
    ensures t.Completed? ==>
      && t.value.pre == bobAssets
      && bobDeposit + bobDonation <= bobAssets
      && Deposit(v, bobDeposit).Ok?
      && bobAssets - bobDeposit - bobDonation <= t.value.post
  {
    var bobAfterBuy :- Unwrap(CheckedSub(bobAssets, bobDeposit));
    var bought :- Unwrap(Deposit(v, bobDeposit));
    var bobShares := bought.1.sharesToUser;
    var bobAfterDonation :- Unwrap(CheckedSub(bobAfterBuy, bobDonation));
    var inflatedTotal :- Unwrap(CheckedAdd(bought.0.assets, bobDonation));
    // raising the total to at least its current value cannot fail, so that unwrap always passes
    var inflated := UpdateReward(bought.0, inflatedTotal).value.0;
    var aliceBought :- Unwrap(Deposit(inflated, aliceAssets));
    // Alice's two checked subtractions cannot fail (the deposit banks exactly her
    // amount and charges no fee), and nothing reads her balance afterwards
    var redeemed :- Unwrap(Redeem(aliceBought.0, bobShares));
    // burning `bobShares` out of `bobShares` cannot fail either
    var bobFinal :- Unwrap(CheckedAdd(bobAfterDonation, redeemed.1.assetsToUser));
    Completed(Balances(bobAssets, bobFinal))
  }

  /** The arithmetic heart of the attack: with `P = S + d` shares over `T = P + k`
      assets, Alice buying `s = floor(m * P / T)` shares for `m` leaves Bob's `d`
      shares worth less than `d + k + 1`. It needs `S >= 1`: a vault that starts
      from nothing can be captured. */
  lemma AttackBound(S: int, d: int, k: int, m: int, s: int)
    requires 1 <= S && 0 <= d && 0 <= k && 0 <= m && 0 <= s
    requires m * (S + d) < s * (S + d + k) + (S + d + k)
    ensures d * (S + d + k + m) < (d + k + 1) * (S + d + s)
  {
    var P, T, c := S + d, S + d + k, d + k + 1;
    // what Bob's entry at 1:1 gains over the inflated price: c * P - d * T
    var D := (k + 1) * S + d;
    assert c * P == d * T + D && c <= D by {
      MulLeMono(1, S, k + 1);
    }
    var mP, sT := m * P, s * T;
    // Alice's shares are worth more than her deposit minus one share price
    assert c * (mP + 1 - T) <= c * sT by {
      ScaleLe(mP + 1 - T, sT, c);
    }
    assert d * (T + m) * T < c * (P + s) * T by {
      AttackChain(c, P, s, T, m, d, D, sT, mP);
    }
    MulLtCancel(d * (T + m), c * (P + s), T);
  }

  /** The chain of AttackBound over opaque quantities. */
  lemma AttackChain(c: int, P: int, s: int, T: int, m: int, d: int, D: int, sT: int, mP: int)
    requires 0 < T && 0 <= m && 0 < c <= D && sT == s * T && mP == m * P
    requires c * P == d * T + D && c * (mP + 1 - T) <= c * sT
    ensures d * (T + m) * T < c * (P + s) * T
  {
    ExpandWithShares(c, P, s, T, sT);
    ExpandWithDeposit(c, P, m, T, mP);
    ExpandGain(c, P, T, m, d, D);
    GainCoversPrice(c, D, T, m);
    ChainSum(c * (P + s) * T, c * P * T, c * sT, c * (mP + 1 - T), c * P * m, c, c * T, d * (T + m) * T, D * (T + m));
  }

  lemma ExpandWithShares(c: int, P: int, s: int, T: int, sT: int)
    requires sT == s * T
    ensures c * (P + s) * T == c * P * T + c * sT
  {
    assert c * (P + s) * T == c * P * T + c * (s * T);
  }

  lemma ExpandWithDeposit(c: int, P: int, m: int, T: int, mP: int)
    requires mP == m * P
    ensures c * (mP + 1 - T) == c * P * m + c - c * T
  {
    assert c * mP == c * P * m;
  }

  lemma ExpandGain(c: int, P: int, T: int, m: int, d: int, D: int)
    requires c * P == d * T + D
    ensures c * P * T + c * P * m == d * (T + m) * T + D * (T + m)
  {
    assert c * P * T + c * P * m == (c * P) * (T + m);
    SplitProduct(d, T, D, T + m);
  }

  lemma GainCoversPrice(c: int, D: int, T: int, m: int)
    requires 0 < T && 0 <= m && 0 < c <= D
    ensures c * T <= D * (T + m)
  {
    MulLeMono(c, D, T);
    MulLeMono(0, D, m);
  }

  /** The linear bookkeeping that closes AttackChain. */
  lemma ChainSum(x: int, cPT: int, csT: int, alice: int, cPm: int, c: int, cT: int, y: int, dTm: int)
    requires x == cPT + csT && alice <= csT && alice == cPm + c - cT
    requires cPT + cPm == y + dTm && cT <= dTm && 0 < c
    ensures y < x
  {
  }

  lemma SplitProduct(x: int, y: int, z: int, w: int)
    ensures (x * y + z) * w == x * w * y + z * w
  {
    assert (x * y + z) * w == x * y * w + z * w;
  }

  /** `rule_inflation_attack`: from a vault priced 1:1 with at least one share,
      Bob never ends with more than he started with, whatever he deposits and
      donates and whatever Alice deposits. */
  lemma InflationAttackNoProfit(v: Vault, bobAssets: u64, bobDeposit: u64, bobDonation: u64, aliceAssets: u64)
    requires v.shares == v.assets && 1 <= v.shares
    requires BobAttack(v, bobAssets, bobDeposit, bobDonation, aliceAssets).Completed?
    ensures BobAttack(v, bobAssets, bobDeposit, bobDonation, aliceAssets).value.post
         <= BobAttack(v, bobAssets, bobDeposit, bobDonation, aliceAssets).value.pre
  {
    var S: int, d: int, k: int, m: int := v.shares, bobDeposit, bobDonation, aliceAssets;
    var v1 := Deposit(v, d).value.0;
    assert Deposit(v, d).value.1.sharesToUser == d;
    var v2 := UpdateReward(v1, v1.assets + k).value.0;
    assert v2 == v1.(assets := S + d + k);
    var s := ConvertAssetsToShares(v2, m).value;
    var v3 := Deposit(v2, m).value.0;
    assert v3.shares == S + d + s && v3.assets == S + d + k + m;
    var out := ConvertSharesToAssets(v3, d).value;
    assert Redeem(v3, d).value.1.assetsToUser == out;
    if v3.shares != v3.assets {
      AttackBound(S, d, k, m, s);
      MulLtCancel(out, d + k + 1, S + d + s);
    }
    assert out <= d + k;
  }

  /** The commented-out claim that Bob always loses is false without a donation:
      one share over one asset, Bob and Alice each deposit one, Bob breaks even. */
  lemma AttackWithoutDonationBreaksEven()
    ensures BobAttack(NewVault().(shares := 1, assets := 1), 1, 1, 0, 1) == Completed(Balances(1, 1))
  {
  }

  /** It is false with a donation too: one share over one asset, Bob deposits 2
      and donates 1, Alice deposits 2 and buys one share at the inflated price;
      Bob's two shares then redeem for 3, exactly what he put in. */
  lemma AttackWithDonationBreaksEven()
    ensures BobAttack(NewVault().(shares := 1, assets := 1), 3, 2, 1, 2) == Completed(Balances(3, 3))
  {
    var v := NewVault().(shares := 1, assets := 1);
    var v2 := v.(shares := 3, assets := 4);
    assert ConvertAssetsToShares(v2, 2) == Ok(1);
    assert ConvertSharesToAssets(v2.(shares := 4, assets := 6), 2) == Ok(3);
  }

  /** `rule_inflation_max_loss` up to its assertions: Alice's balance before
      and after depositing `aliceAssets` and redeeming all the shares it bought. */
  function RoundTrip(v: Vault, aliceAssets: u64): (t: Trace<Balances>)
    ensures t.Completed? <==>
      && Deposit(v, aliceAssets).Ok?
      && Redeem(Deposit(v, aliceAssets).value.0, Deposit(v, aliceAssets).value.1.sharesToUser).Ok?
    ensures t.Completed? ==>
      && t.value.pre == aliceAssets
      && t.value.post == Redeem(Deposit(v, aliceAssets).value.0, Deposit(v, aliceAssets).value.1.sharesToUser).value.1.assetsToUser
  {
    var bought :- Unwrap(Deposit(v, aliceAssets));
    // her two checked subtractions leave exactly 0 (the deposit banks her whole
    // amount, with no fee), so neither can fail
    var aliceLeft := aliceAssets - bought.1.assetsToVault - bought.1.assetsToFee;
    var redeemed :- Unwrap(Redeem(bought.0, bought.1.sharesToUser));
    // adding the payout to that zero balance cannot overflow
    Completed(Balances(aliceAssets, aliceLeft + redeemed.1.assetsToUser))
  }

  /** `share_price_pre`: the asset count per share rounded up. The division by a
      zero share count has an arbitrary result in the rule's logic: `atZero`. */
  function SharePrice(v: Vault, atZero: int): (price: int)
    ensures v.shares == 0 ==> price == atZero
    ensures 0 < v.shares ==> 0 <= price && price * v.shares - v.shares < v.assets <= price * v.shares
  {
    if v.shares == 0 then atZero else DivCeil(v.assets, v.shares)
  }

  /** The first assertion of `rule_inflation_max_loss`: on a solvent vault a
      deposit followed by a full redeem never makes a profit. */
  lemma RoundTripNoProfit(v: Vault, aliceAssets: u64)
    requires IsSolvent(v) && RoundTrip(v, aliceAssets).Completed?
    ensures RoundTrip(v, aliceAssets).value.post <= RoundTrip(v, aliceAssets).value.pre
  {
    var S: int, A: int, m: int := v.shares, v.assets, aliceAssets;
    var s: int := ConvertAssetsToShares(v, m).value;
    var v1 := Deposit(v, m).value.0;
    var out: int := ConvertSharesToAssets(v1, s).value;
    assert RoundTrip(v, m).value.post == out;
    if S != A && v1.shares != v1.assets {
      AliceNoProfit(S, A, m, s, out);
    }
  }

  /** Alice's `s` shares, bought at or above the vault's price, redeem at the
      new price for at most what she paid. */
  lemma AliceNoProfit(S: int, A: int, m: int, s: int, out: int)
    requires 0 < S + s
    requires s * A <= m * S && out * (S + s) <= s * (A + m)
    ensures out <= m
  {
    assert s * (A + m) == s * A + s * m;
    assert m * (S + s) == m * S + m * s;
    MulLeCancel(out, m, S + s);
  }

  /** Alice's shares are worth at least her deposit less one share price, so she
      gets back all but strictly less than one rounded-up share price. */
  lemma AliceBound(S: int, A: int, m: int, s: int, p: int, out: int)
    requires 1 <= S && 0 <= s && 0 <= p
    requires m * S < s * A + A && A <= p * S
    requires s * (A + m) < out * (S + s) + (S + s)
    ensures m - p <= out
  {
    assert s * (A + m) - (m - p) * (S + s) == (s * A - m * S) + p * S + p * s;
    MulLeMono(0, p, s);
    assert (m - p) * (S + s) < (out + 1) * (S + s);
    MulLtCancel(m - p, out + 1, S + s);
  }

  /** The last assertion of `rule_inflation_max_loss`: on a solvent vault with
      shares, the round trip loses at most one share price rounded up. */
  lemma RoundTripLossBound(v: Vault, aliceAssets: u64, atZero: int)
    requires IsSolvent(v) && 0 < v.shares && RoundTrip(v, aliceAssets).Completed?
    ensures RoundTrip(v, aliceAssets).value.post + SharePrice(v, atZero) >= RoundTrip(v, aliceAssets).value.pre
  {
    var S: int, A: int, m: int := v.shares, v.assets, aliceAssets;
    var p: int := DivCeil(A, S);
    var s: int := ConvertAssetsToShares(v, m).value;
    var v1 := Deposit(v, m).value.0;
    var out: int := ConvertSharesToAssets(v1, s).value;
    assert RoundTrip(v, m).value.post == out;
    if S != A && v1.shares != v1.assets {
      AliceBound(S, A, m, s, p, out);
    }
  }

  /** On a vault with no shares a round trip that completes is exact: a deposit
      can only succeed there when the vault holds no assets either, and then it
      trades 1:1 both ways. So the rule's last assertion holds there exactly when
      the arbitrary price of a zero share count is not negative. */
  lemma RoundTripExactWithoutShares(v: Vault, aliceAssets: u64)
    requires v.shares == 0 && RoundTrip(v, aliceAssets).Completed?
    ensures v.assets == 0
    ensures RoundTrip(v, aliceAssets).value.post == RoundTrip(v, aliceAssets).value.pre
  {
  }

  /** The two commented-out claims of `rule_inflation_max_loss`, "no loss" and
      "loss of at most one atom", are both false: one share over ten assets,
      Alice deposits 19, gets 1 share, and redeems it for 14. The proved bound
      of one share price (10) does cover that loss of 5. */
  lemma RoundTripLosesMoreThanOneAtom()
    ensures RoundTrip(NewVault().(shares := 1, assets := 10), 19) == Completed(Balances(19, 14))
    ensures SharePrice(NewVault().(shares := 1, assets := 10), 0) == 10
  {
    var v := NewVault().(shares := 1, assets := 10);
    assert ConvertAssetsToShares(v, 19) == Ok(1);
    assert ConvertSharesToAssets(v.(shares := 2, assets := 29), 1) == Ok(14);
  }
}
