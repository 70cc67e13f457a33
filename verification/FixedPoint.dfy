/** Fixed-point pricing: truncating multiplication and division on 128-bit integers. */
module FixedPoint {
  import opened Machine

  const BPS_DENOM: i128 := 10_000

  /** A price: `num` units out for `denom` units in. */
  datatype Rate = Rate(num: i128, denom: i128)

  /** `q` is the quotient of `x` by `d` rounded down. */
  ghost predicate IsFloor(q: int, x: int, d: int) {
    q * d <= x < (q + 1) * d
  }

  function CheckedMulDiv(amount: i128, num: i128, denom: i128): (r: Option<i128>)
    ensures r.Some? <==> amount >= 0 && num >= 0 && denom > 0 && amount * num <= I128_MAX
    ensures r.Some? ==> r.value >= 0 && IsFloor(r.value, amount * num, denom)
  {
    if amount < 0 || num < 0 || denom <= 0 then None
    else if amount * num > I128_MAX then None
    else
      FloorBounds(amount * num, denom);
      Some(amount * num / denom)
  }

  lemma FloorBounds(x: int, d: int)
    requires 0 <= x && 0 < d
    ensures 0 <= x / d <= x && IsFloor(x / d, x, d)
  {
    QuotientBounds(x / d, x % d, x, d);
  }

  lemma QuotientBounds(q: int, m: int, x: int, d: int)
    requires 0 <= x && 0 < d && 0 <= m < d && x == d * q + m
    ensures 0 <= q <= x && IsFloor(q, x, d)
  {
    assert q * d == d * q;
    assert (q + 1) * d == q * d + d;
    if q < 0 {
      MulMono(q, -1, d);
    } else {
      MulMono(1, d, q);
    }
  }

  lemma MulMono(a: int, b: int, c: int)
    requires a <= b && 0 <= c
    ensures a * c <= b * c
  {
  }

  /** Converting at n/d and straight back at d/n never gains, and loses less than 1 + (d-1)/n. */
  lemma ThereAndBack(a: i128, n: i128, d: i128)
    requires 0 < n
    requires CheckedMulDiv(a, n, d).Some?
    requires CheckedMulDiv(CheckedMulDiv(a, n, d).value, d, n).Some?
    ensures var r := CheckedMulDiv(CheckedMulDiv(a, n, d).value, d, n).value;
            r <= a && n * (a - r) <= n + d - 2
  {
    var b := CheckedMulDiv(a, n, d).value;
    var r := CheckedMulDiv(b, d, n).value;
    assert r * n <= b * d <= a * n;
    assert b * d >= a * n - (d - 1) by { assert (b + 1) * d == b * d + d; }
    assert r * n >= b * d - (n - 1) by { assert (r + 1) * n == r * n + n; }
    assert n * (a - r) == a * n - r * n;
    if r > a {
      RoundTripGain(a, r, n);
    }
  }

  lemma RoundTripGain(a: int, r: int, n: int)
    requires 0 < n && a < r
    ensures a * n < r * n
  {
  }

  // ---- Slippage floor --------------------------------------------------------

  function MinOutWithSlippage(amount: i128, bps: i128): (r: Option<i128>)
    ensures r.Some? <==> 0 <= bps <= BPS_DENOM && 0 <= amount && amount * (BPS_DENOM - bps) <= I128_MAX
    ensures r.Some? ==> 0 <= r.value <= amount && IsFloor(r.value, amount * (BPS_DENOM - bps), BPS_DENOM)
  {
    if !(0 <= bps <= BPS_DENOM) then None else
    var r := CheckedMulDiv(amount, BPS_DENOM - bps, BPS_DENOM);
    assert r.Some? ==> r.value <= amount by {
      if r.Some? {
        MulMono(BPS_DENOM - bps, BPS_DENOM, amount);
      }
    }
    r
  }

  /** No tolerance asks for the whole amount, and full tolerance for nothing. */
  lemma MinOutExtremes(amount: i128)
    requires 0 <= amount
    ensures amount * BPS_DENOM <= I128_MAX ==> MinOutWithSlippage(amount, 0) == Some(amount)
    ensures MinOutWithSlippage(amount, BPS_DENOM) == Some(0)
  {
  }

  /** More input never lowers the floor; more tolerance never raises it. */
  lemma MinOutMonotone(a: i128, b: i128, s: i128, t: i128)
    requires a <= b && s <= t
    requires MinOutWithSlippage(a, t).Some? && MinOutWithSlippage(b, s).Some?
    ensures MinOutWithSlippage(a, t).value <= MinOutWithSlippage(b, s).value
  {
    var p, q := MinOutWithSlippage(a, t).value, MinOutWithSlippage(b, s).value;
    MulMono(a, b, BPS_DENOM - t);
    MulMono(BPS_DENOM - t, BPS_DENOM - s, b);
    assert IsFloor(p, a * (BPS_DENOM - t), BPS_DENOM);
    assert IsFloor(q, b * (BPS_DENOM - s), BPS_DENOM);
  }

  /** Splitting an order lowers its total floor by at most one unit. */
  lemma MinOutSplit(a: i128, b: i128, s: i128)
    requires 0 <= a && 0 <= b && a + b <= I128_MAX
    requires MinOutWithSlippage(a + b, s).Some?
    ensures MinOutWithSlippage(a, s).Some? && MinOutWithSlippage(b, s).Some?
    ensures var parts := MinOutWithSlippage(a, s).value + MinOutWithSlippage(b, s).value;
            parts <= MinOutWithSlippage(a + b, s).value <= parts + 1
  {
  }

  // ---- Pricing along a route ---------------------------------------------------

  /** The amount held after the first `k` conversions, or None once one of them is undefined. */
  function PriceAfter(a: i128, rates: seq<Rate>, k: nat): (r: Option<i128>)
    requires k <= |rates|
  {
    if k == 0 then Some(a) else
    var prev := PriceAfter(a, rates, k - 1);
    if prev.None? then None else CheckedMulDiv(prev.value, rates[k - 1].num, rates[k - 1].denom)
  }

  /** Product of the numerators of rates i..j. */
  ghost function Nums(rates: seq<Rate>, i: nat, j: nat): int
    requires i <= j <= |rates|
  {
    if i == j then 1 else Nums(rates, i, j - 1) * rates[j - 1].num
  }

  /** Product of the denominators of rates 0..j. */
  ghost function Denoms(rates: seq<Rate>, j: nat): int
    requires j <= |rates|
  {
    if j == 0 then 1 else Denoms(rates, j - 1) * rates[j - 1].denom
  }

  /** Sum over i < m of (d_i - 1) * (product of d_j, j < i) * (product of n_j, i < j < k). */
  ghost function RoundingLoss(rates: seq<Rate>, m: nat, k: nat): int
    requires m <= k <= |rates|
  {
    if m == 0 then 0
    else RoundingLoss(rates, m - 1, k) + (rates[m - 1].denom - 1) * Denoms(rates, m - 1) * Nums(rates, m, k)
  }

  lemma {:induction false} RoundingLossScales(rates: seq<Rate>, m: nat, k: nat)
    requires m <= k < |rates|
    ensures RoundingLoss(rates, m, k + 1) == rates[k].num * RoundingLoss(rates, m, k)
  {
    if m > 0 {
      RoundingLossScales(rates, m - 1, k);
      Distribute((rates[m - 1].denom - 1) * Denoms(rates, m - 1), Nums(rates, m, k), rates[k].num,
                 RoundingLoss(rates, m - 1, k));
      assert Nums(rates, m, k + 1) == Nums(rates, m, k) * rates[k].num;
      hide Nums, Denoms;
    }
  }

  lemma Distribute(c: int, N: int, n: int, loss: int)
    ensures n * loss + c * (N * n) == n * (loss + c * N)
  {
    assert c * (N * n) == n * (c * N);
    assert n * (loss + c * N) == n * loss + n * (c * N);
  }

  /** A defined price has passed through rates with non-negative numerators and positive denominators. */
  lemma {:induction false} PricedRates(a: i128, rates: seq<Rate>, k: nat)
    requires k <= |rates| && PriceAfter(a, rates, k).Some?
    ensures forall i :: 0 <= i < k ==> 0 <= rates[i].num && 0 < rates[i].denom
    ensures 0 < Denoms(rates, k)
  {
    if k > 0 {
      PricedRates(a, rates, k - 1);
      MulMono(1, rates[k - 1].denom, Denoms(rates, k - 1));
    }
  }

  /** Truncating at every hop stays within the accumulated loss of the exact product of the prices. */
  lemma {:induction false} TruncationBound(a: i128, rates: seq<Rate>, k: nat)
    requires k <= |rates| && PriceAfter(a, rates, k).Some?
    ensures a * Nums(rates, 0, k) - RoundingLoss(rates, k, k)
            <= PriceAfter(a, rates, k).value * Denoms(rates, k)
            <= a * Nums(rates, 0, k)
  {
    if k > 0 {
      TruncationBound(a, rates, k - 1);
      PricedRates(a, rates, k);
      PricedRates(a, rates, k - 1);
      RoundingLossScales(rates, k - 1, k - 1);
      var q, r := PriceAfter(a, rates, k - 1).value, PriceAfter(a, rates, k).value;
      HopBound(a, Nums(rates, 0, k - 1), RoundingLoss(rates, k - 1, k - 1), q,
               Denoms(rates, k - 1), rates[k - 1].num, rates[k - 1].denom, r);
      assert Nums(rates, k, k) == 1;
    }
  }

  lemma HopBound(a: int, N: int, loss: int, q: int, D: int, n: int, d: int, r: int)
    requires 0 <= n && 0 < d && 0 < D
    requires a * N - loss <= q * D <= a * N
    requires IsFloor(r, q * n, d)
    ensures a * (N * n) - (n * loss + (d - 1) * D) <= r * (D * d) <= a * (N * n)
  {
    assert (r + 1) * d == r * d + d;
    assert r * (D * d) == (r * d) * D;
    assert (q * n) * D == (q * D) * n;
    assert a * (N * n) == (a * N) * n;
    MulMono(r * d, q * n, D);
    MulMono(q * D, a * N, n);
    MulMono(q * n - (d - 1), r * d, D);
    assert (q * n - (d - 1)) * D == (q * n) * D - (d - 1) * D;
    MulMono(a * N - loss, q * D, n);
    assert (a * N - loss) * n == (a * N) * n - n * loss;
  }

  /** With unit numerators the loss telescopes to one less than the product of the denominators. */
  lemma {:induction false} UnitLoss(rates: seq<Rate>, k: nat)
    requires k <= |rates|
    requires forall i :: 0 <= i < |rates| ==> rates[i].num == 1
    ensures Nums(rates, 0, k) == 1 && RoundingLoss(rates, k, k) == Denoms(rates, k) - 1
  {
    if k > 0 {
      UnitLoss(rates, k - 1);
      RoundingLossScales(rates, k - 1, k - 1);
      var d, D := rates[k - 1].denom, Denoms(rates, k - 1);
      assert (d - 1) * D * 1 == D * d - D;
      assert Nums(rates, k, k) == 1;
    }
  }

  /** Successive truncating divisions equal one truncating division by the product. */
  lemma SuccessiveDivisions(a: i128, rates: seq<Rate>)
    requires PriceAfter(a, rates, |rates|).Some?
    requires forall i :: 0 <= i < |rates| ==> rates[i].num == 1
    ensures IsFloor(PriceAfter(a, rates, |rates|).value, a, Denoms(rates, |rates|))
  {
    TruncationBound(a, rates, |rates|);
    UnitLoss(rates, |rates|);
    PricedRates(a, rates, |rates|);
    var r, D := PriceAfter(a, rates, |rates|).value, Denoms(rates, |rates|);
    assert (r + 1) * D == r * D + D;
  }
}
