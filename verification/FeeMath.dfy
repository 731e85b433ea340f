/** Integer fee arithmetic: relay fees rounded down, gas costs rounded up, and the two agreeing. */
module FeeMath {
  import opened Wrappers

  const FEE_BPS_DENOMINATOR: int := 10_000
  const SETTLE_GAS: int := 800_000
  const CLAIM_GAS: int := 300_000
  const DEFAULT_GAS_PRICE: int := 30_000_000_000
  const SCALE: int := 1_000_000_000_000_000_000

  /** BigInt division: towards zero, for either sign. */
  function TruncDiv(a: int, b: int): int
    requires b != 0
  {
    if a >= 0 then (if b > 0 then a / b else -(a / -b))
    else if b > 0 then -(-a / b) else -a / -b
  }

  function CeilDiv(a: int, b: int): int
    requires b != 0
  {
    TruncDiv(a + b - 1, b)
  }

  function Pow10(n: nat): (p: int)
    ensures p >= 1
  {
    if n == 0 then 1 else 10 * Pow10(n - 1)
  }

  datatype Fee = Fee(fee: int, net: int)

  function ApplyFee(gross: int, bps: int): Fee {
    var fee := TruncDiv(gross * bps, FEE_BPS_DENOMINATOR);
    Fee(fee, if gross > fee then gross - fee else 0)
  }

  datatype GasEstimate = GasEstimate(minFeeBps: int, gasCostToken: int,
                                     settleGasWei: int, claimGasWei: int, totalGasWei: int)

  /**
   The estimate from the node's gas price, if it gave one, and from the token price, if it is usable:
   tokens per ETH scaled by 10^18.
   */
  function Estimate(gasPrice: Option<int>, claimCount: int, sellAmount: int,
                    tokenPerEth: Option<int>, decimals: nat): GasEstimate {
    if sellAmount <= 0 || tokenPerEth.None? then GasEstimate(0, 0, 0, 0, 0)
    else
      var price := if gasPrice.Some? then gasPrice.value else DEFAULT_GAS_PRICE;
      var total := SETTLE_GAS * price + CLAIM_GAS * price * (if claimCount > 1 then claimCount else 1);
      var cost := CeilDiv(total * tokenPerEth.value * Pow10(decimals), SCALE * SCALE);
      GasEstimate(CeilDiv(cost * FEE_BPS_DENOMINATOR, sellAmount), cost, SETTLE_GAS * price, CLAIM_GAS * price, total)
  }

  datatype MarketAmounts = MarketAmounts(buyAmount: int, minReceive: int)

  /** Amounts after both human-readable numbers are parsed to integers. */
  function ComputeMarketAmounts(sell: int, price: int, sellDecimals: nat, slippageBps: int): MarketAmounts {
    var buy := TruncDiv(sell * price, Pow10(sellDecimals));
    MarketAmounts(buy, TruncDiv(buy * (10_000 - slippageBps), 10_000))
  }

  // ---- Rounding ----

  lemma FloorDiv(a: int, b: int)
    requires a >= 0 && b > 0
    ensures TruncDiv(a, b) >= 0 && TruncDiv(a, b) * b <= a < (TruncDiv(a, b) + 1) * b
  {
    var q := a / b;
    assert a == q * b + a % b;
    assert (q + 1) * b == q * b + b;
  }

  /** Division rounds towards zero: either sign comes out of the quotient. */
  lemma TruncatesTowardsZero(a: int, b: int)
    requires b != 0
    ensures TruncDiv(-a, b) == -TruncDiv(a, b) && TruncDiv(a, -b) == -TruncDiv(a, b)
  {
  }

  lemma Scaled(a: int, b: int, k: int)
    requires a <= b && k >= 0
    ensures a * k <= b * k
  {
  }

  lemma Between(q: int, c: int, b: int)
    requires b > 0
    ensures q >= c <==> q * b >= c * b
    ensures q * b > (c - 1) * b <==> q >= c
  {
    if q >= c {
      Scaled(c, q, b);
      assert (c - 1) * b == c * b - b;
    } else {
      Scaled(q, c - 1, b);
      assert (c - 1) * b == c * b - b;
    }
  }

  /** Rounding down: the quotient reaches `c` exactly when the dividend reaches `c` divisors. */
  lemma FloorReaches(a: int, b: int, c: int)
    requires a >= 0 && b > 0
    ensures TruncDiv(a, b) >= c <==> a >= c * b
  {
    var q := TruncDiv(a, b);
    FloorDiv(a, b);
    Between(q, c, b);
    Between(q + 1, c + 1, b);
    if q < c {
      Between(c, q + 1, b);
    }
  }

  /** Rounding up: the least number of divisors that reaches the dividend. */
  lemma CeilIsLeast(a: int, b: int, c: int)
    requires a >= 0 && b > 0
    ensures CeilDiv(a, b) >= 0
    ensures c >= CeilDiv(a, b) <==> c * b >= a
  {
    var q := CeilDiv(a, b);
    FloorDiv(a + b - 1, b);
    assert (q + 1) * b == q * b + b;
    Between(c, q, b);
    if c < q {
      Between(q, c + 1, b);
      assert (c + 1) * b == c * b + b;
    }
  }

  // ---- The fee covers the gas exactly from the minimum on ----

  /**
   For a positive sell amount and any non-negative rate, the floored relay fee covers the gas cost
   exactly when the rate is at least the estimated minimum.
   */
  lemma FeeCoversGas(gasPrice: Option<int>, claimCount: int, sellAmount: int,
                     tokenPerEth: Option<int>, decimals: nat, bps: int)
    requires sellAmount > 0 && tokenPerEth.Some? && tokenPerEth.value >= 0 && bps >= 0
    requires gasPrice.Some? ==> gasPrice.value >= 0
    ensures var e := Estimate(gasPrice, claimCount, sellAmount, tokenPerEth, decimals);
      ApplyFee(sellAmount, bps).fee >= e.gasCostToken <==> bps >= e.minFeeBps
  {
    var e := Estimate(gasPrice, claimCount, sellAmount, tokenPerEth, decimals);
    GasCostIsLeast(gasPrice, claimCount, sellAmount, tokenPerEth, decimals, e.gasCostToken);
    FloorReaches(sellAmount * bps, FEE_BPS_DENOMINATOR, e.gasCostToken);
    CeilIsLeast(e.gasCostToken * FEE_BPS_DENOMINATOR, sellAmount, bps);
  }

  /** The gas cost is the least token amount worth the gas: scaled up, it reaches the exact product. */
  lemma GasCostIsLeast(gasPrice: Option<int>, claimCount: int, sellAmount: int,
                       tokenPerEth: Option<int>, decimals: nat, amount: int)
    requires sellAmount > 0 && tokenPerEth.Some? && tokenPerEth.value >= 0
    requires gasPrice.Some? ==> gasPrice.value >= 0
    ensures var e := Estimate(gasPrice, claimCount, sellAmount, tokenPerEth, decimals);
      && e.gasCostToken >= 0
      && (claimCount >= 1 ==> e.totalGasWei == e.settleGasWei + claimCount * e.claimGasWei)
      && (claimCount < 1 ==> e.totalGasWei == e.settleGasWei + e.claimGasWei)
      && (amount >= e.gasCostToken <==>
          amount * (SCALE * SCALE) >= e.totalGasWei * tokenPerEth.value * Pow10(decimals))
  {
    var e := Estimate(gasPrice, claimCount, sellAmount, tokenPerEth, decimals);
    var claims := if claimCount > 1 then claimCount else 1;
    NonNegative(e.claimGasWei, claims);
    assert e.totalGasWei == e.settleGasWei + claims * e.claimGasWei;
    NonNegative(e.totalGasWei, tokenPerEth.value);
    NonNegative(e.totalGasWei * tokenPerEth.value, Pow10(decimals));
    CeilIsLeast(e.totalGasWei * tokenPerEth.value * Pow10(decimals), SCALE * SCALE, amount);
  }

  lemma NonNegative(a: int, b: int)
    requires a >= 0 && b >= 0
    ensures a * b >= 0
  {
  }

  /** Settling is priced as 800,000 units of gas and each claim as 300,000, at 30 gwei where no price is known. */
  lemma GasIsPriced(gasPrice: Option<int>, claimCount: int, sellAmount: int, tokenPerEth: Option<int>, decimals: nat)
    ensures var e := Estimate(gasPrice, claimCount, sellAmount, tokenPerEth, decimals);
      var price := if gasPrice.Some? then gasPrice.value else 30_000_000_000;
      if sellAmount > 0 && tokenPerEth.Some?
      then e.settleGasWei == 800_000 * price && e.claimGasWei == 300_000 * price
      else e == GasEstimate(0, 0, 0, 0, 0)
  {
  }

  // ---- The amount the trader is shown ----

  /**
   The doubly floored minimum is never above the exact one and less than two units below it: with
   the exact minimum being `sell * price * keep / (unit * 10000)`, for slippage from none to all.
   */
  lemma MinReceiveIsTight(sell: int, price: int, sellDecimals: nat, slippageBps: int)
    requires sell >= 0 && price >= 0 && 0 <= slippageBps <= 10_000
    ensures var min := ComputeMarketAmounts(sell, price, sellDecimals, slippageBps).minReceive;
      var exact, unit := sell * price * (10_000 - slippageBps), Pow10(sellDecimals) * 10_000;
      min >= 0 && min * unit <= exact < (min + 2) * unit
  {
    var p, keep, product := Pow10(sellDecimals), 10_000 - slippageBps, sell * price;
    NonNegative(sell, price);
    FloorDiv(product, p);
    var buy := TruncDiv(product, p);
    NonNegative(buy, keep);
    FloorDiv(buy * keep, 10_000);
    TwoFloors(product, p, keep, buy, TruncDiv(buy * keep, 10_000));
  }

  /** The amount to buy is what the sold units are worth, rounded down. */
  lemma BuyAmountIsFloor(sell: int, price: int, sellDecimals: nat, slippageBps: int)
    requires sell >= 0 && price >= 0
    ensures var buy, unit := ComputeMarketAmounts(sell, price, sellDecimals, slippageBps).buyAmount, Pow10(sellDecimals);
      buy >= 0 && buy * unit <= sell * price < (buy + 1) * unit
  {
    NonNegative(sell, price);
    FloorDiv(sell * price, Pow10(sellDecimals));
  }

  lemma TwoFloors(product: int, p: int, keep: int, buy: int, min: int)
    requires p > 0 && 0 <= keep <= 10_000
    requires buy * p <= product < (buy + 1) * p
    requires min * 10_000 <= buy * keep < (min + 1) * 10_000
    ensures min * (p * 10_000) <= product * keep < (min + 2) * (p * 10_000)
  {
    FloorsBelow(product, p, keep, buy, min);
    FloorsAbove(product, p, keep, buy, min);
  }

  lemma FloorsBelow(product: int, p: int, keep: int, buy: int, min: int)
    requires p > 0 && keep >= 0 && buy * p <= product && min * 10_000 <= buy * keep
    ensures min * (p * 10_000) <= product * keep
  {
    calc {
      min * (p * 10_000);
      min * 10_000 * p;
    <= { Scaled(min * 10_000, buy * keep, p); }
      buy * keep * p;
      buy * p * keep;
    <= { Scaled(buy * p, product, keep); }
      product * keep;
    }
  }

  lemma FloorsAbove(product: int, p: int, keep: int, buy: int, min: int)
    requires p > 0 && 0 <= keep <= 10_000 && product < (buy + 1) * p && buy * keep < (min + 1) * 10_000
    ensures product * keep < (min + 2) * (p * 10_000)
  {
    calc {
      product * keep;
    <= { Scaled(product, (buy + 1) * p, keep); }
      (buy + 1) * p * keep;
      { Regroup(buy, p, keep); }
      (buy * keep + keep) * p;
    <= { Scaled(buy * keep + keep, (min + 2) * 10_000 - 1, p); }
      ((min + 2) * 10_000 - 1) * p;
      { Regroup(min + 1, 10_000, p); }
      (min + 2) * (p * 10_000) - p;
    }
  }

  lemma Regroup(a: int, p: int, k: int)
    ensures (a + 1) * p * k == (a * k + k) * p
    ensures ((a + 1) * p - 1) * k == (a + 1) * (k * p) - k
  {
    assert (a + 1) * p * k == (a + 1) * (p * k) == (a + 1) * (k * p) == (a + 1) * k * p;
    assert (a + 1) * k == a * k + k;
  }

  /** Fee and net always make up the gross amount, for every rate that is a fraction of it. */
  lemma FeeAndNetAddUp(gross: int, bps: int)
    requires gross >= 0 && bps >= 0
    ensures ApplyFee(gross, bps).fee + ApplyFee(gross, bps).net == gross
      <==> gross * bps < (gross + 1) * 10_000
    ensures bps <= 10_000 ==>
      ApplyFee(gross, bps).fee + ApplyFee(gross, bps).net == gross
    ensures ApplyFee(gross, bps).net >= 0
  {
    NonNegative(gross, bps);
    FloorReaches(gross * bps, FEE_BPS_DENOMINATOR, gross + 1);
    if bps <= FEE_BPS_DENOMINATOR {
      Scaled(bps, FEE_BPS_DENOMINATOR, gross);
      assert gross * bps == bps * gross;
    }
  }
}
