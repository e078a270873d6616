/** The transaction cost model: fees, half spread and tiered market impact. */
module Costs {
  import opened Common

  const SEC_FEE_RATE := 0.0000278
  const FINRA_TAF_PER_SHARE := 0.000166
  const FINRA_TAF_MAX := 8.30
  const MIN_NOTIONAL := 0.000000001

  datatype Side = Buy | Sell

  datatype TradeCosts = TradeCosts(secFee: real, finraTaf: real, spreadCost: real, slippage: real, total: real)

  datatype CostModel = CostModel(spreadBpsDefault: real, slippageBpsBase: real) {
    function ImpactBps(advRatio: real): real {
      if advRatio < 0.005 then slippageBpsBase
      else if advRatio < 0.010 then slippageBpsBase + 2.0
      else if advRatio < 0.020 then slippageBpsBase + 5.0
      else slippageBpsBase + 10.0
    }

    function Spread(spreadBps: Option<real>): real {
      if spreadBps.Some? then spreadBps.value else spreadBpsDefault
    }

    function EstimateOneWay(
      side: Side, notionalUsd: real, shares: real, advUsd: real, spreadBps: Option<real>): TradeCosts {
      var notional := Max(notionalUsd, MIN_NOTIONAL);
      var secFee := if side.Sell? then notional * SEC_FEE_RATE else 0.0;
      var taf := if side.Sell? then Min(shares * FINRA_TAF_PER_SHARE, FINRA_TAF_MAX) else 0.0;
      var spreadCost := notional * (Spread(spreadBps) / 2.0) / 10000.0;
      var slippage := notional * ImpactBps(notional / Max(advUsd, 1.0)) / 10000.0;
      TradeCosts(secFee, taf, spreadCost, slippage, secFee + taf + spreadCost + slippage)
    }

    function ApplyFillPrice(
      nominal: real, side: Side, advUsd: real, orderNotional: real, spreadBps: Option<real>): real {
      var bps := Spread(spreadBps) / 2.0 + ImpactBps(orderNotional / Max(advUsd, 1.0));
      var adjustment := nominal * bps / 10000.0;
      if side.Buy? then nominal + adjustment else nominal - adjustment
    }

    /** The largest adverse fraction that spread and impact can reach together. */
    function WorstFraction(spreadBps: Option<real>): real {
      (Spread(spreadBps) / 2.0 + slippageBpsBase + 10.0) / 10000.0
    }

    /** No part of the model is negative. */
    predicate Charges(spreadBps: Option<real>) {
      slippageBpsBase >= 0.0 && Spread(spreadBps) >= 0.0
    }
  }

  /** A buyer pays at least the nominal price and at most the worst fraction above it; a seller mirrors that. */
  lemma {:induction false} FillPriceBounds(m: CostModel, nominal: real, adv: real, notional: real, spread: Option<real>)
    requires m.Charges(spread) && nominal >= 0.0
    ensures nominal <= m.ApplyFillPrice(nominal, Buy, adv, notional, spread) <=
            Part(nominal, 1.0 + m.WorstFraction(spread))
    ensures Part(nominal, 1.0 - m.WorstFraction(spread)) <= m.ApplyFillPrice(nominal, Sell, adv, notional, spread) <=
            nominal
  {
    var ratio := notional / Max(adv, 1.0);
    var bps, worst := m.Spread(spread) / 2.0 + m.ImpactBps(ratio), m.WorstFraction(spread);
    ScaleUp(nominal, 0.0, bps);
    ScaleUp(nominal, bps, worst * 10000.0);
    assert nominal * (worst * 10000.0) / 10000.0 == nominal * worst;
    assert nominal * (1.0 + worst) == nominal + nominal * worst;
    assert nominal * (1.0 - worst) == nominal - nominal * worst;
  }

  /** A purchase costs something, and at most the worst fraction of its notional. */
  lemma {:induction false} PurchaseCostBounds(
    m: CostModel, notionalUsd: real, shares: real, adv: real, spread: Option<real>)
    requires m.Charges(spread)
    ensures 0.0 <= m.EstimateOneWay(Buy, notionalUsd, shares, adv, spread).total
              <= Part(Max(notionalUsd, MIN_NOTIONAL), m.WorstFraction(spread))
  {
    var n := Max(notionalUsd, MIN_NOTIONAL);
    var ratio := n / Max(adv, 1.0);
    var half, impact := m.Spread(spread) / 2.0, m.ImpactBps(ratio);
    ScaleUp(n, 0.0, half);
    ScaleUp(n, 0.0, impact);
    ScaleUp(n, half + impact, m.WorstFraction(spread) * 10000.0);
    assert n * (half + impact) == n * half + n * impact;
    assert n * (m.WorstFraction(spread) * 10000.0) / 10000.0 == n * m.WorstFraction(spread);
  }

  /** A sale is charged what a purchase of the same notional is, plus the regulatory fees. */
  lemma {:induction false} SaleCostsMore(m: CostModel, notionalUsd: real, shares: real, adv: real, spread: Option<real>)
    requires shares >= 0.0
    ensures m.EstimateOneWay(Buy, notionalUsd, shares, adv, spread).total
         <= m.EstimateOneWay(Sell, notionalUsd, shares, adv, spread).total
         <= m.EstimateOneWay(Buy, notionalUsd, shares, adv, spread).total
            + Max(notionalUsd, MIN_NOTIONAL) * SEC_FEE_RATE + FINRA_TAF_MAX
  {
    assert shares * FINRA_TAF_PER_SHARE >= 0.0;
  }

  /** What the impact adds to the base, one step at a time as the share of the daily volume grows. */
  function StepsUp(advRatio: real): real {
    (if advRatio >= 0.005 then 2.0 else 0.0) + (if advRatio >= 0.01 then 3.0 else 0.0)
    + (if advRatio >= 0.02 then 5.0 else 0.0)
  }

  /** The fraction that spread and impact take, from the order's share of the daily volume. */
  function Fraction(m: CostModel, notional: real, adv: real, spread: Option<real>): real {
    var fullSpread := if spread.None? then m.spreadBpsDefault else spread.value;
    (fullSpread / 2.0 + m.slippageBpsBase + StepsUp(notional / Max(adv, 1.0))) / 10000.0
  }

  /**
   Prices and costs agree: a buyer's price lies above the nominal one by the very fraction that a purchase of
   the notional is charged, a seller's below it by as much, and a sale is charged the regulatory fees on top.
   Costs take a notional below a billionth of a dollar for that much.
   */
  lemma {:induction false} OneFraction(
    m: CostModel, nominal: real, notional: real, shares: real, adv: real, spread: Option<real>)
    ensures var f := Fraction(m, notional, adv, spread);
            && m.ApplyFillPrice(nominal, Buy, adv, notional, spread) == Part(nominal, 1.0 + f)
            && m.ApplyFillPrice(nominal, Sell, adv, notional, spread) == Part(nominal, 1.0 - f)
    ensures var n := Max(notional, 0.000000001);
            var f := Fraction(m, n, adv, spread);
            && m.EstimateOneWay(Buy, notional, shares, adv, spread).total == Part(n, f)
            && m.EstimateOneWay(Sell, notional, shares, adv, spread).total
               == Part(n, f) + Part(n, 0.0000278) + Min(Part(shares, 0.000166), 8.30)
  {
    var n := Max(notional, MIN_NOTIONAL);
    var half, impact := m.Spread(spread) / 2.0, m.ImpactBps(n / Max(adv, 1.0));
    assert n * (half + impact) == n * half + n * impact;
  }

}
