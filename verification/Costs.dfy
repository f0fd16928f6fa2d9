/** Fees and FX spread, `src/backtest/costs.py`. */
module Costs {
  import opened Numbers

  datatype Side = Buy | Sell

  datatype Role = Maker | Taker

  /** Fees are percentages, the FX spread is in basis points. */
  datatype CostModel = CostModel(makerFee: real, takerFee: real, fxSpreadBps: real) {

    function ApplyTradeCost(price: real, side: Side, role: Role, size: real): real {
      var feeCost := price * ((if role == Maker then makerFee else takerFee) / 100.0) * size;
      if side == Buy then price + feeCost else price - feeCost
    }

    function ApplyFxCost(price: real, side: Side, size: real): real {
      var spread := fxSpreadBps / 10000.0;
      if side == Buy then price * (1.0 + spread) * size else price * (1.0 - spread) * size
    }

    /** The range in which a sale still yields something and a purchase never gets cheaper. */
    ghost predicate Sane() {
      0.0 <= takerFee < 100.0 && 0.0 <= fxSpreadBps < 10000.0
    }
  }

  /** The price per unit that the backtester books for one side of a trade. */
  function Costed(model: Option<CostModel>, price: real, side: Side): real {
    match model
    case None => price
    case Some(m) => m.ApplyFxCost(m.ApplyTradeCost(price, side, Taker, 1.0), side, 1.0)
  }

  /** The shares by which the fee and the spread move a price against the trader. */
  ghost function FeeFactor(model: Option<CostModel>, side: Side): real {
    if model.None? then 1.0
    else if side == Buy then 1.0 + model.value.takerFee / 100.0
    else 1.0 - model.value.takerFee / 100.0
  }

  ghost function SpreadFactor(model: Option<CostModel>, side: Side): real {
    if model.None? then 1.0
    else if side == Buy then 1.0 + model.value.fxSpreadBps / 10000.0
    else 1.0 - model.value.fxSpreadBps / 10000.0
  }

  /** What `Costed` multiplies a price by. */
  ghost function Factor(model: Option<CostModel>, side: Side): real {
    Times(FeeFactor(model, side), SpreadFactor(model, side))
  }

  lemma CostedIsProportional(model: Option<CostModel>, price: real, side: Side)
    ensures Costed(model, price, side) == price * Factor(model, side)
  {
  }

  ghost predicate SaneModel(model: Option<CostModel>) {
    model.Some? ==> model.value.Sane()
  }

  /** `dear` charges at least the taker fee and the spread of `cheap`; no model charges nothing. */
  ghost predicate NoDearer(cheap: Option<CostModel>, dear: Option<CostModel>) {
    match dear
    case None => cheap == None
    case Some(d) => cheap == None || (cheap.value.takerFee <= d.takerFee && cheap.value.fxSpreadBps <= d.fxSpreadBps)
  }

  lemma SharesPositive(model: Option<CostModel>, side: Side)
    requires SaneModel(model)
    ensures 0.0 < FeeFactor(model, side) && 0.0 < SpreadFactor(model, side)
  {
  }

  lemma FactorPositive(model: Option<CostModel>, side: Side)
    requires SaneModel(model)
    ensures 0.0 < Factor(model, side)
  {
    SharesPositive(model, side);
    TimesPositive(FeeFactor(model, side), SpreadFactor(model, side));
  }

  lemma FactorLess(low: Option<CostModel>, high: Option<CostModel>, side: Side)
    requires SaneModel(low) && SaneModel(high)
    requires FeeFactor(low, side) <= FeeFactor(high, side) && SpreadFactor(low, side) <= SpreadFactor(high, side)
    ensures Factor(low, side) <= Factor(high, side)
  {
    SharesPositive(low, side);
    SharesPositive(high, side);
    TimesLess(FeeFactor(low, side), FeeFactor(high, side), SpreadFactor(low, side), SpreadFactor(high, side));
  }

  /** A dearer model buys higher and sells lower. */
  lemma DearerFactors(cheap: Option<CostModel>, dear: Option<CostModel>, side: Side)
    requires SaneModel(cheap) && SaneModel(dear) && NoDearer(cheap, dear)
    ensures if side == Buy then Factor(cheap, side) <= Factor(dear, side) else Factor(dear, side) <= Factor(cheap, side)
  {
    if side == Buy {
      FactorLess(cheap, dear, side);
    } else {
      FactorLess(dear, cheap, side);
    }
  }
}
