/** Filling one order against one order book snapshot, the pricing half of `src/backtest/simulator.py`. */
module OrderBook {
  import opened Numbers
  import opened Costs

  datatype Level = Level(price: real, volume: real)

  /** Levels are listed best first. */
  datatype Snapshot = Snapshot(bids: seq<Level>, asks: seq<Level>, timestamp: real)

  datatype Config = Config(
    latencyMs: int, maxSlippage: real, initialEquity: real, positionSize: real, costs: CostModel,
    queuePositionPenalty: real, impactPenalty: real, adverseSelectionPenalty: real)

  function LevelsFor(snapshot: Snapshot, side: Side): seq<Level> {
    if side == Buy then snapshot.asks else snapshot.bids
  }

  function MidPrice(snapshot: Snapshot): real {
    if snapshot.bids == [] || snapshot.asks == [] then 0.0 else (snapshot.bids[0].price + snapshot.asks[0].price) / 2.0
  }

  function BestPrice(snapshot: Snapshot, side: Side): real {
    if LevelsFor(snapshot, side) == [] then 0.0 else LevelsFor(snapshot, side)[0].price
  }

  // ---------- the price of one level ----------

  function Scale(price: real): real {
    Max(Abs(price), 1.0)
  }

  /** The penalty for the mid price having moved against the order since the previous snapshot. */
  function AdverseShare(side: Side, mid: real, previousMid: Option<real>): real {
    if previousMid.Some? && previousMid.value > 0.0
       && (if side == Buy then mid - previousMid.value > 0.0 else mid - previousMid.value < 0.0)
    then Abs((mid - previousMid.value) / previousMid.value)
    else 0.0
  }

  function Penalty(
    cfg: Config, side: Side, level: Level, index: nat, remaining: real, mid: real, previousMid: Option<real>): real {
    var scale := Scale(level.price);
    index as real * cfg.queuePositionPenalty * scale
    + (remaining / Max(level.volume, 1.0)) * cfg.impactPenalty * scale
    + AdverseShare(side, mid, previousMid) * cfg.adverseSelectionPenalty * scale
  }

  function AdjustedFillPrice(
    cfg: Config, side: Side, level: Level, index: nat, remaining: real, mid: real, previousMid: Option<real>): real {
    var penalty := Penalty(cfg, side, level, index, remaining, mid, previousMid);
    if side == Buy then level.price + penalty else level.price - penalty
  }

  /** The worst price an order accepts. */
  function PriceLimit(cfg: Config, side: Side, best: real): real {
    if side == Buy then Times(best, 1.0 + cfg.maxSlippage) else Times(best, 1.0 - cfg.maxSlippage)
  }

  predicate PriceWithinSlippage(cfg: Config, side: Side, price: real, best: real) {
    if side == Buy then price <= PriceLimit(cfg, side, best) else price >= PriceLimit(cfg, side, best)
  }

  // ---------- walking the levels ----------

  /** What filling costs at level `k` of `snapshot` with `remaining` still to fill. */
  function PriceAt(
    cfg: Config, snapshot: Snapshot, side: Side, k: nat, remaining: real, previousMid: Option<real>): real
    requires k < |LevelsFor(snapshot, side)|
  {
    AdjustedFillPrice(cfg, side, LevelsFor(snapshot, side)[k], k, remaining, MidPrice(snapshot), previousMid)
  }

  datatype Fill = Fill(quantity: real, value: real)

  /** The quantity and value filled from level `k` on. */
  function FillFrom(
    cfg: Config, snapshot: Snapshot, side: Side, k: nat, remaining: real, previousMid: Option<real>): Fill
    requires k <= |LevelsFor(snapshot, side)|
    decreases |LevelsFor(snapshot, side)| - k
  {
    var levels := LevelsFor(snapshot, side);
    if k == |levels| || remaining <= 0.0 then Fill(0.0, 0.0)
    else
      var price := PriceAt(cfg, snapshot, side, k, remaining, previousMid);
      if !PriceWithinSlippage(cfg, side, price, BestPrice(snapshot, side)) then Fill(0.0, 0.0)
      else
        var taken := Min(remaining, levels[k].volume);
        var rest := FillFrom(cfg, snapshot, side, k + 1, remaining - taken, previousMid);
        Fill(taken + rest.quantity, Times(taken, price) + rest.value)
  }

  /** The filled quantity and average price of an order of `size`; (0, 0) when nothing fills. */
  function FillOrder(cfg: Config, snapshot: Snapshot, side: Side, size: real, previousMid: Option<real>): (real, real) {
    var fill := FillFrom(cfg, snapshot, side, 0, size, previousMid);
    if fill.quantity <= 0.0 then (0.0, 0.0) else (fill.quantity, fill.value / fill.quantity)
  }

  /** The loop over the levels, with its running totals. */
  method FillQuantity(cfg: Config, lastSnapshot: Snapshot, side: Side, size: real, previousMid: Option<real>)
    returns (filled: real, average: real)
    ensures (filled, average) == FillOrder(cfg, lastSnapshot, side, size, previousMid)
  {
    if size <= 0.0 {
      return 0.0, 0.0;
    }
    var levels := LevelsFor(lastSnapshot, side);
    if levels == [] {
      return 0.0, 0.0;
    }
    var remainingSize, totalValue, totalFilled := size, 0.0, 0.0;
    var index := 0;
    while index < |levels|
      invariant index <= |levels|
      invariant var rest := FillFrom(cfg, lastSnapshot, side, index, remainingSize, previousMid);
                FillFrom(cfg, lastSnapshot, side, 0, size, previousMid)
                  == Fill(totalFilled + rest.quantity, totalValue + rest.value)
    {
      hide PriceAt;
      hide PriceWithinSlippage;
      if remainingSize <= 0.0 {
        break;
      }
      var effectivePrice := PriceAt(cfg, lastSnapshot, side, index, remainingSize, previousMid);
      if !PriceWithinSlippage(cfg, side, effectivePrice, BestPrice(lastSnapshot, side)) {
        break;
      }
      var fillQty := Min(remainingSize, levels[index].volume);
      totalValue := totalValue + Times(fillQty, effectivePrice);
      totalFilled := totalFilled + fillQty;
      remainingSize := remainingSize - fillQty;
      index := index + 1;
    }
    if totalFilled <= 0.0 {
      return 0.0, 0.0;
    }
    return totalFilled, totalValue / totalFilled;
  }

  // ---------- a fill is a prefix of the book ----------

  ghost predicate NonNegativeVolumes(snapshot: Snapshot) {
    && (forall i :: 0 <= i < |snapshot.bids| ==> 0.0 <= snapshot.bids[i].volume)
    && (forall i :: 0 <= i < |snapshot.asks| ==> 0.0 <= snapshot.asks[i].volume)
  }

  ghost function Depth(levels: seq<Level>): real {
    if levels == [] then 0.0 else Depth(levels[..|levels| - 1]) + levels[|levels| - 1].volume
  }

  /** Where a fill that starts at level `k` stops. */
  ghost function StopFrom(
    cfg: Config, snapshot: Snapshot, side: Side, k: nat, remaining: real, previousMid: Option<real>): (stop: nat)
    requires k <= |LevelsFor(snapshot, side)|
    ensures k <= stop <= |LevelsFor(snapshot, side)|
    decreases |LevelsFor(snapshot, side)| - k
  {
    var levels := LevelsFor(snapshot, side);
    if k == |levels| || remaining <= 0.0 then k
    else if !PriceWithinSlippage(cfg, side, PriceAt(cfg, snapshot, side, k, remaining, previousMid),
      BestPrice(snapshot, side)) then k
    else StopFrom(cfg, snapshot, side, k + 1, remaining - Min(remaining, levels[k].volume), previousMid)
  }

  lemma {:induction false} FillFromIsPrefix(
    cfg: Config, snapshot: Snapshot, side: Side, k: nat, remaining: real, previousMid: Option<real>)
    requires NonNegativeVolumes(snapshot) && k <= |LevelsFor(snapshot, side)| && 0.0 <= remaining
    ensures var levels := LevelsFor(snapshot, side);
            var stop, filled := StopFrom(cfg, snapshot, side, k, remaining, previousMid),
              FillFrom(cfg, snapshot, side, k, remaining, previousMid).quantity;
            && filled == Min(remaining, Depth(levels[..stop]) - Depth(levels[..k]))
            && 0.0 <= filled
            && (filled == remaining || stop == |levels| ||
                !PriceWithinSlippage(cfg, side, PriceAt(cfg, snapshot, side, stop, remaining - filled, previousMid),
                  BestPrice(snapshot, side)))
    decreases |LevelsFor(snapshot, side)| - k
  {
    hide PriceAt;
    hide PriceWithinSlippage;
    hide BestPrice;
    hide LevelsFor;
    hide NonNegativeVolumes;
    var levels := LevelsFor(snapshot, side);
    if k < |levels| && remaining > 0.0
      && PriceWithinSlippage(cfg, side, PriceAt(cfg, snapshot, side, k, remaining, previousMid),
          BestPrice(snapshot, side)) {
      FillFromIsPrefix(cfg, snapshot, side, k + 1, remaining - Min(remaining, levels[k].volume), previousMid);
      DepthNext(levels, k, snapshot, side);
      DepthGrows(levels, k + 1, StopFrom(cfg, snapshot, side, k, remaining, previousMid), snapshot, side);
    }
  }

  lemma DepthNext(levels: seq<Level>, k: nat, snapshot: Snapshot, side: Side)
    requires levels == LevelsFor(snapshot, side) && NonNegativeVolumes(snapshot) && k < |levels|
    ensures Depth(levels[..k + 1]) == Depth(levels[..k]) + levels[k].volume && 0.0 <= levels[k].volume
  {
    assert levels[..k + 1][..k] == levels[..k];
  }

  lemma {:induction false} DepthGrows(levels: seq<Level>, lo: nat, hi: nat, snapshot: Snapshot, side: Side)
    requires levels == LevelsFor(snapshot, side) && NonNegativeVolumes(snapshot) && lo <= hi <= |levels|
    ensures Depth(levels[..lo]) <= Depth(levels[..hi])
  {
    if lo < hi {
      DepthGrows(levels, lo, hi - 1, snapshot, side);
      assert levels[..hi][..hi - 1] == levels[..hi - 1];
    }
  }

  /**
   * A fill takes the levels of the book in order: it fills the smaller of the order and the depth it passes, and
   * stops only when the order is done, the book ends, or the next level at its penalised price is out of bounds.
   */
  lemma FillIsPrefix(cfg: Config, snapshot: Snapshot, side: Side, size: real, previousMid: Option<real>)
    requires NonNegativeVolumes(snapshot) && 0.0 <= size
    ensures var levels, filled := LevelsFor(snapshot, side), FillOrder(cfg, snapshot, side, size, previousMid).0;
            var stop := StopFrom(cfg, snapshot, side, 0, size, previousMid);
            && filled == Min(size, Depth(levels[..stop])) && 0.0 <= filled
            && (filled == size || stop == |levels| ||
                !PriceWithinSlippage(cfg, side, PriceAt(cfg, snapshot, side, stop, size - filled, previousMid),
                  BestPrice(snapshot, side)))
  {
    hide PriceAt;
    hide PriceWithinSlippage;
    FillFromIsPrefix(cfg, snapshot, side, 0, size, previousMid);
    assert LevelsFor(snapshot, side)[..0] == [];
  }

  /** No fill exceeds its order, whatever the sign of the order. */
  lemma FillBounded(cfg: Config, snapshot: Snapshot, side: Side, size: real, previousMid: Option<real>)
    requires NonNegativeVolumes(snapshot)
    ensures 0.0 <= FillOrder(cfg, snapshot, side, size, previousMid).0 <= Max(size, 0.0)
  {
    if 0.0 <= size {
      FillIsPrefix(cfg, snapshot, side, size, previousMid);
    }
  }

  // ---------- the price of a fill ----------

  /** A book with positive prices, best first on each side, and non-negative penalties and slippage allowance. */
  ghost predicate Orderly(cfg: Config, snapshot: Snapshot) {
    && NonNegativeVolumes(snapshot)
    && (forall i :: 0 <= i < |snapshot.asks| ==> 0.0 < snapshot.asks[0].price <= snapshot.asks[i].price)
    && (forall i :: 0 <= i < |snapshot.bids| ==> 0.0 < snapshot.bids[i].price <= snapshot.bids[0].price)
    && 0.0 <= cfg.queuePositionPenalty && 0.0 <= cfg.impactPenalty && 0.0 <= cfg.adverseSelectionPenalty
  }

  lemma PenaltyNonNegative(
    cfg: Config, side: Side, level: Level, index: nat, remaining: real, mid: real, previousMid: Option<real>)
    requires 0.0 <= cfg.queuePositionPenalty && 0.0 <= cfg.impactPenalty && 0.0 <= cfg.adverseSelectionPenalty
        && 0.0 <= remaining
    ensures 0.0 <= Penalty(cfg, side, level, index, remaining, mid, previousMid)
  {
    var scale, share, crowd := Scale(level.price), AdverseShare(side, mid, previousMid),
      remaining / Max(level.volume, 1.0);
    assert 0.0 <= crowd;
    assert 0.0 <= share;
    assert 0.0 <= index as real * cfg.queuePositionPenalty;
    assert 0.0 <= crowd * cfg.impactPenalty;
    assert 0.0 <= share * cfg.adverseSelectionPenalty;
  }

  /** Whether `price` is no better than the best of the book and within the slippage limit. */
  ghost predicate Acceptable(cfg: Config, side: Side, price: real, best: real) {
    if side == Buy then best <= price <= PriceLimit(cfg, side, best) else PriceLimit(cfg, side, best) <= price <= best
  }

  ghost function LowBound(cfg: Config, side: Side, best: real): real {
    if side == Buy then best else PriceLimit(cfg, side, best)
  }

  ghost function HighBound(cfg: Config, side: Side, best: real): real {
    if side == Buy then PriceLimit(cfg, side, best) else best
  }

  lemma LevelAcceptable(cfg: Config, snapshot: Snapshot, side: Side, k: nat, remaining: real, previousMid: Option<real>)
    requires Orderly(cfg, snapshot) && k < |LevelsFor(snapshot, side)| && 0.0 <= remaining
    requires PriceWithinSlippage(cfg, side, PriceAt(cfg, snapshot, side, k, remaining, previousMid),
        BestPrice(snapshot, side))
    ensures Acceptable(cfg, side, PriceAt(cfg, snapshot, side, k, remaining, previousMid), BestPrice(snapshot, side))
  {
    hide Penalty;
    hide PriceLimit;
    PenaltyNonNegative(cfg, side, LevelsFor(snapshot, side)[k], k, remaining, MidPrice(snapshot), previousMid);
  }

  lemma ValueAccumulates(taken: real, price: real, quantity: real, value: real, low: real, high: real)
    requires 0.0 <= taken && low <= price <= high
    requires Times(low, quantity) <= value <= Times(high, quantity)
    ensures Times(low, taken + quantity) <= Times(taken, price) + value <= Times(high, taken + quantity)
  {
    assert taken * low <= taken * price <= taken * high;
  }

  lemma {:induction false} ValueBounds(
    cfg: Config, snapshot: Snapshot, side: Side, k: nat, remaining: real, previousMid: Option<real>)
    requires Orderly(cfg, snapshot) && k <= |LevelsFor(snapshot, side)| && 0.0 <= remaining
    ensures var best, fill := BestPrice(snapshot, side), FillFrom(cfg, snapshot, side, k, remaining, previousMid);
            && Times(LowBound(cfg, side, best), fill.quantity) <= fill.value
            && fill.value <= Times(HighBound(cfg, side, best), fill.quantity)
    decreases |LevelsFor(snapshot, side)| - k
  {
    hide PriceAt;
    hide PriceWithinSlippage;
    hide BestPrice;
    hide PriceLimit;
    hide Times;
    var levels, best := LevelsFor(snapshot, side), BestPrice(snapshot, side);
    if k < |levels| && remaining > 0.0
      && PriceWithinSlippage(cfg, side, PriceAt(cfg, snapshot, side, k, remaining, previousMid), best) {
      var price, taken := PriceAt(cfg, snapshot, side, k, remaining, previousMid), Min(remaining, levels[k].volume);
      LevelAcceptable(cfg, snapshot, side, k, remaining, previousMid);
      ValueBounds(cfg, snapshot, side, k + 1, remaining - taken, previousMid);
      var rest := FillFrom(cfg, snapshot, side, k + 1, remaining - taken, previousMid);
      ValueAccumulates(taken, price, rest.quantity, rest.value, LowBound(cfg, side, best), HighBound(cfg, side, best));
    } else {
      NothingIsFree(LowBound(cfg, side, best), HighBound(cfg, side, best));
    }
  }

  lemma NothingIsFree(low: real, high: real)
    ensures Times(low, 0.0) == 0.0 == Times(high, 0.0)
  {
  }

  lemma AverageWithin(value: real, quantity: real, low: real, high: real)
    requires 0.0 < quantity && Times(low, quantity) <= value <= Times(high, quantity)
    ensures low <= value / quantity <= high
  {
    var average := value / quantity;
    assert average * quantity == value;
    assert (average - low) * quantity >= 0.0;
    assert (high - average) * quantity >= 0.0;
  }

  /**
   * A buy's average price lies between the best ask and the slippage limit above it, a sell's between the limit below
   * the best bid and that bid.
   */
  lemma FillPriceBounds(cfg: Config, snapshot: Snapshot, side: Side, size: real, previousMid: Option<real>)
    requires Orderly(cfg, snapshot) && 0.0 < FillOrder(cfg, snapshot, side, size, previousMid).0
    ensures Acceptable(cfg, side, FillOrder(cfg, snapshot, side, size, previousMid).1, BestPrice(snapshot, side))
  {
    hide Times;
    hide PriceLimit;
    hide FillFrom;
    hide BestPrice;
    if size < 0.0 {
      NoFillForNegative(cfg, snapshot, side, size, previousMid);
    }
    ValueBounds(cfg, snapshot, side, 0, size, previousMid);
    var fill, best := FillFrom(cfg, snapshot, side, 0, size, previousMid), BestPrice(snapshot, side);
    AverageWithin(fill.value, fill.quantity, LowBound(cfg, side, best), HighBound(cfg, side, best));
  }

  lemma NoFillForNegative(cfg: Config, snapshot: Snapshot, side: Side, size: real, previousMid: Option<real>)
    requires size <= 0.0
    ensures FillFrom(cfg, snapshot, side, 0, size, previousMid).quantity == 0.0
  {
  }
}
