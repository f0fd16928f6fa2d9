/**
 * What a fill takes from the book and pays for it, level by level: in terms of the listed prices and volumes, and of
 * the three charges of `src/backtest/simulator.py:284-295`.
 */
module BookWalk {
  import opened Numbers
  import opened Costs
  import opened OrderBook

  // ---------- the charges on one level ----------

  ghost function Size(price: real): real {
    if price > 1.0 then price else if price < -1.0 then -price else 1.0
  }

  /** For waiting behind the levels before. */
  ghost function QueueCharge(cfg: Config, level: Level, j: nat): real {
    Times(Times(j as real, cfg.queuePositionPenalty), Size(level.price))
  }

  /** For asking for more than the level has, which counts as one at least. */
  ghost function LiquidityCharge(cfg: Config, level: Level, wanted: real): real {
    Times(Times(wanted / (if level.volume > 1.0 then level.volume else 1.0), cfg.impactPenalty), Size(level.price))
  }

  /** Half way between the best prices of the two sides; 0 when a side is empty. */
  ghost predicate IsMid(snapshot: Snapshot, mid: real) {
    if snapshot.bids == [] || snapshot.asks == [] then mid == 0.0
    else 2.0 * mid == snapshot.bids[0].price + snapshot.asks[0].price
  }

  /** The mid price has moved against an order since the snapshot before: up for a buy, down for a sell. */
  ghost predicate MovedAgainst(side: Side, mid: real, before: Option<real>) {
    before.Some? && before.value > 0.0 && (if side == Buy then mid > before.value else mid < before.value)
  }

  /** For such a move, its share of the mid price before; nothing otherwise. */
  ghost function AdverseCharge(cfg: Config, side: Side, level: Level, mid: real, before: Option<real>): real {
    if !MovedAgainst(side, mid, before) then 0.0
    else
      var move := if side == Buy then mid - before.value else before.value - mid;
      Times(Times(move / before.value, cfg.adverseSelectionPenalty), Size(level.price))
  }

  /** What a unit of level `j` costs, or yields, when `wanted` is still to be filled there. */
  ghost function Charged(
    cfg: Config, side: Side, level: Level, j: nat, wanted: real, mid: real, before: Option<real>): real
  {
    var charge := QueueCharge(cfg, level, j) + LiquidityCharge(cfg, level, wanted)
                  + AdverseCharge(cfg, side, level, mid, before);
    if side == Buy then level.price + charge else level.price - charge
  }

  /** Without penalties a level costs its listed price. */
  lemma ChargeFree(cfg: Config, side: Side, level: Level, j: nat, wanted: real, mid: real, before: Option<real>)
    requires cfg.queuePositionPenalty == 0.0 && cfg.impactPenalty == 0.0 && cfg.adverseSelectionPenalty == 0.0
    ensures Charged(cfg, side, level, j, wanted, mid, before) == level.price
  {
    TimesNothing(j as real, Size(level.price));
    TimesNothing(wanted / (if level.volume > 1.0 then level.volume else 1.0), Size(level.price));
    if MovedAgainst(side, mid, before) {
      var move := if side == Buy then mid - before.value else before.value - mid;
      TimesNothing(move / before.value, Size(level.price));
    }
  }

  lemma TimesNothing(x: real, y: real)
    ensures Times(Times(x, 0.0), y) == 0.0
  {
  }

  // ---------- the walk ----------

  ghost function Listed(snapshot: Snapshot, side: Side): seq<Level> {
    match side
    case Buy => snapshot.asks
    case Sell => snapshot.bids
  }

  /** The volume of the first `j` levels. */
  ghost function DepthTo(levels: seq<Level>, j: nat): real
    requires j <= |levels|
  {
    if j == 0 then 0.0 else DepthTo(levels, j - 1) + levels[j - 1].volume
  }

  ghost function LevelPrice(
    cfg: Config, snapshot: Snapshot, side: Side, size: real, mid: real, before: Option<real>, j: nat): real
    requires j < |Listed(snapshot, side)|
  {
    var levels := Listed(snapshot, side);
    Charged(cfg, side, levels[j], j, size - DepthTo(levels, j), mid, before)
  }

  /** No worse than the best listed price by more than the slippage allowance. */
  ghost predicate InBounds(cfg: Config, snapshot: Snapshot, side: Side, price: real)
    requires Listed(snapshot, side) != []
  {
    var best := Listed(snapshot, side)[0].price;
    if side == Buy then price <= best + Times(best, cfg.maxSlippage) else price >= best - Times(best, cfg.maxSlippage)
  }

  /** Level `j` is reached with something still to fill, and its price is in bounds. */
  ghost predicate Taken(
    cfg: Config, snapshot: Snapshot, side: Side, size: real, mid: real, before: Option<real>, j: nat)
    requires j < |Listed(snapshot, side)|
  {
    && DepthTo(Listed(snapshot, side), j) < size
    && InBounds(cfg, snapshot, side, LevelPrice(cfg, snapshot, side, size, mid, before, j))
  }

  /** The walk takes the first `stop` levels and no more. */
  ghost predicate WalksTo(
    cfg: Config, snapshot: Snapshot, side: Side, size: real, mid: real, before: Option<real>, stop: nat)
  {
    && stop <= |Listed(snapshot, side)|
    && (forall j :: 0 <= j < stop ==> Taken(cfg, snapshot, side, size, mid, before, j))
    && (stop < |Listed(snapshot, side)| ==> !Taken(cfg, snapshot, side, size, mid, before, stop))
  }

  /** What is taken of level `j`: all of it, or what is left to fill. */
  ghost function TakenOf(levels: seq<Level>, size: real, j: nat): real
    requires j < |levels|
  {
    var wanted := size - DepthTo(levels, j);
    if wanted < levels[j].volume then wanted else levels[j].volume
  }

  ghost function PaidTo(
    cfg: Config, snapshot: Snapshot, side: Side, size: real, mid: real, before: Option<real>, stop: nat): real
    requires stop <= |Listed(snapshot, side)|
  {
    if stop == 0 then 0.0
    else PaidTo(cfg, snapshot, side, size, mid, before, stop - 1)
         + Times(TakenOf(Listed(snapshot, side), size, stop - 1),
                 LevelPrice(cfg, snapshot, side, size, mid, before, stop - 1))
  }

  // ---------- the walk is what fills ----------

  lemma SizeIsScale(price: real)
    ensures Scale(price) == Size(price)
  {
  }

  lemma MidMeans(snapshot: Snapshot)
    ensures forall mid :: IsMid(snapshot, mid) <==> mid == MidPrice(snapshot)
  {
  }

  lemma AdverseMeans(cfg: Config, side: Side, level: Level, mid: real, before: Option<real>)
    ensures AdverseShare(side, mid, before) * cfg.adverseSelectionPenalty * Scale(level.price)
         == AdverseCharge(cfg, side, level, mid, before)
  {
    SizeIsScale(level.price);
    if MovedAgainst(side, mid, before) {
      SharePositive(mid, before.value);
    }
  }

  lemma SharePositive(mid: real, before: real)
    requires before > 0.0
    ensures mid > before ==> Abs((mid - before) / before) == (mid - before) / before
    ensures mid < before ==> Abs((mid - before) / before) == (before - mid) / before
  {
    var share := (mid - before) / before;
    assert share * before == mid - before;
    assert (before - mid) / before == -share;
  }

  lemma PenaltyMeans(cfg: Config, side: Side, level: Level, j: nat, wanted: real, mid: real, before: Option<real>)
    ensures AdjustedFillPrice(cfg, side, level, j, wanted, mid, before)
         == Charged(cfg, side, level, j, wanted, mid, before)
  {
    hide AdverseShare;
    hide AdverseCharge;
    SizeIsScale(level.price);
    AdverseMeans(cfg, side, level, mid, before);
    assert Max(level.volume, 1.0) == if level.volume > 1.0 then level.volume else 1.0;
  }

  lemma LimitMeans(cfg: Config, snapshot: Snapshot, side: Side, price: real)
    requires Listed(snapshot, side) != []
    ensures PriceWithinSlippage(cfg, side, price, BestPrice(snapshot, side)) <==> InBounds(cfg, snapshot, side, price)
  {
    var best := Listed(snapshot, side)[0].price;
    assert Times(best, 1.0 + cfg.maxSlippage) == best + Times(best, cfg.maxSlippage);
    assert Times(best, 1.0 - cfg.maxSlippage) == best - Times(best, cfg.maxSlippage);
  }

  lemma LevelMeans(
    cfg: Config, snapshot: Snapshot, side: Side, size: real, mid: real, before: Option<real>, j: nat, wanted: real)
    requires j < |LevelsFor(snapshot, side)| && IsMid(snapshot, mid)
    requires Listed(snapshot, side) == LevelsFor(snapshot, side)
    requires wanted == size - DepthTo(Listed(snapshot, side), j)
    ensures PriceAt(cfg, snapshot, side, j, wanted, before) == LevelPrice(cfg, snapshot, side, size, mid, before, j)
    ensures PriceWithinSlippage(cfg, side, PriceAt(cfg, snapshot, side, j, wanted, before), BestPrice(snapshot, side))
       <==> InBounds(cfg, snapshot, side, LevelPrice(cfg, snapshot, side, size, mid, before, j))
  {
    hide AdjustedFillPrice;
    hide Charged;
    hide PriceWithinSlippage;
    hide InBounds;
    MidMeans(snapshot);
    PenaltyMeans(cfg, side, LevelsFor(snapshot, side)[j], j, wanted, mid, before);
    LimitMeans(cfg, snapshot, side, LevelPrice(cfg, snapshot, side, size, mid, before, j));
  }

  /** What the fill from level `k` on takes and is worth, when the first `k` levels are gone. */
  ghost predicate FillsAs(
    cfg: Config, snapshot: Snapshot, side: Side, size: real, mid: real, before: Option<real>, k: nat, stop: nat,
    fill: Fill)
  {
    && k <= stop <= |Listed(snapshot, side)|
    && (forall j :: k <= j < stop ==> Taken(cfg, snapshot, side, size, mid, before, j))
    && (stop < |Listed(snapshot, side)| ==> !Taken(cfg, snapshot, side, size, mid, before, stop))
    && fill.quantity
       == Min(size, DepthTo(Listed(snapshot, side), stop)) - Min(size, DepthTo(Listed(snapshot, side), k))
    && fill.value
       == PaidTo(cfg, snapshot, side, size, mid, before, stop) - PaidTo(cfg, snapshot, side, size, mid, before, k)
  }

  lemma SameLevels(snapshot: Snapshot, side: Side)
    ensures Listed(snapshot, side) == LevelsFor(snapshot, side)
    ensures NonNegativeVolumes(snapshot) ==>
              forall j :: 0 <= j < |Listed(snapshot, side)| ==> 0.0 <= Listed(snapshot, side)[j].volume
  {
  }

  lemma {:induction false} FillWalks(
    cfg: Config, snapshot: Snapshot, side: Side, size: real, mid: real, before: Option<real>, k: nat, remaining: real)
    returns (stop: nat)
    requires NonNegativeVolumes(snapshot) && IsMid(snapshot, mid)
    requires k <= |LevelsFor(snapshot, side)| && Listed(snapshot, side) == LevelsFor(snapshot, side)
    requires remaining == Max(0.0, size - DepthTo(Listed(snapshot, side), k))
    ensures FillsAs(cfg, snapshot, side, size, mid, before, k, stop,
              FillFrom(cfg, snapshot, side, k, remaining, before))
    decreases |LevelsFor(snapshot, side)| - k
  {
    hide PriceAt;
    hide PriceWithinSlippage;
    hide BestPrice;
    hide LevelPrice;
    hide InBounds;
    hide LevelsFor;
    hide Listed;
    hide NonNegativeVolumes;
    hide IsMid;
    hide Times;
    var levels := LevelsFor(snapshot, side);
    SameLevels(snapshot, side);
    stop := k;
    if k < |levels| && remaining > 0.0 {
      LevelMeans(cfg, snapshot, side, size, mid, before, k, remaining);
      if PriceWithinSlippage(cfg, side, PriceAt(cfg, snapshot, side, k, remaining, before), BestPrice(snapshot, side)) {
        var taken := Min(remaining, levels[k].volume);
        stop := FillWalks(cfg, snapshot, side, size, mid, before, k + 1, remaining - taken);
      }
    }
  }

  /**
   * A fill takes the levels of the book in order, as long as something is left to fill and the level's listed price,
   * moved against the order by its queue, liquidity and adverse-selection charges, is within the slippage allowance of
   * the best listed price. It takes the whole of every level but the last, and its average price times its quantity is
   * what the parts taken cost at those prices.
   */
  lemma FillIsWalk(cfg: Config, snapshot: Snapshot, side: Side, size: real, mid: real, before: Option<real>)
    requires NonNegativeVolumes(snapshot) && IsMid(snapshot, mid) && 0.0 <= size
    ensures exists stop: nat ::
              IsFill(cfg, snapshot, side, size, mid, before, stop, FillOrder(cfg, snapshot, side, size, before))
  {
    hide FillFrom;
    hide FillOrder;
    hide Taken;
    hide LevelsFor;
    hide Listed;
    hide IsMid;
    hide PaidTo;
    hide Times;
    SameLevels(snapshot, side);
    NothingPaid(cfg, snapshot, side, size, mid, before);
    DepthNonNegative(Listed(snapshot, side), 0);
    var stop := FillWalks(cfg, snapshot, side, size, mid, before, 0, size);
    DepthNonNegative(Listed(snapshot, side), stop);
    FillOrderMeans(cfg, snapshot, side, size, before);
    assert IsFill(cfg, snapshot, side, size, mid, before, stop, FillOrder(cfg, snapshot, side, size, before));
  }

  ghost predicate IsFill(
    cfg: Config, snapshot: Snapshot, side: Side, size: real, mid: real, before: Option<real>, stop: nat,
    filled: (real, real))
  {
    && WalksTo(cfg, snapshot, side, size, mid, before, stop)
    && filled.0 == Min(size, DepthTo(Listed(snapshot, side), stop))
    && (filled.0 > 0.0 ==> Times(filled.1, filled.0) == PaidTo(cfg, snapshot, side, size, mid, before, stop))
    && (filled.0 == 0.0 ==> filled.1 == 0.0)
  }

  lemma {:induction false} DepthNonNegative(levels: seq<Level>, j: nat)
    requires j <= |levels| && forall i :: 0 <= i < |levels| ==> 0.0 <= levels[i].volume
    ensures 0.0 <= DepthTo(levels, j) && DepthTo(levels, 0) == 0.0
  {
    if j > 0 {
      DepthNonNegative(levels, j - 1);
    }
  }

  lemma NothingPaid(cfg: Config, snapshot: Snapshot, side: Side, size: real, mid: real, before: Option<real>)
    ensures PaidTo(cfg, snapshot, side, size, mid, before, 0) == 0.0
  {
  }

  lemma FillOrderMeans(cfg: Config, snapshot: Snapshot, side: Side, size: real, before: Option<real>)
    ensures var fill := FillFrom(cfg, snapshot, side, 0, size, before);
            var filled := FillOrder(cfg, snapshot, side, size, before);
            && filled.0 == Max(0.0, fill.quantity)
            && (fill.quantity > 0.0 ==> Times(filled.1, filled.0) == fill.value)
            && (fill.quantity <= 0.0 ==> filled.1 == 0.0)
  {
    hide FillFrom;
    var fill := FillFrom(cfg, snapshot, side, 0, size, before);
    if fill.quantity > 0.0 {
      Whole(fill.value, fill.quantity);
    }
  }

  lemma Whole(value: real, quantity: real)
    requires quantity > 0.0
    ensures Times(value / quantity, quantity) == value
  {
  }

  /** There is only one such place to stop. */
  lemma WalkIsUnique(
    cfg: Config, snapshot: Snapshot, side: Side, size: real, mid: real, before: Option<real>, a: nat, b: nat)
    requires WalksTo(cfg, snapshot, side, size, mid, before, a) && WalksTo(cfg, snapshot, side, size, mid, before, b)
    ensures a == b
  {
    hide Taken;
  }

  /** Of every level before the last one taken, the whole volume is taken. */
  lemma OnlyLastIsPartial(
    cfg: Config, snapshot: Snapshot, side: Side, size: real, mid: real, before: Option<real>, stop: nat, j: nat)
    requires WalksTo(cfg, snapshot, side, size, mid, before, stop) && j + 1 < stop
    ensures TakenOf(Listed(snapshot, side), size, j) == Listed(snapshot, side)[j].volume
  {
    hide InBounds;
    hide LevelPrice;
    assert Taken(cfg, snapshot, side, size, mid, before, j + 1);
  }

  // ---------- without penalties ----------

  /** The parts taken at their listed prices. */
  ghost function ListedValue(levels: seq<Level>, size: real, stop: nat): real
    requires stop <= |levels|
  {
    if stop == 0 then 0.0
    else ListedValue(levels, size, stop - 1) + Times(TakenOf(levels, size, stop - 1), levels[stop - 1].price)
  }

  lemma {:induction false} PaidIsListed(
    cfg: Config, snapshot: Snapshot, side: Side, size: real, mid: real, before: Option<real>, stop: nat)
    requires cfg.queuePositionPenalty == 0.0 && cfg.impactPenalty == 0.0 && cfg.adverseSelectionPenalty == 0.0
    requires stop <= |Listed(snapshot, side)|
    ensures PaidTo(cfg, snapshot, side, size, mid, before, stop) == ListedValue(Listed(snapshot, side), size, stop)
  {
    hide Times;
    hide Charged;
    if stop > 0 {
      var levels := Listed(snapshot, side);
      PaidIsListed(cfg, snapshot, side, size, mid, before, stop - 1);
      ChargeFree(cfg, side, levels[stop - 1], stop - 1, size - DepthTo(levels, stop - 1), mid, before);
    }
  }

  /** The fill takes and pays the first `stop` levels at their listed prices, and has no reason to go further. */
  ghost predicate IsFreeFill(
    cfg: Config, snapshot: Snapshot, side: Side, size: real, stop: nat, filled: (real, real))
  {
    var levels := Listed(snapshot, side);
    && stop <= |levels| && filled.0 == Min(size, DepthTo(levels, stop))
    && (filled.0 > 0.0 ==> Times(filled.1, filled.0) == ListedValue(levels, size, stop))
    && (forall j :: 0 <= j < stop ==>
          DepthTo(levels, j) < size && InBounds(cfg, snapshot, side, levels[j].price))
    && (stop == |levels| || size <= DepthTo(levels, stop) || !InBounds(cfg, snapshot, side, levels[stop].price))
  }

  lemma FreePrices(
    cfg: Config, snapshot: Snapshot, side: Side, size: real, mid: real, before: Option<real>, j: nat)
    requires cfg.queuePositionPenalty == 0.0 && cfg.impactPenalty == 0.0 && cfg.adverseSelectionPenalty == 0.0
    requires j < |Listed(snapshot, side)|
    ensures LevelPrice(cfg, snapshot, side, size, mid, before, j) == Listed(snapshot, side)[j].price
  {
    hide Charged;
    var levels := Listed(snapshot, side);
    ChargeFree(cfg, side, levels[j], j, size - DepthTo(levels, j), mid, before);
  }

  lemma FreeWalk(
    cfg: Config, snapshot: Snapshot, side: Side, size: real, mid: real, before: Option<real>, stop: nat,
    filled: (real, real))
    requires cfg.queuePositionPenalty == 0.0 && cfg.impactPenalty == 0.0 && cfg.adverseSelectionPenalty == 0.0
    requires IsFill(cfg, snapshot, side, size, mid, before, stop, filled)
    ensures IsFreeFill(cfg, snapshot, side, size, stop, filled)
  {
    hide InBounds;
    hide LevelPrice;
    hide Times;
    hide PaidTo;
    hide ListedValue;
    PaidIsListed(cfg, snapshot, side, size, mid, before, stop);
    forall j | 0 <= j < |Listed(snapshot, side)|
      ensures LevelPrice(cfg, snapshot, side, size, mid, before, j) == Listed(snapshot, side)[j].price
    {
      FreePrices(cfg, snapshot, side, size, mid, before, j);
    }
    forall j | 0 <= j < stop
      ensures DepthTo(Listed(snapshot, side), j) < size
      ensures InBounds(cfg, snapshot, side, Listed(snapshot, side)[j].price)
    {
      assert Taken(cfg, snapshot, side, size, mid, before, j);
    }
  }

  /** Without penalties a fill pays the listed prices, and stops only at an order that is done, the end or the limit. */
  lemma FreeFill(cfg: Config, snapshot: Snapshot, side: Side, size: real, before: Option<real>)
    requires cfg.queuePositionPenalty == 0.0 && cfg.impactPenalty == 0.0 && cfg.adverseSelectionPenalty == 0.0
    requires NonNegativeVolumes(snapshot) && 0.0 <= size
    ensures exists stop: nat ::
              IsFreeFill(cfg, snapshot, side, size, stop, FillOrder(cfg, snapshot, side, size, before))
  {
    hide FillOrder;
    hide IsFill;
    hide IsFreeFill;
    var mid := MidPrice(snapshot);
    MidMeans(snapshot);
    FillIsWalk(cfg, snapshot, side, size, mid, before);
    var filled := FillOrder(cfg, snapshot, side, size, before);
    var stop: nat :| IsFill(cfg, snapshot, side, size, mid, before, stop, filled);
    FreeWalk(cfg, snapshot, side, size, mid, before, stop, filled);
  }

  /** Without penalties a best level with enough volume fills the whole order at its listed price. */
  lemma BestLevelFills(cfg: Config, snapshot: Snapshot, side: Side, size: real, before: Option<real>)
    requires cfg.queuePositionPenalty == 0.0 && cfg.impactPenalty == 0.0 && cfg.adverseSelectionPenalty == 0.0
    requires NonNegativeVolumes(snapshot) && Listed(snapshot, side) != [] && 0.0 <= cfg.maxSlippage
    requires 0.0 < size <= Listed(snapshot, side)[0].volume && 0.0 <= Listed(snapshot, side)[0].price
    ensures FillOrder(cfg, snapshot, side, size, before) == (size, Listed(snapshot, side)[0].price)
  {
    hide FillOrder;
    hide InBounds;
    hide ListedValue;
    hide Times;
    var levels, filled := Listed(snapshot, side), FillOrder(cfg, snapshot, side, size, before);
    FreeFill(cfg, snapshot, side, size, before);
    var stop: nat :| IsFreeFill(cfg, snapshot, side, size, stop, filled);
    BestInBounds(cfg, snapshot, side);
    FirstLevel(levels, size);
    TimesEqual(filled.1, levels[0].price, size);
  }

  lemma BestInBounds(cfg: Config, snapshot: Snapshot, side: Side)
    requires Listed(snapshot, side) != [] && 0.0 <= Listed(snapshot, side)[0].price && 0.0 <= cfg.maxSlippage
    ensures InBounds(cfg, snapshot, side, Listed(snapshot, side)[0].price)
  {
    TimesNonNegative(Listed(snapshot, side)[0].price, cfg.maxSlippage);
  }

  lemma FirstLevel(levels: seq<Level>, size: real)
    requires levels != [] && 0.0 < size <= levels[0].volume
    ensures DepthTo(levels, 0) == 0.0 && DepthTo(levels, 1) == levels[0].volume
    ensures ListedValue(levels, size, 1) == Times(size, levels[0].price)
  {
    assert ListedValue(levels, size, 0) == 0.0;
    assert TakenOf(levels, size, 0) == size;
  }

  lemma TimesEqual(x: real, y: real, size: real)
    requires size > 0.0
    ensures Times(x, size) == Times(size, y) ==> x == y
  {
    if Times(x, size) == Times(size, y) {
      assert x * size / size == x && size * y / size == y;
    }
  }
}
