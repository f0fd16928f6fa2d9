/** What holds at every point of every simulator run. */
module SimulatorRuns {
  import opened Numbers
  import opened Costs
  import opened OrderBook
  import opened Simulator

  // ---------- the position bound ----------

  ghost function Bound(cfg: Config): real {
    Max(0.0, cfg.positionSize)
  }

  ghost predicate Inside(cfg: Config, position: real) {
    -Bound(cfg) <= position <= Bound(cfg)
  }

  /** Even if all that remains of a queued order fills, the position stays inside the bound. */
  ghost predicate RoomFor(cfg: Config, position: real, order: Order) {
    Inside(cfg, position + if order.side == Buy then Max(order.remaining, 0.0) else -Max(order.remaining, 0.0))
  }

  ghost predicate Safe(cfg: Config, s: State) {
    && Inside(cfg, s.account.position)
    && |s.pending| <= 1
    && forall i :: 0 <= i < |s.pending| ==> !s.pending[i].isExit && RoomFor(cfg, s.account.position, s.pending[i])
  }

  lemma ProcessOrderSafe(cfg: Config, snapshot: Snapshot, previousMid: Option<real>, order: Order, account: Account)
    requires NonNegativeVolumes(snapshot) && Inside(cfg, account.position) && RoomFor(cfg, account.position, order)
    ensures var (after, booked) := ProcessOrder(cfg, snapshot, previousMid, order, account);
            && Inside(cfg, booked.position) && RoomFor(cfg, booked.position, after)
            && after == order.(remaining := after.remaining)
  {
    hide FillOrder;
    hide ExecutionPrice;
    FillBounded(cfg, snapshot, order.side, order.remaining, previousMid);
  }

  lemma PendingSafe(cfg: Config, index: int, snapshot: Snapshot, previousMid: Option<real>, s: State)
    requires NonNegativeVolumes(snapshot) && Safe(cfg, s)
    ensures var (kept, account) := ProcessPending(cfg, index, snapshot, previousMid, s.pending, s.account);
            Safe(cfg, State(account, kept, s.equityCurve))
  {
    hide ProcessOrder;
    hide ProcessPending;
    hide RoomFor;
    hide Inside;
    OnePending(cfg, index, snapshot, previousMid, s.pending, s.account);
    if s.pending != [] {
      ProcessOrderSafe(cfg, snapshot, previousMid, s.pending[0], s.account);
    }
  }

  lemma NewOrderHasRoom(cfg: Config, index: int, signal: real, position: real)
    requires Inside(cfg, position)
    ensures var order := NewOrder(cfg, index, signal, position);
            order.Some? ==> && RoomFor(cfg, position, order.value)
                            && (order.value.isExit ==> order.value.readyIndex == index)
  {
  }

  /**
   * With non-negative book volumes no run ever takes the position beyond the configured size, long or short, queues
   * more than one order, or queues an exit; and the queued entry cannot take it beyond either.
   */
  lemma {:induction false} RunsAreSafe(cfg: Config, snapshots: seq<Snapshot>, signals: seq<real>, n: nat)
    requires n <= |snapshots| == |signals|
    requires forall i :: 0 <= i < n ==> NonNegativeVolumes(snapshots[i])
    ensures Safe(cfg, Simulate(cfg, snapshots, signals, n))
  {
    hide ProcessPending;
    hide ProcessOrder;
    hide NewOrder;
    hide RoomFor;
    hide Inside;
    hide NonNegativeVolumes;
    if n > 0 {
      var i, s := n - 1, Simulate(cfg, snapshots, signals, n - 1);
      RunsAreSafe(cfg, snapshots, signals, i);
      PendingSafe(cfg, i, snapshots[i], PreviousMid(snapshots, i), s);
      var (kept, account) := ProcessPending(cfg, i, snapshots[i], PreviousMid(snapshots, i), s.pending, s.account);
      NewOrderHasRoom(cfg, i, signals[i], account.position);
      var order := NewOrder(cfg, i, signals[i], account.position);
      if order.Some? {
        ProcessOrderSafe(cfg, snapshots[i], PreviousMid(snapshots, i), order.value, account);
      }
    } else {
      FlatIsInside(cfg);
    }
  }

  lemma FlatIsInside(cfg: Config)
    ensures Inside(cfg, 0.0)
  {
  }

  /** An exit order never turns the position around: it ends between where it was and flat. */
  lemma ExitStopsAtFlat(
    cfg: Config, index: int, snapshot: Snapshot, previousMid: Option<real>, signal: real, account: Account)
    requires NonNegativeVolumes(snapshot) && account.position != 0.0 && signal == 0.0
    ensures var order := NewOrder(cfg, index, signal, account.position);
            && order.Some?
            && var position := ProcessOrder(cfg, snapshot, previousMid, order.value, account).1.position;
               if account.position > 0.0 then 0.0 <= position <= account.position
                 else account.position <= position <= 0.0
  {
    hide FillOrder;
    hide ExecutionPrice;
    var order := NewOrder(cfg, index, signal, account.position).value;
    FillBounded(cfg, snapshot, order.side, order.remaining, previousMid);
  }

  // ---------- the ledger ----------

  /** Cash received less cash paid by a sequence of trades, at their execution prices. */
  ghost function NetCash(trades: seq<Trade>): real {
    if trades == [] then 0.0
    else
      var last := trades[|trades| - 1];
      var value := Times(last.price, last.size);
      NetCash(trades[..|trades| - 1]) + if last.side == Buy then -value else value
  }

  ghost function NetSize(trades: seq<Trade>): real {
    if trades == [] then 0.0
    else
      var last := trades[|trades| - 1];
      NetSize(trades[..|trades| - 1]) + if last.side == Buy then last.size else -last.size
  }

  /** The prices of the buys since the position was last not positive. */
  ghost function OpenBuys(trades: seq<Trade>): seq<real> {
    if trades == [] || NetSize(trades) <= 0.0 then []
    else
      var init, last := trades[..|trades| - 1], trades[|trades| - 1];
      if last.side == Buy then OpenBuys(init) + [last.price] else OpenBuys(init)
  }

  ghost predicate Between(xs: seq<real>, low: real, high: real) {
    forall i :: 0 <= i < |xs| ==> low <= xs[i] <= high
  }

  /** `average` lies between the lowest and the highest of `xs`. */
  ghost predicate Averages(xs: seq<real>, average: real) {
    xs != [] && forall low, high :: Between(xs, low, high) ==> low <= average <= high
  }

  ghost predicate Balanced(cfg: Config, account: Account) {
    && account.cash == cfg.initialEquity + NetCash(account.trades)
    && account.position == NetSize(account.trades)
    && (forall i :: 0 <= i < |account.trades| ==> 0.0 < account.trades[i].size)
    && (account.average.Some? <==> account.position > 0.0)
    && (account.average.Some? ==> Averages(OpenBuys(account.trades), account.average.value))
  }

  lemma BlendBetween(average: real, price: real, size: real, position: real, low: real, high: real)
    requires 0.0 < size < position && low <= average <= high && low <= price <= high
    ensures low <= Blend(average, price, size, position) <= high
  {
    hide Times;
    BlendSum(average, price, size, position);
    TimesScales(low, average, position - size);
    TimesScales(average, high, position - size);
    TimesScales(low, price, size);
    TimesScales(price, high, size);
    TimesSplit(low, position, size);
    TimesSplit(high, position, size);
    BlendCancels(low, Blend(average, price, size, position), position);
    BlendCancels(Blend(average, price, size, position), high, position);
  }

  lemma BlendSum(average: real, price: real, size: real, position: real)
    requires position != 0.0
    ensures Times(Blend(average, price, size, position), position)
        == Times(average, position - size) + Times(price, size)
  {
  }

  lemma TimesSplit(x: real, position: real, size: real)
    ensures Times(x, position) == Times(x, position - size) + Times(x, size)
  {
  }

  lemma BlendCancels(x: real, y: real, position: real)
    requires 0.0 < position && Times(x, position) <= Times(y, position)
    ensures x <= y
  {
    var gap := x - y;
    assert gap * position == x * position - y * position;
    if y < x {
      TimesPositive(gap, position);
    }
  }

  lemma AveragesAppend(xs: seq<real>, average: real, price: real, size: real, position: real)
    requires Averages(xs, average) && 0.0 < size < position
    ensures Averages(xs + [price], Blend(average, price, size, position))
  {
    hide Blend;
    forall low, high | Between(xs + [price], low, high)
      ensures low <= Blend(average, price, size, position) <= high
    {
      assert forall i :: 0 <= i < |xs| ==> xs[i] == (xs + [price])[i];
      assert Between(xs, low, high);
      assert (xs + [price])[|xs|] == price;
      BlendBetween(average, price, size, position, low, high);
    }
  }

  lemma AveragesOne(price: real)
    ensures Averages([price], price)
  {
    forall low, high | Between([price], low, high)
      ensures low <= price <= high
    {
      assert [price][0] == price;
    }
  }

  lemma SumsAppend(trades: seq<Trade>, trade: Trade)
    ensures var value := Times(trade.price, trade.size);
            NetCash(trades + [trade]) == NetCash(trades) + if trade.side == Buy then -value else value
    ensures NetSize(trades + [trade]) == NetSize(trades) + if trade.side == Buy then trade.size else -trade.size
    ensures OpenBuys(trades + [trade])
         == if NetSize(trades + [trade]) <= 0.0 then []
            else if trade.side == Buy then OpenBuys(trades) + [trade.price] else OpenBuys(trades)
  {
    assert (trades + [trade])[..|trades|] == trades;
  }

  lemma NoOpenBuys(trades: seq<Trade>)
    requires NetSize(trades) <= 0.0
    ensures OpenBuys(trades) == []
  {
  }

  lemma BookBalances(
    cfg: Config, account: Account, side: Side, price: real, gross: real, size: real, timestamp: real, latencyMs: int)
    requires Balanced(cfg, account) && 0.0 < size
    ensures Balanced(cfg, Book(account, side, price, gross, size, timestamp, latencyMs))
  {
    hide Times;
    hide Blend;
    hide NetCash;
    hide NetSize;
    hide OpenBuys;
    hide Averages;
    var booked := Book(account, side, price, gross, size, timestamp, latencyMs);
    SumsAppend(account.trades, booked.trades[|account.trades|]);
    if side == Buy && booked.position > 0.0 {
      if account.average.Some? {
        AveragesAppend(OpenBuys(account.trades), account.average.value, price, size, booked.position);
      } else {
        NoOpenBuys(account.trades);
        AveragesOne(price);
        assert OpenBuys(booked.trades) == [price];
      }
    }
  }

  lemma ProcessOrderBalances(cfg: Config, snapshot: Snapshot, previousMid: Option<real>, order: Order, account: Account)
    requires Balanced(cfg, account)
    ensures Balanced(cfg, ProcessOrder(cfg, snapshot, previousMid, order, account).1)
  {
    hide Balanced;
    hide Book;
    hide FillOrder;
    hide ExecutionPrice;
    var (quantity, gross) := FillOrder(cfg, snapshot, order.side, order.remaining, previousMid);
    if quantity > 0.0 {
      BookBalances(cfg, account, order.side, ExecutionPrice(cfg, gross, order.side, quantity), gross, quantity,
        snapshot.timestamp, cfg.latencyMs);
    }
  }

  lemma {:induction false} PendingBalances(
    cfg: Config, index: int, snapshot: Snapshot, previousMid: Option<real>, orders: seq<Order>, account: Account)
    requires Balanced(cfg, account)
    ensures Balanced(cfg, ProcessPending(cfg, index, snapshot, previousMid, orders, account).1)
  {
    hide Balanced;
    hide ProcessOrder;
    if orders != [] {
      PendingBalances(cfg, index, snapshot, previousMid, orders[..|orders| - 1], account);
      var before := ProcessPending(cfg, index, snapshot, previousMid, orders[..|orders| - 1], account).1;
      ProcessOrderBalances(cfg, snapshot, previousMid, orders[|orders| - 1], before);
    }
  }

  /**
   * In every run, on any book and any signals: cash is the initial equity less what was paid plus what was received
   * at the recorded execution prices, the position is the signed sum of the recorded sizes, and an average entry
   * price exists exactly while the position is positive and lies between the lowest and highest buy since then.
   */
  lemma {:induction false} RunsBalance(cfg: Config, snapshots: seq<Snapshot>, signals: seq<real>, n: nat)
    requires n <= |snapshots| == |signals|
    ensures Balanced(cfg, Simulate(cfg, snapshots, signals, n).account)
  {
    hide Balanced;
    hide ProcessOrder;
    hide ProcessPending;
    hide NewOrder;
    if n > 0 {
      var i, s := n - 1, Simulate(cfg, snapshots, signals, n - 1);
      RunsBalance(cfg, snapshots, signals, i);
      PendingBalances(cfg, i, snapshots[i], PreviousMid(snapshots, i), s.pending, s.account);
      var (kept, account) := ProcessPending(cfg, i, snapshots[i], PreviousMid(snapshots, i), s.pending, s.account);
      var order := NewOrder(cfg, i, signals[i], account.position);
      if order.Some? {
        ProcessOrderBalances(cfg, snapshots[i], PreviousMid(snapshots, i), order.value, account);
      }
    } else {
      NewAccountBalances(cfg);
    }
  }

  lemma NewAccountBalances(cfg: Config)
    ensures Balanced(cfg, Initial(cfg).account)
  {
  }

  /**
   * Each point of the equity curve is the cash and the position at mid after that snapshot; the curve starts at the
   * initial equity.
   */
  lemma {:induction false} EquityCurveMarks(cfg: Config, snapshots: seq<Snapshot>, signals: seq<real>, n: nat, i: nat)
    requires i <= n <= |snapshots| == |signals|
    ensures var curve := Simulate(cfg, snapshots, signals, n).equityCurve;
            && |curve| == n + 1
            && curve[i] == if i == 0 then cfg.initialEquity
                else Equity(Simulate(cfg, snapshots, signals, i).account, snapshots[i - 1])
  {
    hide ProcessPending;
    hide PlaceOrder;
    hide NewOrder;
    hide Equity;
    if n > 0 {
      EquityCurveMarks(cfg, snapshots, signals, n - 1, if i < n then i else n - 1);
    }
  }

  // ---------- the cost of a fill ----------

  lemma ExecutionWorsens(cfg: Config, gross: real, side: Side, size: real)
    requires cfg.costs.Sane() && 0.0 <= gross && 0.0 <= size
    ensures if side == Buy then gross <= ExecutionPrice(cfg, gross, side, size)
        else ExecutionPrice(cfg, gross, side, size) <= gross
  {
    var fee, spread := FeeOf(cfg.costs, gross, size), cfg.costs.fxSpreadBps / 10000.0;
    ExecutionFactors(cfg, gross, side, size);
    FeeNonNegative(cfg.costs, gross, size);
    if side == Buy {
      MarkUp(gross + fee, 1.0 + spread);
    } else {
      MarkDown(gross - fee, gross, 1.0 - spread);
    }
  }

  /** The fee on a unit of a fill grows with the fill's size. */
  ghost function FeeOf(costs: CostModel, gross: real, size: real): real {
    gross * (costs.takerFee / 100.0) * size
  }

  lemma ExecutionFactors(cfg: Config, gross: real, side: Side, size: real)
    ensures var fee, spread := FeeOf(cfg.costs, gross, size), cfg.costs.fxSpreadBps / 10000.0;
            ExecutionPrice(cfg, gross, side, size)
            == if side == Buy then Times(gross + fee, 1.0 + spread) else Times(gross - fee, 1.0 - spread)
  {
  }

  lemma FeeNonNegative(costs: CostModel, gross: real, size: real)
    requires costs.Sane() && 0.0 <= gross && 0.0 <= size
    ensures 0.0 <= FeeOf(costs, gross, size)
  {
    TimesNonNegative(gross, costs.takerFee / 100.0);
    TimesNonNegative(gross * (costs.takerFee / 100.0), size);
  }

  lemma MarkUp(net: real, factor: real)
    requires 0.0 <= net && 1.0 <= factor
    ensures net <= Times(net, factor)
  {
    TimesNonNegative(net, factor - 1.0);
    assert net * (factor - 1.0) == net * factor - net;
  }

  lemma MarkDown(net: real, gross: real, factor: real)
    requires net <= gross && 0.0 <= gross && 0.0 <= factor <= 1.0
    ensures Times(net, factor) <= gross
  {
    if net >= 0.0 {
      TimesNonNegative(net, 1.0 - factor);
      assert net * (1.0 - factor) == net - net * factor;
    } else {
      TimesNonNegative(-net, factor);
      assert (-net) * factor == -(net * factor);
    }
  }

  lemma CostSplits(price: real, gross: real, size: real)
    ensures gross <= price ==> Times(price, size) == Times(gross, size) + Times(Abs(price - gross), size)
    ensures price <= gross ==> Times(price, size) == Times(gross, size) - Times(Abs(price - gross), size)
  {
  }

  /**
   * Every fill on an orderly book moves cash by its value at the book's average price, made worse by exactly the
   * recorded cost.
   */
  lemma FillMovesCash(cfg: Config, snapshot: Snapshot, previousMid: Option<real>, order: Order, account: Account)
    requires Orderly(cfg, snapshot) && cfg.costs.Sane() && cfg.maxSlippage <= 1.0
    requires 0.0 < FillOrder(cfg, snapshot, order.side, order.remaining, previousMid).0
    ensures var (quantity, gross) := FillOrder(cfg, snapshot, order.side, order.remaining, previousMid);
            var booked := ProcessOrder(cfg, snapshot, previousMid, order, account).1;
            && |booked.trades| == |account.trades| + 1
            && var trade := booked.trades[|account.trades|];
               && booked.trades == account.trades + [trade] && trade.timestamp == snapshot.timestamp
               && Acceptable(cfg, order.side, gross, BestPrice(snapshot, order.side))
               && trade.price == ExecutionPrice(cfg, gross, order.side, quantity)
               && 0.0 <= trade.cost == Times(Abs(trade.price - gross), quantity)
               && trade.size == quantity && trade.side == order.side
               && booked.cash == account.cash - trade.cost
                                 + if order.side == Buy then -Times(gross, quantity) else Times(gross, quantity)
  {
    hide FillOrder;
    hide ExecutionPrice;
    hide Times;
    hide Orderly;
    hide PriceLimit;
    var (quantity, gross) := FillOrder(cfg, snapshot, order.side, order.remaining, previousMid);
    var price := ExecutionPrice(cfg, gross, order.side, quantity);
    FillPriceBounds(cfg, snapshot, order.side, order.remaining, previousMid);
    BestIsPositive(cfg, snapshot, order.side, order.remaining, previousMid);
    SellLimitNonNegative(cfg, BestPrice(snapshot, order.side));
    ExecutionWorsens(cfg, gross, order.side, quantity);
    CostSplits(price, gross, quantity);
    CostNonNegative(price - gross, quantity);
  }

  lemma CostNonNegative(difference: real, size: real)
    requires 0.0 <= size
    ensures 0.0 <= Times(Abs(difference), size)
  {
  }

  lemma SellLimitNonNegative(cfg: Config, best: real)
    requires 0.0 <= best && cfg.maxSlippage <= 1.0
    ensures 0.0 <= PriceLimit(cfg, Sell, best)
  {
  }

  lemma BestIsPositive(cfg: Config, snapshot: Snapshot, side: Side, size: real, previousMid: Option<real>)
    requires Orderly(cfg, snapshot) && 0.0 < FillOrder(cfg, snapshot, side, size, previousMid).0
    ensures 0.0 < BestPrice(snapshot, side)
  {
    hide PriceAt;
    hide PriceWithinSlippage;
  }

  // ---------- the average entry price ----------

  /**
   * A buy that leaves a long position averages its price with the entry price so far, weighted by size; the first such
   * price stands alone. A sell leaves the average as it is, and without a long position there is none.
   */
  lemma AverageFollows(
    account: Account, side: Side, price: real, gross: real, size: real, timestamp: real, latencyMs: int)
    ensures var after := Book(account, side, price, gross, size, timestamp, latencyMs);
            && (after.position <= 0.0 ==> after.average == None)
            && (after.position > 0.0 && side == Sell ==> after.average == account.average)
            && (after.position > 0.0 && side == Buy && account.average == None ==> after.average == Some(price))
            && (after.position > 0.0 && side == Buy && account.average.Some? ==>
                  && after.average.Some?
                  && Times(after.average.value, after.position)
                     == Times(account.average.value, account.position) + Times(price, size))
  {
    hide Blend;
    hide Times;
    if side == Buy && account.position + size > 0.0 && account.average.Some? {
      BlendSum(account.average.value, price, size, account.position + size);
    }
  }

  // ---------- the costs of a run ----------

  ghost function TotalCost(trades: seq<Trade>): real {
    if trades == [] then 0.0 else TotalCost(trades[..|trades| - 1]) + trades[|trades| - 1].cost
  }

  /** Cash received less cash paid, were every trade settled at its book price. */
  ghost function GrossCash(trades: seq<Trade>, gross: seq<real>): real
    requires |gross| == |trades|
  {
    if trades == [] then 0.0
    else
      var n := |trades| - 1;
      var value := Times(gross[n], trades[n].size);
      GrossCash(trades[..n], gross[..n]) + if trades[n].side == Buy then -value else value
  }

  /**
   * The trade fills some order on the snapshot at a book price within its slippage limit, and records what that cost.
   */
  ghost predicate FillOf(cfg: Config, snapshot: Snapshot, trade: Trade, gross: real) {
    && trade.timestamp == snapshot.timestamp
    && Acceptable(cfg, trade.side, gross, BestPrice(snapshot, trade.side))
    && trade.price == ExecutionPrice(cfg, gross, trade.side, trade.size)
    && 0.0 <= trade.cost == Times(Abs(trade.price - gross), trade.size)
  }

  ghost predicate OnSome(cfg: Config, snapshots: seq<Snapshot>, n: nat, trade: Trade, gross: real)
    requires n <= |snapshots|
  {
    exists i :: 0 <= i < n && FillOf(cfg, snapshots[i], trade, gross)
  }

  /** With these book prices the account's cash is accounted for by gross value and recorded cost. */
  ghost predicate Traced(cfg: Config, snapshots: seq<Snapshot>, n: nat, account: Account, gross: seq<real>)
    requires n <= |snapshots|
  {
    && |gross| == |account.trades|
    && (forall k :: 0 <= k < |gross| ==> OnSome(cfg, snapshots, n, account.trades[k], gross[k]))
    && account.cash == cfg.initialEquity + GrossCash(account.trades, gross) - TotalCost(account.trades)
  }

  ghost predicate CostsAccounted(cfg: Config, snapshots: seq<Snapshot>, n: nat, account: Account)
    requires n <= |snapshots|
  {
    exists gross :: Traced(cfg, snapshots, n, account, gross)
  }

  lemma CostsAppend(trades: seq<Trade>, trade: Trade, gross: seq<real>, price: real)
    requires |gross| == |trades|
    ensures TotalCost(trades + [trade]) == TotalCost(trades) + trade.cost
    ensures GrossCash(trades + [trade], gross + [price])
         == GrossCash(trades, gross) + if trade.side == Buy then -Times(price, trade.size) else Times(price, trade.size)
  {
    assert (trades + [trade])[..|trades|] == trades;
    assert (gross + [price])[..|gross|] == gross;
  }

  /** Recording one more traced fill keeps the account traced. */
  lemma TracedAppend(
    cfg: Config, snapshots: seq<Snapshot>, n: nat, account: Account, gross: seq<real>, after: Account, price: real)
    requires 0 < n <= |snapshots| && Traced(cfg, snapshots, n, account, gross)
    requires |after.trades| == |account.trades| + 1 && after.trades == account.trades + [after.trades[|account.trades|]]
    requires var trade := after.trades[|account.trades|];
             && FillOf(cfg, snapshots[n - 1], trade, price)
             && after.cash == account.cash - trade.cost
                              + if trade.side == Buy then -Times(price, trade.size) else Times(price, trade.size)
    ensures Traced(cfg, snapshots, n, after, gross + [price])
  {
    hide FillOf;
    var trade := after.trades[|account.trades|];
    CostsAppend(account.trades, trade, gross, price);
    assert OnSome(cfg, snapshots, n, trade, price);
    forall k | 0 <= k < |gross|
      ensures OnSome(cfg, snapshots, n, after.trades[k], (gross + [price])[k])
    {
      assert after.trades[k] == account.trades[k];
    }
  }

  lemma OrderAccounted(
    cfg: Config, snapshots: seq<Snapshot>, n: nat, previousMid: Option<real>, order: Order, account: Account)
    requires 0 < n <= |snapshots| && CostsAccounted(cfg, snapshots, n, account)
    requires Orderly(cfg, snapshots[n - 1]) && cfg.costs.Sane() && cfg.maxSlippage <= 1.0
    ensures CostsAccounted(cfg, snapshots, n, ProcessOrder(cfg, snapshots[n - 1], previousMid, order, account).1)
  {
    hide FillOrder;
    hide Orderly;
    hide Book;
    hide Traced;
    hide Acceptable;
    hide ExecutionPrice;
    hide BestPrice;
    var snapshot := snapshots[n - 1];
    var (quantity, gross) := FillOrder(cfg, snapshot, order.side, order.remaining, previousMid);
    if quantity > 0.0 {
      var grosses :| Traced(cfg, snapshots, n, account, grosses);
      FillMovesCash(cfg, snapshot, previousMid, order, account);
      TracedAppend(cfg, snapshots, n, account, grosses, ProcessOrder(cfg, snapshot, previousMid, order, account).1,
        gross);
    }
  }

  lemma {:induction false} PendingAccounted(
    cfg: Config, index: int, snapshots: seq<Snapshot>, n: nat, previousMid: Option<real>, orders: seq<Order>,
    account: Account)
    requires 0 < n <= |snapshots| && CostsAccounted(cfg, snapshots, n, account)
    requires Orderly(cfg, snapshots[n - 1]) && cfg.costs.Sane() && cfg.maxSlippage <= 1.0
    ensures CostsAccounted(cfg, snapshots, n,
        ProcessPending(cfg, index, snapshots[n - 1], previousMid, orders, account).1)
  {
    hide CostsAccounted;
    hide ProcessOrder;
    hide Orderly;
    if orders != [] {
      var init := orders[..|orders| - 1];
      PendingAccounted(cfg, index, snapshots, n, previousMid, init, account);
      var before := ProcessPending(cfg, index, snapshots[n - 1], previousMid, init, account).1;
      OrderAccounted(cfg, snapshots, n, previousMid, orders[|orders| - 1], before);
    }
  }

  lemma AccountedLater(cfg: Config, snapshots: seq<Snapshot>, n: nat, account: Account)
    requires n < |snapshots| && CostsAccounted(cfg, snapshots, n, account)
    ensures CostsAccounted(cfg, snapshots, n + 1, account)
  {
    hide FillOf;
    hide GrossCash;
    var gross :| Traced(cfg, snapshots, n, account, gross);
    forall k | 0 <= k < |gross|
      ensures OnSome(cfg, snapshots, n + 1, account.trades[k], gross[k])
    {
      var i :| 0 <= i < n && FillOf(cfg, snapshots[i], account.trades[k], gross[k]);
    }
    assert Traced(cfg, snapshots, n + 1, account, gross);
  }

  /**
   * In every run over orderly books at sane costs, each recorded trade was filled on one of the snapshots at a book
   * price within its slippage limit, and cash is the initial equity plus the signed value at those book prices less the
   * total of the recorded costs.
   */
  lemma {:induction false} RunsAccountForCosts(cfg: Config, snapshots: seq<Snapshot>, signals: seq<real>, n: nat)
    requires n <= |snapshots| == |signals| && cfg.costs.Sane() && cfg.maxSlippage <= 1.0
    requires forall i :: 0 <= i < n ==> Orderly(cfg, snapshots[i])
    ensures CostsAccounted(cfg, snapshots, n, Simulate(cfg, snapshots, signals, n).account)
  {
    hide CostsAccounted;
    hide ProcessOrder;
    hide ProcessPending;
    hide NewOrder;
    hide Orderly;
    if n > 0 {
      var i, s := n - 1, Simulate(cfg, snapshots, signals, n - 1);
      var previousMid := PreviousMid(snapshots, i);
      RunsAccountForCosts(cfg, snapshots, signals, i);
      AccountedLater(cfg, snapshots, i, s.account);
      PendingAccounted(cfg, i, snapshots, n, previousMid, s.pending, s.account);
      var (kept, account) := ProcessPending(cfg, i, snapshots[i], previousMid, s.pending, s.account);
      var order := NewOrder(cfg, i, signals[i], account.position);
      if order.Some? {
        OrderAccounted(cfg, snapshots, n, previousMid, order.value, account);
      }
    } else {
      NothingToAccount(cfg, snapshots);
    }
  }

  lemma NothingToAccount(cfg: Config, snapshots: seq<Snapshot>)
    ensures CostsAccounted(cfg, snapshots, 0, Initial(cfg).account)
  {
    assert Traced(cfg, snapshots, 0, Initial(cfg).account, []);
  }
}
