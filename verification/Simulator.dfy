/**
 * The order simulator, `src/backtest/simulator.py`: signals become orders, entries wait out their latency, and
 * every order fills against the snapshot of the moment.
 */
module Simulator {
  import opened Numbers
  import opened Costs
  import opened OrderBook

  datatype Trade = Trade(timestamp: real, side: Side, price: real, size: real, latencyMs: int, cost: real)

  datatype Order = Order(side: Side, size: real, remaining: real, readyIndex: int, isExit: bool)

  datatype Account = Account(cash: real, position: real, average: Option<real>, trades: seq<Trade>)

  datatype State = State(account: Account, pending: seq<Order>, equityCurve: seq<real>)

  // ---------- one order ----------

  function ExecutionPrice(cfg: Config, gross: real, side: Side, size: real): real {
    cfg.costs.ApplyFxCost(cfg.costs.ApplyTradeCost(gross, side, Taker, size), side, 1.0)
  }

  function Blend(average: real, price: real, size: real, position: real): real
    requires position != 0.0
  {
    (average * (position - size) + price * size) / position
  }

  /** The average entry price after a buy has taken the position to `position`. */
  function UpdateAveragePrice(position: real, average: Option<real>, size: real, price: real): Option<real> {
    if position <= 0.0 then None
    else if average == None then Some(price)
    else Some(Blend(average.value, price, size, position))
  }

  /** Books a fill of `size` at an execution price of `price` against a book price of `gross`. */
  function Book(
    account: Account, side: Side, price: real, gross: real, size: real, timestamp: real, latencyMs: int): Account {
    var trade := Trade(timestamp, side, price, size, latencyMs, Times(Abs(price - gross), size));
    if side == Buy then
      var position := account.position + size;
      Account(account.cash - Times(price, size), position, UpdateAveragePrice(position, account.average, size, price),
        account.trades + [trade])
    else
      var position := account.position - size;
      var average := if position <= 0.0 then None else account.average;
      Account(account.cash + Times(price, size), position, average, account.trades + [trade])
  }

  function ProcessOrder(
    cfg: Config, snapshot: Snapshot, previousMid: Option<real>, order: Order, account: Account): (Order, Account) {
    var (quantity, gross) := FillOrder(cfg, snapshot, order.side, order.remaining, previousMid);
    if quantity <= 0.0 then (order, account)
    else
      (order.(remaining := order.remaining - quantity),
       Book(account, order.side, ExecutionPrice(cfg, gross, order.side, quantity), gross, quantity, snapshot.timestamp,
         cfg.latencyMs))
  }

  // ---------- one snapshot ----------

  /** Ready orders are tried in turn; an order stays pending until nothing of it remains. */
  function ProcessPending(
    cfg: Config, index: int, snapshot: Snapshot, previousMid: Option<real>, orders: seq<Order>, account: Account)
    : (seq<Order>, Account)
  {
    if orders == [] then ([], account)
    else
      var (kept, before) := ProcessPending(cfg, index, snapshot, previousMid, orders[..|orders| - 1], account);
      var order := orders[|orders| - 1];
      if order.readyIndex > index then (kept + [order], before)
      else
        var (after, booked) := ProcessOrder(cfg, snapshot, previousMid, order, before);
        (if after.remaining <= 0.0 then kept else kept + [after], booked)
  }

  function LatencySteps(cfg: Config): nat {
    if cfg.latencyMs < 0 then 0 else cfg.latencyMs / 100
  }

  /** The order a signal asks for when none is pending. */
  function NewOrder(cfg: Config, index: int, signal: real, position: real): Option<Order> {
    if position != 0.0 && signal == 0.0 then
      Some(Order(if position > 0.0 then Sell else Buy, Abs(position), Abs(position), index, true))
    else if signal > 0.0 && position <= 0.0 then
      Some(Order(Buy, cfg.positionSize, cfg.positionSize, index + LatencySteps(cfg), false))
    else if signal < 0.0 && position >= 0.0 then
      Some(Order(Sell, cfg.positionSize, cfg.positionSize, index + LatencySteps(cfg), false))
    else None
  }

  /** A new order due at once is tried once, and what does not fill is dropped; a later one is queued. */
  function PlaceOrder(
    cfg: Config, index: int, snapshot: Snapshot, previousMid: Option<real>, order: Option<Order>, pending: seq<Order>,
    account: Account)
    : (seq<Order>, Account)
  {
    if order == None then (pending, account)
    else if order.value.readyIndex <= index
      then (pending, ProcessOrder(cfg, snapshot, previousMid, order.value, account).1)
    else (pending + [order.value], account)
  }

  function Equity(account: Account, snapshot: Snapshot): real {
    account.cash + Times(account.position, MidPrice(snapshot))
  }

  function Step(cfg: Config, index: int, snapshot: Snapshot, previousMid: Option<real>, signal: real, s: State): State {
    var (pending, account) := ProcessPending(cfg, index, snapshot, previousMid, s.pending, s.account);
    var order := if pending == [] then NewOrder(cfg, index, signal, account.position) else None;
    var (pending', account') := PlaceOrder(cfg, index, snapshot, previousMid, order, pending, account);
    State(account', pending', s.equityCurve + [Equity(account', snapshot)])
  }

  // ---------- a run ----------

  function PreviousMid(snapshots: seq<Snapshot>, index: nat): Option<real>
    requires index <= |snapshots|
  {
    if index == 0 then None else Some(MidPrice(snapshots[index - 1]))
  }

  function Initial(cfg: Config): State {
    State(Account(cfg.initialEquity, 0.0, None, []), [], [cfg.initialEquity])
  }

  /** The state after the first `n` snapshots. */
  function Simulate(cfg: Config, snapshots: seq<Snapshot>, signals: seq<real>, n: nat): State
    requires n <= |snapshots| == |signals|
  {
    if n == 0 then Initial(cfg)
    else Step(cfg, n - 1, snapshots[n - 1], PreviousMid(snapshots, n - 1), signals[n - 1],
      Simulate(cfg, snapshots, signals, n - 1))
  }

  lemma SimulateNext(cfg: Config, snapshots: seq<Snapshot>, signals: seq<real>, n: nat)
    requires n < |snapshots| == |signals|
    ensures Simulate(cfg, snapshots, signals, n + 1)
         == Step(cfg, n, snapshots[n], PreviousMid(snapshots, n), signals[n], Simulate(cfg, snapshots, signals, n))
  {
  }

  lemma SimulateNone(cfg: Config, snapshots: seq<Snapshot>, signals: seq<real>)
    requires |snapshots| == |signals|
    ensures Simulate(cfg, snapshots, signals, 0) == Initial(cfg)
  {
  }

  // ---------- the program's objects ----------

  /** A queued order; what remains of it shrinks in place as it fills. */
  class PendingOrder {
    const side: Side
    const size: real
    var remainingSize: real
    const readyIndex: int
    const isExit: bool

    constructor (order: Order)
      ensures View() == order
    {
      side, size, remainingSize, readyIndex, isExit := order.side, order.size, order.remaining, order.readyIndex,
        order.isExit;
    }

    ghost function View(): Order
      reads this
    {
      Order(side, size, remainingSize, readyIndex, isExit)
    }
  }

  /** The simulator with the variables of one run. No more than one order is ever queued. */
  class EventDrivenSimulator {
    const cfg: Config
    var previousMidPrice: Option<real>
    var cash: real
    var positionSize: real
    var averageEntryPrice: Option<real>
    var trades: seq<Trade>
    var equityCurve: seq<real>
    var pendingOrders: seq<PendingOrder>

    ghost predicate Valid()
      reads this
    {
      |pendingOrders| <= 1
    }

    ghost function Holdings(): Account
      reads this
    {
      Account(cash, positionSize, averageEntryPrice, trades)
    }

    ghost function Queue(): seq<Order>
      reads this, pendingOrders
      requires Valid()
    {
      if pendingOrders == [] then [] else [pendingOrders[0].View()]
    }

    ghost function View(): State
      reads this, pendingOrders
      requires Valid()
    {
      State(Holdings(), Queue(), equityCurve)
    }

    /** The mock exchange's cost model stands in when none is given: no fee, a 10 basis point spread. */
    constructor (latencyMs: int, maxSlippage: real, initialEquity: real, positionSize: real, costs: Option<CostModel>,
                 queuePositionPenalty: real, impactPenalty: real, adverseSelectionPenalty: real)
      ensures Valid() && pendingOrders == [] && View() == Initial(cfg) && previousMidPrice == None
      ensures cfg == Config(latencyMs, maxSlippage, initialEquity, positionSize,
                            if costs.Some? then costs.value else CostModel(0.0, 0.0, 10.0),
                            queuePositionPenalty, impactPenalty, adverseSelectionPenalty)
    {
      cfg := Config(latencyMs, maxSlippage, initialEquity, positionSize,
                    if costs.Some? then costs.value else CostModel(0.0, 0.0, 10.0),
                    queuePositionPenalty, impactPenalty, adverseSelectionPenalty);
      previousMidPrice, cash, this.positionSize, averageEntryPrice := None, initialEquity, 0.0, None;
      trades, equityCurve, pendingOrders := [], [initialEquity], [];
    }

    /** The variables as a run sets them before its first snapshot. */
    method Start()
      modifies this
      ensures Valid() && pendingOrders == [] && View() == Initial(cfg) && previousMidPrice == None
    {
      previousMidPrice, cash, positionSize, averageEntryPrice := None, cfg.initialEquity, 0.0, None;
      trades, equityCurve, pendingOrders := [], [cfg.initialEquity], [];
    }

    /** Fills what it can of `order` and books it. */
    method Process(snapshot: Snapshot, order: PendingOrder, previousMid: Option<real>)
      modifies this`cash, this`positionSize, this`averageEntryPrice, this`trades, order
      ensures (order.View(), Holdings()) == ProcessOrder(cfg, snapshot, previousMid, old(order.View()), old(Holdings()))
    {
      var fillQty, avgPrice := FillQuantity(cfg, snapshot, order.side, order.remainingSize, previousMid);
      if fillQty <= 0.0 {
        return;
      }
      var executionPrice := ExecutionPrice(cfg, avgPrice, order.side, fillQty);
      var cost := Times(Abs(executionPrice - avgPrice), fillQty);
      if order.side == Buy {
        cash := cash - Times(executionPrice, fillQty);
        positionSize := positionSize + fillQty;
        averageEntryPrice := UpdateAveragePrice(positionSize, averageEntryPrice, fillQty, executionPrice);
      } else {
        cash := cash + Times(executionPrice, fillQty);
        positionSize := positionSize - fillQty;
        if positionSize <= 0.0 {
          averageEntryPrice := None;
        }
      }
      order.remainingSize := order.remainingSize - fillQty;
      trades := trades + [Trade(snapshot.timestamp, order.side, executionPrice, fillQty, cfg.latencyMs, cost)];
    }

    /** Tries every ready order of the queue, in order, and drops those that are done. */
    method ProcessPendingOrders(index: int, snapshot: Snapshot, previousMid: Option<real>)
      requires Valid()
      modifies this`cash, this`positionSize, this`averageEntryPrice, this`trades, this`pendingOrders, pendingOrders
      ensures Valid() && (pendingOrders == [] || pendingOrders == old(pendingOrders))
      ensures (Queue(), Holdings()) == ProcessPending(cfg, index, snapshot, previousMid, old(Queue()), old(Holdings()))
    {
      hide ProcessOrder;
      var orders := pendingOrders;
      OnePending(cfg, index, snapshot, previousMid, Queue(), Holdings());
      for k := 0 to |orders|
        invariant k == 0 ==> pendingOrders == orders && Queue() == old(Queue()) && Holdings() == old(Holdings())
        invariant Valid() && (pendingOrders == [] || pendingOrders == orders)
        invariant k == |orders| ==>
                    (Queue(), Holdings())
                    == ProcessPending(cfg, index, snapshot, previousMid, old(Queue()), old(Holdings()))
      {
        var order := orders[k];
        if order.readyIndex > index {
          continue;
        }
        Process(snapshot, order, previousMid);
        if order.remainingSize <= 0.0 {
          pendingOrders := [];
        }
      }
    }

    /** One snapshot: pending orders first, then the signal, then the equity mark. */
    method Advance(index: nat, snapshot: Snapshot, signal: real)
      requires Valid()
      modifies this, pendingOrders
      ensures Valid()
      ensures pendingOrders != [] && pendingOrders != old(pendingOrders) ==> fresh(pendingOrders[0])
      ensures View() == Step(cfg, index, snapshot, old(previousMidPrice), signal, old(View()))
      ensures previousMidPrice == Some(MidPrice(snapshot))
    {
      hide ProcessPending;
      hide ProcessOrder;
      var previousMid := previousMidPrice;
      previousMidPrice := Some(MidPrice(snapshot));
      ProcessPendingOrders(index, snapshot, previousMid);
      if pendingOrders == [] {
        var wanted := NewOrder(cfg, index, signal, positionSize);
        if wanted.Some? {
          var newOrder := new PendingOrder(wanted.value);
          if newOrder.readyIndex <= index {
            Process(snapshot, newOrder, previousMid);
          } else {
            pendingOrders := pendingOrders + [newOrder];
          }
        }
      }
      equityCurve := equityCurve + [cash + Times(positionSize, MidPrice(snapshot))];
    }
  }

  /** What processing a queue of one order comes to. */
  function PendingAlone(
    cfg: Config, index: int, snapshot: Snapshot, previousMid: Option<real>, order: Order,
    account: Account): (seq<Order>, Account) {
    if order.readyIndex > index then ([order], account)
    else
      var (after, booked) := ProcessOrder(cfg, snapshot, previousMid, order, account);
      (if after.remaining <= 0.0 then [] else [after], booked)
  }

  lemma OnePending(
    cfg: Config, index: int, snapshot: Snapshot, previousMid: Option<real>, orders: seq<Order>, account: Account)
    requires |orders| <= 1
    ensures ProcessPending(cfg, index, snapshot, previousMid, orders, account)
         == if orders == [] then ([], account) else PendingAlone(cfg, index, snapshot, previousMid, orders[0], account)
  {
    hide ProcessOrder;
    if orders != [] {
      var order, none: seq<Order> := orders[0], [];
      assert orders[..|orders| - 1] == none;
      assert ProcessPending(cfg, index, snapshot, previousMid, none, account) == (none, account);
      assert none + [order] == [order];
      if order.readyIndex <= index {
        var (after, booked) := ProcessOrder(cfg, snapshot, previousMid, order, account);
        assert none + [after] == [after];
      }
    }
  }

  /** A run: its trades and equity curve, or an error when the inputs do not match. Nothing of an earlier run stays. */
  method Run(
    simulator: EventDrivenSimulator, snapshots: seq<Snapshot>,
    signals: seq<real>) returns (r: Result<(seq<Trade>, seq<real>)>)
    modifies simulator
    ensures |snapshots| != |signals| ==> r.Err?
    ensures |snapshots| == |signals| == 0 ==> r == Ok(([], []))
    ensures |snapshots| == |signals| > 0 ==>
              var final := Simulate(simulator.cfg, snapshots, signals, |snapshots|);
              r == Ok((final.account.trades, final.equityCurve))
  {
    hide Step;
    hide Simulate;
    hide Initial;
    if |snapshots| != |signals| {
      return Err("snapshots and signals must be the same length");
    }
    if snapshots == [] {
      return Ok(([], []));
    }
    simulator.Start();
    SimulateNone(simulator.cfg, snapshots, signals);
    for index := 0 to |snapshots|
      invariant simulator.Valid()
      invariant simulator.pendingOrders != [] ==> fresh(simulator.pendingOrders[0])
      invariant simulator.View() == Simulate(simulator.cfg, snapshots, signals, index)
      invariant simulator.previousMidPrice == PreviousMid(snapshots, index)
    {
      SimulateNext(simulator.cfg, snapshots, signals, index);
      simulator.Advance(index, snapshots[index], signals[index]);
    }
    r := Ok((simulator.trades, simulator.equityCurve));
  }
}
