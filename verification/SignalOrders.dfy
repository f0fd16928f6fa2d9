/**
 * Which trades a simulator run makes, in terms of its signals and of the trades it has recorded: every trade answers a
 * signal, and every signal that asks for a trade is answered when its latency has passed.
 */
module SignalOrders {
  import opened Numbers
  import opened Costs
  import opened OrderBook
  import opened BookWalk
  import opened Simulator
  import opened SimulatorRuns

  /** The signed size of the first `m` trades: the position held after them. */
  ghost function HeldAfter(trades: seq<Trade>, m: nat): real
    requires m <= |trades|
  {
    if m == 0 then 0.0
    else HeldAfter(trades, m - 1) + if trades[m - 1].side == Buy then trades[m - 1].size else -trades[m - 1].size
  }

  /** An entry asked for on snapshot `o` may fill on snapshot `i`: a snapshot stands for 100 milliseconds. */
  ghost predicate Due(cfg: Config, o: int, i: int) {
    o <= i && 100 * (i - o + 1) > cfg.latencyMs
  }

  ghost predicate Wants(signal: real, side: Side) {
    if side == Buy then signal > 0.0 else signal < 0.0
  }

  /** Nothing is held on the given side. */
  ghost predicate NotOn(position: real, side: Side) {
    if side == Buy then position <= 0.0 else position >= 0.0
  }

  ghost function TradesOf(cfg: Config, snapshots: seq<Snapshot>, signals: seq<real>, n: nat): seq<Trade>
    requires n <= |snapshots| == |signals|
  {
    Simulate(cfg, snapshots, signals, n).account.trades
  }

  /** The position before snapshot `n`, from the trades recorded so far. */
  ghost function PositionAt(cfg: Config, snapshots: seq<Snapshot>, signals: seq<real>, n: nat): real
    requires n <= |snapshots| == |signals|
  {
    HeldAfter(TradesOf(cfg, snapshots, signals, n), |TradesOf(cfg, snapshots, signals, n)|)
  }

  lemma DueMeans(cfg: Config, o: int, i: int)
    requires o <= i
    ensures Due(cfg, o, i) <==> o + LatencySteps(cfg) <= i
  {
  }

  lemma {:induction false} HeldIsNet(trades: seq<Trade>, m: nat)
    requires m <= |trades|
    ensures HeldAfter(trades, m) == NetSize(trades[..m])
  {
    if m > 0 {
      HeldIsNet(trades, m - 1);
      assert trades[..m][..m - 1] == trades[..m - 1];
    }
  }

  lemma {:induction false} HeldOfPrefix(trades: seq<Trade>, more: seq<Trade>, m: nat)
    requires m <= |trades| && trades <= more
    ensures HeldAfter(trades, m) == HeldAfter(more, m)
  {
    if m > 0 {
      HeldOfPrefix(trades, more, m - 1);
    }
  }

  lemma PositionIsHeld(cfg: Config, account: Account)
    requires Balanced(cfg, account)
    ensures account.position == HeldAfter(account.trades, |account.trades|)
  {
    HeldIsNet(account.trades, |account.trades|);
    assert account.trades[..|account.trades|] == account.trades;
  }

  // ---------- one order ----------

  /** The trade is settled at the book's average price with costs, and records what those come to. */
  ghost predicate PricedFrom(cfg: Config, trade: Trade, gross: real) {
    && trade.price == ExecutionPrice(cfg, gross, trade.side, trade.size)
    && trade.cost == Times(Abs(trade.price - gross), trade.size)
  }

  /** Trying an order records at most one trade, of the order's side and of what the book fills. */
  lemma TryRecords(cfg: Config, snapshot: Snapshot, previousMid: Option<real>, order: Order, account: Account)
    ensures var (after, booked) := ProcessOrder(cfg, snapshot, previousMid, order, account);
            var quantity := FillOrder(cfg, snapshot, order.side, order.remaining, previousMid).0;
            && after == order.(remaining := after.remaining)
            && (quantity <= 0.0 ==> booked == account && after == order)
            && (quantity > 0.0 ==>
                  && |booked.trades| == |account.trades| + 1 && account.trades <= booked.trades
                  && booked.trades[|account.trades|].side == order.side
                  && booked.trades[|account.trades|].size == quantity
                  && booked.trades[|account.trades|].timestamp == snapshot.timestamp
                  && booked.trades[|account.trades|].latencyMs == cfg.latencyMs
                  && PricedFrom(cfg, booked.trades[|account.trades|],
                       FillOrder(cfg, snapshot, order.side, order.remaining, previousMid).1)
                  && booked.position == account.position + (if order.side == Buy then quantity else -quantity)
                  && after.remaining == order.remaining - quantity)
  {
    hide FillOrder;
    hide ExecutionPrice;
  }

  // ---------- one snapshot ----------

  /** What an entry in the queue knows: the snapshot whose signal asked for it, and when it becomes due. */
  ghost predicate Origin(
    cfg: Config, snapshots: seq<Snapshot>, signals: seq<real>, n: nat, order: Order, o: nat)
    requires n <= |snapshots| == |signals|
  {
    && o < n && order.readyIndex == o + LatencySteps(cfg) && o < order.readyIndex
    && !order.isExit && Wants(signals[o], order.side)
    && NotOn(PositionAt(cfg, snapshots, signals, o + 1), order.side)
    && (n <= order.readyIndex ==>
          && TradesOf(cfg, snapshots, signals, n) == TradesOf(cfg, snapshots, signals, o + 1)
          && order.remaining == order.size == cfg.positionSize)
  }

  ghost predicate HasOrigin(cfg: Config, snapshots: seq<Snapshot>, signals: seq<real>, n: nat, order: Order)
    requires n <= |snapshots| == |signals|
  {
    exists o: nat :: Origin(cfg, snapshots, signals, n, order, o)
  }

  /** After the queue has been worked through on snapshot `i`. */
  ghost function Worked(cfg: Config, snapshots: seq<Snapshot>, signals: seq<real>, i: nat): (seq<Order>, Account)
    requires i < |snapshots| == |signals|
  {
    var s := Simulate(cfg, snapshots, signals, i);
    ProcessPending(cfg, i, snapshots[i], PreviousMid(snapshots, i), s.pending, s.account)
  }

  lemma WorkedMeans(cfg: Config, snapshots: seq<Snapshot>, signals: seq<real>, i: nat)
    requires i < |snapshots| == |signals| && |Simulate(cfg, snapshots, signals, i).pending| <= 1
    ensures var s, worked := Simulate(cfg, snapshots, signals, i), Worked(cfg, snapshots, signals, i);
            worked == if s.pending == [] then ([], s.account)
                      else PendingAlone(cfg, i, snapshots[i], PreviousMid(snapshots, i), s.pending[0], s.account)
  {
    hide PendingAlone;
    hide ProcessPending;
    var s := Simulate(cfg, snapshots, signals, i);
    OnePending(cfg, i, snapshots[i], PreviousMid(snapshots, i), s.pending, s.account);
  }

  lemma NextMeans(cfg: Config, snapshots: seq<Snapshot>, signals: seq<real>, i: nat)
    requires i < |snapshots| == |signals|
    ensures var (kept, account) := Worked(cfg, snapshots, signals, i);
            var order := if kept == [] then NewOrder(cfg, i, signals[i], account.position) else None;
            var placed := PlaceOrder(cfg, i, snapshots[i], PreviousMid(snapshots, i), order, kept, account);
            var next := Simulate(cfg, snapshots, signals, i + 1);
            next.pending == placed.0 && next.account == placed.1
  {
    hide ProcessPending;
    hide PlaceOrder;
    hide NewOrder;
    hide Equity;
    SimulateNext(cfg, snapshots, signals, i);
  }

  lemma WorkedBalances(cfg: Config, snapshots: seq<Snapshot>, signals: seq<real>, i: nat)
    requires i < |snapshots| == |signals|
    ensures Balanced(cfg, Worked(cfg, snapshots, signals, i).1)
  {
    hide Balanced;
    hide ProcessPending;
    var s := Simulate(cfg, snapshots, signals, i);
    RunsBalance(cfg, snapshots, signals, i);
    PendingBalances(cfg, i, snapshots[i], PreviousMid(snapshots, i), s.pending, s.account);
  }

  /** What a fresh order answers: a signal of 0 against a position, or a signal on a side where nothing is held. */
  ghost predicate Answers(cfg: Config, index: int, signal: real, position: real, order: Order) {
    if order.isExit then
      && signal == 0.0 && NotOn(position, order.side) && position != 0.0 && order.readyIndex == index
      && order.remaining == order.size == Abs(position)
    else
      && Wants(signal, order.side) && NotOn(position, order.side) && order.readyIndex == index + LatencySteps(cfg)
      && order.remaining == order.size == cfg.positionSize
  }

  lemma NewOrderMeans(cfg: Config, index: int, signal: real, position: real)
    ensures var order := NewOrder(cfg, index, signal, position);
            && (order.Some? ==> Answers(cfg, index, signal, position, order.value))
            && (order == None <==>
                  && !(signal == 0.0 && position != 0.0)
                  && !(signal > 0.0 && position <= 0.0) && !(signal < 0.0 && position >= 0.0))
  {
    hide LatencySteps;
  }

  /** Nothing, a tried order or a queued one: what becomes of the snapshot once its queue has been worked through. */
  lemma PlacedMeans(cfg: Config, snapshots: seq<Snapshot>, signals: seq<real>, i: nat)
    requires i < |snapshots| == |signals|
    ensures var (kept, account) := Worked(cfg, snapshots, signals, i);
            var next, mid := Simulate(cfg, snapshots, signals, i + 1), PreviousMid(snapshots, i);
            var order := NewOrder(cfg, i, signals[i], account.position);
            if kept != [] || order == None then next.pending == kept && next.account == account
            else if order.value.readyIndex <= i then
              next.pending == [] && next.account == ProcessOrder(cfg, snapshots[i], mid, order.value, account).1
            else next.pending == [order.value] && next.account == account
  {
    hide Worked;
    hide NewOrder;
    hide ProcessOrder;
    hide Simulate;
    NextMeans(cfg, snapshots, signals, i);
  }

  // ---------- the queue ----------

  lemma EntryOrigin(cfg: Config, snapshots: seq<Snapshot>, signals: seq<real>, i: nat, order: Order)
    requires i < |snapshots| == |signals| && order.readyIndex > i
    requires Answers(cfg, i, signals[i], PositionAt(cfg, snapshots, signals, i + 1), order)
    ensures Origin(cfg, snapshots, signals, i + 1, order, i)
  {
    hide Simulate;
    hide LatencySteps;
  }

  lemma OriginLater(
    cfg: Config, snapshots: seq<Snapshot>, signals: seq<real>, i: nat, order: Order, after: Order, o: nat)
    requires i < |snapshots| == |signals| && Origin(cfg, snapshots, signals, i, order, o)
    requires after == order.(remaining := after.remaining)
    requires order.readyIndex > i ==>
               after == order && TradesOf(cfg, snapshots, signals, i + 1) == TradesOf(cfg, snapshots, signals, i)
    ensures Origin(cfg, snapshots, signals, i + 1, after, o)
  {
    hide TradesOf;
    hide LatencySteps;
    hide PositionAt;
  }

  /** The queue is empty or holds one entry, which answers the signal of an earlier snapshot. */
  lemma {:induction false} QueueKnowsOrigin(cfg: Config, snapshots: seq<Snapshot>, signals: seq<real>, n: nat)
    requires n <= |snapshots| == |signals|
    ensures |Simulate(cfg, snapshots, signals, n).pending| <= 1
    ensures forall order :: order in Simulate(cfg, snapshots, signals, n).pending ==>
              HasOrigin(cfg, snapshots, signals, n, order)
  {
    hide Worked;
    hide NewOrder;
    hide ProcessOrder;
    hide Origin;
    hide Answers;
    hide Step;
    if n > 0 {
      var i := n - 1;
      QueueKnowsOrigin(cfg, snapshots, signals, i);
      WorkedMeans(cfg, snapshots, signals, i);
      PlacedMeans(cfg, snapshots, signals, i);
      WorkedBalances(cfg, snapshots, signals, i);
      var s, next := Simulate(cfg, snapshots, signals, i), Simulate(cfg, snapshots, signals, n);
      var (kept, account) := Worked(cfg, snapshots, signals, i);
      if kept != [] {
        var order := s.pending[0];
        assert order in s.pending;
        var o: nat :| Origin(cfg, snapshots, signals, i, order, o);
        TryRecords(cfg, snapshots[i], PreviousMid(snapshots, i), order, s.account);
        OriginLater(cfg, snapshots, signals, i, order, kept[0], o);
      } else if next.pending != [] {
        NewOrderMeans(cfg, i, signals[i], account.position);
        PositionIsHeld(cfg, account);
        EntryOrigin(cfg, snapshots, signals, i, next.pending[0]);
      }
    }
  }

  // ---------- every trade answers a signal ----------

  /** Trade `k`, on snapshot `i`, fills an entry that the signal of snapshot `o` asked for, nothing held on its side. */
  ghost predicate FillsEntry(cfg: Config, snapshots: seq<Snapshot>, signals: seq<real>, o: nat, i: nat, k: nat)
    requires o <= i < |snapshots| == |signals| && k < |TradesOf(cfg, snapshots, signals, i + 1)|
  {
    var trades := TradesOf(cfg, snapshots, signals, i + 1);
    && Due(cfg, o, i) && Wants(signals[o], trades[k].side)
    && NotOn(if o < i then PositionAt(cfg, snapshots, signals, o + 1) else HeldAfter(trades, k), trades[k].side)
  }

  /** It trades against the position held, on a snapshot whose signal is 0. */
  ghost predicate ClosesPosition(cfg: Config, snapshots: seq<Snapshot>, signals: seq<real>, i: nat, k: nat)
    requires i < |snapshots| == |signals| && k < |TradesOf(cfg, snapshots, signals, i + 1)|
  {
    var trades := TradesOf(cfg, snapshots, signals, i + 1);
    signals[i] == 0.0 && HeldAfter(trades, k) != 0.0 && NotOn(HeldAfter(trades, k), trades[k].side)
  }

  lemma TradesOnSnapshot(cfg: Config, snapshots: seq<Snapshot>, signals: seq<real>, i: nat)
    requires i < |snapshots| == |signals|
    ensures var before, after := TradesOf(cfg, snapshots, signals, i), TradesOf(cfg, snapshots, signals, i + 1);
            before <= Worked(cfg, snapshots, signals, i).1.trades <= after
            && |Worked(cfg, snapshots, signals, i).1.trades| <= |before| + 1
            && |after| <= |Worked(cfg, snapshots, signals, i).1.trades| + 1
  {
    hide Worked;
    hide NewOrder;
    hide ProcessOrder;
    hide Step;
    var s, mid := Simulate(cfg, snapshots, signals, i), PreviousMid(snapshots, i);
    QueueKnowsOrigin(cfg, snapshots, signals, i);
    WorkedMeans(cfg, snapshots, signals, i);
    PlacedMeans(cfg, snapshots, signals, i);
    var account := Worked(cfg, snapshots, signals, i).1;
    if s.pending != [] {
      TryRecords(cfg, snapshots[i], mid, s.pending[0], s.account);
    }
    var order := NewOrder(cfg, i, signals[i], account.position);
    if order.Some? {
      TryRecords(cfg, snapshots[i], mid, order.value, account);
    }
  }

  lemma QueuedTradeAnswers(cfg: Config, snapshots: seq<Snapshot>, signals: seq<real>, i: nat, k: nat) returns (o: nat)
    requires i < |snapshots| == |signals|
    requires |TradesOf(cfg, snapshots, signals, i)| <= k < |Worked(cfg, snapshots, signals, i).1.trades|
    ensures k < |TradesOf(cfg, snapshots, signals, i + 1)|
    ensures o < i && FillsEntry(cfg, snapshots, signals, o, i, k)
  {
    hide Worked;
    hide NewOrder;
    hide ProcessOrder;
    hide Simulate;
    hide LatencySteps;
    hide Due;
    var s := Simulate(cfg, snapshots, signals, i);
    QueueKnowsOrigin(cfg, snapshots, signals, i);
    WorkedMeans(cfg, snapshots, signals, i);
    TradesOnSnapshot(cfg, snapshots, signals, i);
    var order := s.pending[0];
    assert order in s.pending;
    o :| Origin(cfg, snapshots, signals, i, order, o);
    TryRecords(cfg, snapshots[i], PreviousMid(snapshots, i), order, s.account);
    DueMeans(cfg, o, i);
  }

  /**
   * Every trade is explained: it either works against the position held, on a snapshot whose signal is 0, or it fills
   * an entry on the side that a signal asked for when nothing was held there, no sooner than the latency allows.
   */
  lemma TradeAnswersSignal(cfg: Config, snapshots: seq<Snapshot>, signals: seq<real>, i: nat, k: nat)
    requires i < |snapshots| == |signals|
    requires |TradesOf(cfg, snapshots, signals, i)| <= k < |TradesOf(cfg, snapshots, signals, i + 1)|
    ensures ClosesPosition(cfg, snapshots, signals, i, k)
         || exists o: nat :: o <= i && FillsEntry(cfg, snapshots, signals, o, i, k)
  {
    hide Worked;
    hide NewOrder;
    hide ProcessOrder;
    hide Simulate;
    hide LatencySteps;
    hide Due;
    var account := Worked(cfg, snapshots, signals, i).1;
    TradesOnSnapshot(cfg, snapshots, signals, i);
    if k < |account.trades| {
      var o := QueuedTradeAnswers(cfg, snapshots, signals, i, k);
    } else {
      PlacedMeans(cfg, snapshots, signals, i);
      NewOrderMeans(cfg, i, signals[i], account.position);
      WorkedBalances(cfg, snapshots, signals, i);
      PositionIsHeld(cfg, account);
      var trades := TradesOf(cfg, snapshots, signals, i + 1);
      HeldOfPrefix(account.trades, trades, k);
      var order := NewOrder(cfg, i, signals[i], account.position).value;
      TryRecords(cfg, snapshots[i], PreviousMid(snapshots, i), order, account);
      DueMeans(cfg, i, i);
      if !order.isExit {
        assert FillsEntry(cfg, snapshots, signals, i, i, k);
      }
    }
  }

  /** And every trade of a run was made on some snapshot. */
  lemma {:induction false} TradeHasSnapshot(cfg: Config, snapshots: seq<Snapshot>, signals: seq<real>, n: nat, k: nat)
    returns (i: nat)
    requires n <= |snapshots| == |signals| && k < |TradesOf(cfg, snapshots, signals, n)|
    ensures i < n && |TradesOf(cfg, snapshots, signals, i)| <= k < |TradesOf(cfg, snapshots, signals, i + 1)|
  {
    hide Step;
    if k < |TradesOf(cfg, snapshots, signals, n - 1)| {
      i := TradeHasSnapshot(cfg, snapshots, signals, n - 1, k);
    } else {
      i := n - 1;
    }
  }

  // ---------- every signal is answered ----------

  /** One more trade of `quantity` on `side`, if that is anything. */
  ghost predicate Adds(before: seq<Trade>, after: seq<Trade>, side: Side, quantity: real) {
    if quantity <= 0.0 then after == before
    else |after| == |before| + 1 && before <= after && after[|before|].side == side && after[|before|].size == quantity
  }

  /** With nothing queued, the snapshot is settled by the order its signal asks for, if any. */
  lemma IdleQueue(cfg: Config, snapshots: seq<Snapshot>, signals: seq<real>, i: nat)
    requires i < |snapshots| == |signals| && Simulate(cfg, snapshots, signals, i).pending == []
    ensures var s, next := Simulate(cfg, snapshots, signals, i), Simulate(cfg, snapshots, signals, i + 1);
            var order := NewOrder(cfg, i, signals[i], PositionAt(cfg, snapshots, signals, i));
            if order == None then next.pending == [] && next.account == s.account
            else if order.value.readyIndex > i then next.pending == [order.value] && next.account == s.account
            else
              && next.pending == []
              && next.account == ProcessOrder(cfg, snapshots[i], PreviousMid(snapshots, i), order.value, s.account).1
  {
    hide NewOrder;
    hide ProcessOrder;
    hide Simulate;
    hide Worked;
    hide Balanced;
    QueueKnowsOrigin(cfg, snapshots, signals, i);
    WorkedMeans(cfg, snapshots, signals, i);
    PlacedMeans(cfg, snapshots, signals, i);
    RunsBalance(cfg, snapshots, signals, i);
    PositionIsHeld(cfg, Simulate(cfg, snapshots, signals, i).account);
  }

  /**
   * A signal for a side on which nothing is held is answered: at once, with what the book fills of the configured size,
   * when there is no latency, and otherwise by an entry queued until the first snapshot on which it is due.
   */
  lemma EntryIsAnswered(cfg: Config, snapshots: seq<Snapshot>, signals: seq<real>, i: nat, side: Side)
    requires i < |snapshots| == |signals| && Simulate(cfg, snapshots, signals, i).pending == []
    requires Wants(signals[i], side) && NotOn(PositionAt(cfg, snapshots, signals, i), side)
    ensures var before, after := TradesOf(cfg, snapshots, signals, i), TradesOf(cfg, snapshots, signals, i + 1);
            var pending := Simulate(cfg, snapshots, signals, i + 1).pending;
            var fill := FillOrder(cfg, snapshots[i], side, cfg.positionSize, PreviousMid(snapshots, i));
            if Due(cfg, i, i) then pending == [] && Adds(before, after, side, fill.0)
            else
              && after == before && |pending| == 1 && pending[0].side == side
              && pending[0].remaining == cfg.positionSize
              && Due(cfg, i, pending[0].readyIndex) && !Due(cfg, i, pending[0].readyIndex - 1)
  {
    hide ProcessOrder;
    hide Simulate;
    hide FillOrder;
    hide PositionAt;
    var position := PositionAt(cfg, snapshots, signals, i);
    IdleQueue(cfg, snapshots, signals, i);
    var order := NewOrder(cfg, i, signals[i], position).value;
    TryRecords(cfg, snapshots[i], PreviousMid(snapshots, i), order, Simulate(cfg, snapshots, signals, i).account);
  }

  /** A signal of 0 against a position is answered at once, with what the book fills of the whole position. */
  lemma ExitIsAnswered(cfg: Config, snapshots: seq<Snapshot>, signals: seq<real>, i: nat, side: Side)
    requires i < |snapshots| == |signals| && Simulate(cfg, snapshots, signals, i).pending == []
    requires var position := PositionAt(cfg, snapshots, signals, i);
             signals[i] == 0.0 && position != 0.0 && NotOn(position, side)
    ensures var before, after := TradesOf(cfg, snapshots, signals, i), TradesOf(cfg, snapshots, signals, i + 1);
            var size := Abs(PositionAt(cfg, snapshots, signals, i));
            && Simulate(cfg, snapshots, signals, i + 1).pending == []
            && Adds(before, after, side, FillOrder(cfg, snapshots[i], side, size, PreviousMid(snapshots, i)).0)
  {
    hide ProcessOrder;
    hide Simulate;
    hide FillOrder;
    hide PositionAt;
    var position := PositionAt(cfg, snapshots, signals, i);
    IdleQueue(cfg, snapshots, signals, i);
    var order := NewOrder(cfg, i, signals[i], position).value;
    TryRecords(cfg, snapshots[i], PreviousMid(snapshots, i), order, Simulate(cfg, snapshots, signals, i).account);
  }

  /** Any other signal changes nothing. */
  lemma OtherSignalsIdle(cfg: Config, snapshots: seq<Snapshot>, signals: seq<real>, i: nat)
    requires i < |snapshots| == |signals| && Simulate(cfg, snapshots, signals, i).pending == []
    requires var position := PositionAt(cfg, snapshots, signals, i);
             && !(signals[i] == 0.0 && position != 0.0)
             && forall side :: !(Wants(signals[i], side) && NotOn(position, side))
    ensures Simulate(cfg, snapshots, signals, i + 1).pending == []
    ensures TradesOf(cfg, snapshots, signals, i + 1) == TradesOf(cfg, snapshots, signals, i)
  {
    hide ProcessOrder;
    hide Simulate;
    hide PositionAt;
    var position := PositionAt(cfg, snapshots, signals, i);
    IdleQueue(cfg, snapshots, signals, i);
    assert !(Wants(signals[i], Buy) && NotOn(position, Buy)) && !(Wants(signals[i], Sell) && NotOn(position, Sell));
  }

  /**
   * A queued entry waits, whole and with nothing traded, until it is due, and is tried on every snapshot from then on
   * with what the book fills of its remainder, until nothing remains.
   */
  lemma QueuedEntryIsTried(cfg: Config, snapshots: seq<Snapshot>, signals: seq<real>, i: nat, order: Order)
    requires i < |snapshots| == |signals| && Simulate(cfg, snapshots, signals, i).pending == [order]
    ensures exists o: nat :: Origin(cfg, snapshots, signals, i, order, o)
    ensures forall o: nat :: Origin(cfg, snapshots, signals, i, order, o) ==>
              var fill := FillOrder(cfg, snapshots[i], order.side, order.remaining, PreviousMid(snapshots, i)).0;
              if Due(cfg, o, i) then WorksOff(cfg, snapshots, signals, i, order, fill)
              else
                && Simulate(cfg, snapshots, signals, i + 1).pending == [order]
                && TradesOf(cfg, snapshots, signals, i + 1) == TradesOf(cfg, snapshots, signals, i)
  {
    hide ProcessOrder;
    hide Simulate;
    hide FillOrder;
    hide NewOrder;
    hide Worked;
    hide Due;
    hide LatencySteps;
    var s, mid := Simulate(cfg, snapshots, signals, i), PreviousMid(snapshots, i);
    QueueKnowsOrigin(cfg, snapshots, signals, i);
    assert order in s.pending;
    WorkedMeans(cfg, snapshots, signals, i);
    PlacedMeans(cfg, snapshots, signals, i);
    TradesOnSnapshot(cfg, snapshots, signals, i);
    TryRecords(cfg, snapshots[i], mid, order, s.account);
    forall o: nat | Origin(cfg, snapshots, signals, i, order, o)
      ensures Due(cfg, o, i) <==> order.readyIndex <= i
    {
      DueMeans(cfg, o, i);
    }
  }

  /** The first trade of the snapshot is `fill` of the queued order; what then remains of it, if anything, is kept. */
  ghost predicate WorksOff(
    cfg: Config, snapshots: seq<Snapshot>, signals: seq<real>, i: nat, order: Order, fill: real)
    requires i < |snapshots| == |signals|
  {
    var before, after := TradesOf(cfg, snapshots, signals, i), TradesOf(cfg, snapshots, signals, i + 1);
    && (fill > 0.0 ==>
          && |after| > |before| && before <= after
          && after[|before|].side == order.side && after[|before|].size == fill)
    && (order.remaining > Max(fill, 0.0) ==>
          && Simulate(cfg, snapshots, signals, i + 1).pending == [order.(remaining := order.remaining - Max(fill, 0.0))]
          && |after| == |before| + if fill > 0.0 then 1 else 0)
  }

  // ---------- the position a signal leads to ----------

  lemma {:induction false} NothingQueuedWithoutLatency(
    cfg: Config, snapshots: seq<Snapshot>, signals: seq<real>, n: nat)
    requires n <= |snapshots| == |signals| && cfg.latencyMs < 100
    ensures Simulate(cfg, snapshots, signals, n).pending == []
  {
    hide Step;
    hide Origin;
    QueueKnowsOrigin(cfg, snapshots, signals, n);
    if Simulate(cfg, snapshots, signals, n).pending != [] {
      var order := Simulate(cfg, snapshots, signals, n).pending[0];
      assert order in Simulate(cfg, snapshots, signals, n).pending;
      var o: nat :| Origin(cfg, snapshots, signals, n, order, o);
      NoLatencyNoOrigin(cfg, snapshots, signals, n, order, o);
    }
  }

  lemma NoLatencyNoOrigin(
    cfg: Config, snapshots: seq<Snapshot>, signals: seq<real>, n: nat, order: Order, o: nat)
    requires n <= |snapshots| == |signals| && cfg.latencyMs < 100
    ensures !Origin(cfg, snapshots, signals, n, order, o)
  {
    hide Simulate;
  }

  /** The position after one more trade. */
  lemma HeldAdds(before: seq<Trade>, after: seq<Trade>, side: Side, quantity: real)
    requires Adds(before, after, side, quantity) && quantity >= 0.0
    ensures HeldAfter(after, |after|) == HeldAfter(before, |before|) + if side == Buy then quantity else -quantity
  {
    if quantity > 0.0 {
      HeldOfPrefix(before, after, |before|);
    }
  }

  /**
   * Without latency, and where the book fills the whole configured size, a signal moves the position by that size
   * towards its side unless the position is there already. So the position ends on the signal's side if and only if it
   * was not a whole size away on the other: a reversal of a full position only closes it.
   */
  lemma PositionFollowsSignal(cfg: Config, snapshots: seq<Snapshot>, signals: seq<real>, i: nat, side: Side)
    requires i < |snapshots| == |signals| && cfg.latencyMs < 100 && 0.0 < cfg.positionSize
    requires Wants(signals[i], side)
    requires FillOrder(cfg, snapshots[i], side, cfg.positionSize, PreviousMid(snapshots, i)).0 == cfg.positionSize
    ensures var before, after := PositionAt(cfg, snapshots, signals, i), PositionAt(cfg, snapshots, signals, i + 1);
            && (NotOn(before, side) ==>
                  after == before + if side == Buy then cfg.positionSize else -cfg.positionSize)
            && (!NotOn(before, side) ==> after == before)
            && (!NotOn(after, side) <==> if side == Buy then before > -cfg.positionSize else before < cfg.positionSize)
  {
    hide Simulate;
    hide FillOrder;
    NothingQueuedWithoutLatency(cfg, snapshots, signals, i);
    var before, after := TradesOf(cfg, snapshots, signals, i), TradesOf(cfg, snapshots, signals, i + 1);
    if NotOn(PositionAt(cfg, snapshots, signals, i), side) {
      EntryIsAnswered(cfg, snapshots, signals, i, side);
      HeldAdds(before, after, side, cfg.positionSize);
    } else {
      OtherSignalsIdle(cfg, snapshots, signals, i);
    }
  }

  // ---------- prices between the snapshots ----------

  /** The adverse-selection charge compares with the mid price of the snapshot before; the first has none. */
  lemma PreviousMidMeans(snapshots: seq<Snapshot>, i: nat)
    requires i <= |snapshots|
    ensures PreviousMid(snapshots, i) == None <==> i == 0
    ensures i > 0 ==> IsMid(snapshots[i - 1], PreviousMid(snapshots, i).value)
  {
  }

  /** Each point of the curve after a snapshot is the cash and the position valued half way between the best prices. */
  lemma EquityIsMarked(cfg: Config, snapshots: seq<Snapshot>, signals: seq<real>, n: nat, i: nat, mid: real)
    requires 0 < i <= n <= |snapshots| == |signals| && IsMid(snapshots[i - 1], mid)
    ensures var curve := Simulate(cfg, snapshots, signals, n).equityCurve;
            var account := Simulate(cfg, snapshots, signals, i).account;
            |curve| == n + 1 && curve[i] == account.cash + Times(account.position, mid)
  {
    hide Simulate;
    hide Times;
    EquityCurveMarks(cfg, snapshots, signals, n, i);
    MidMeans(snapshots[i - 1]);
  }
}
