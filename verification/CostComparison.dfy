/** Two runs of the same strategy that differ only in their costs. */
module CostComparison {
  import opened Numbers
  import opened Costs
  import opened Market
  import opened Backtest
  import opened BacktestRuns

  /**
   * The same backtest without a risk manager, on positive prices, under two cost models of which `dear` charges no
   * less.
   */
  ghost predicate Comparable(cheap: Backtester, dear: Backtester, bars: seq<Bar>) {
    && cheap.risk == None && dear.risk == None
    && 0.0 < cheap.initialEquity == dear.initialEquity
    && SaneModel(cheap.costs) && SaneModel(dear.costs) && NoDearer(cheap.costs, dear.costs)
    && forall i :: 0 <= i < |bars| ==> 0.0 < bars[i].close
  }

  /**
   * No short is bought back at more than twice the price it was sold at, so none loses more than the equity behind it.
   */
  ghost predicate NoShortDoubles(trades: seq<TradeRecord>) {
    forall i :: 0 <= i < |trades| ==> Survivable(trades[i])
  }

  ghost predicate Survivable(trade: TradeRecord) {
    trade.long || trade.exitPrice <= 2.0 * trade.entryPrice
  }

  /** The dear book holds the same side from a no better price, with no more equity. */
  ghost predicate Trails(dear: Book, cheap: Book) {
    && 0.0 <= dear.equity <= cheap.equity
    && dear.block == None && cheap.block == None
    && match (dear.position, cheap.position)
       case (Flat, Flat) => true
       case (Open(long, entry, size, _), Open(long', entry', size', _)) =>
         && long == long' && size == size' == 1.0
         && 0.0 < entry && 0.0 < entry' && (if long then entry' <= entry else entry <= entry')
       case _ => false
  }

  ghost predicate SameTrade(a: Option<TradeRecord>, b: Option<TradeRecord>) {
    || (a == None && b == None)
    || (a.Some? && b.Some? && a.value.timestamp == b.value.timestamp && a.value.long == b.value.long)
  }

  lemma CostedOrder(cheap: Option<CostModel>, dear: Option<CostModel>, price: real, side: Side)
    requires SaneModel(cheap) && SaneModel(dear) && NoDearer(cheap, dear) && 0.0 < price
    ensures 0.0 < Costed(cheap, price, side) && 0.0 < Costed(dear, price, side)
    ensures if side == Buy then Costed(cheap, price, side) <= Costed(dear, price, side)
        else Costed(dear, price, side) <= Costed(cheap, price, side)
  {
    hide Costed;
    hide Factor;
    CostedIsProportional(cheap, price, side);
    CostedIsProportional(dear, price, side);
    FactorPositive(cheap, side);
    FactorPositive(dear, side);
    DearerFactors(cheap, dear, side);
    TimesPositive(price, Factor(cheap, side));
    TimesPositive(price, Factor(dear, side));
    if side == Buy {
      TimesLess(price, price, Factor(cheap, side), Factor(dear, side));
    } else {
      TimesLess(price, price, Factor(dear, side), Factor(cheap, side));
    }
  }

  lemma FactorSign(factor: real, y: real)
    requires 0.0 < y && 0.0 < factor * y
    ensures 0.0 < factor
  {
  }

  lemma FactorCancels(factor: real, factor': real, y: real)
    requires 0.0 < y && factor * y <= factor' * y
    ensures factor <= factor'
  {
    assert (factor' - factor) * y >= 0.0;
  }

  /** A ratio of positive prices falls when its numerator falls and its denominator rises. */
  lemma RatioLess(g: real, y: real, g': real, y': real)
    requires 0.0 < g' * y' && g * y <= g' * y' && 0.0 < y' <= y
    ensures g <= g'
  {
    FactorSign(g', y');
    assert g' * y' <= g' * y;
    FactorCancels(g, g', y);
  }

  lemma MoveGrows(entry: real, price: real)
    requires entry != 0.0
    ensures (1.0 + PriceMove(entry, price)) * entry == price
  {
  }

  lemma PriceMoveOrder(entry: real, exit: real, entry': real, exit': real)
    requires 0.0 < entry' <= entry && 0.0 < exit <= exit'
    ensures PriceMove(entry, exit) <= PriceMove(entry', exit')
  {
    hide PriceMove;
    MoveGrows(entry, exit);
    MoveGrows(entry', exit');
    RatioLess(1.0 + PriceMove(entry, exit), entry, 1.0 + PriceMove(entry', exit'), entry');
  }

  lemma ShortReturnIsFall(entry: real, exit: real)
    ensures TradeReturn(false, entry, exit) == -PriceMove(entry, exit)
  {
  }

  lemma TradeReturnOrder(long: bool, entry: real, exit: real, entry': real, exit': real)
    requires 0.0 < entry && 0.0 < entry' && 0.0 < exit && 0.0 < exit'
    requires if long then entry' <= entry && exit <= exit' else entry <= entry' && exit' <= exit
    ensures TradeReturn(long, entry, exit) <= TradeReturn(long, entry', exit')
  {
    hide PriceMove;
    if long {
      PriceMoveOrder(entry, exit, entry', exit');
    } else {
      ShortReturnIsFall(entry, exit);
      ShortReturnIsFall(entry', exit');
      PriceMoveOrder(entry', exit', entry, exit);
    }
  }

  lemma ReturnAboveRuin(long: bool, entry: real, exit: real)
    requires 0.0 < entry && 0.0 < exit && (long || exit <= 2.0 * entry)
    ensures -1.0 <= TradeReturn(long, entry, exit)
  {
    var r := TradeReturn(long, entry, exit);
    assert r * entry == if long then exit - entry else entry - exit;
    assert (r + 1.0) * entry >= 0.0;
  }

  lemma CompoundOrder(equity: real, equity': real, ret: real, ret': real)
    requires 0.0 <= equity <= equity' && -1.0 <= ret <= ret'
    ensures 0.0 <= Compound(equity, 1.0, ret) <= Compound(equity', 1.0, ret')
  {
    assert equity * (1.0 + ret) <= equity' * (1.0 + ret);
    assert equity' * (1.0 + ret) <= equity' * (1.0 + ret');
  }

  lemma ClosingOrder(cheap: Backtester, dear: Backtester, bar: Bar, book: Book, book': Book, reason: Option<string>)
    requires cheap.risk == None && dear.risk == None && 0.0 < bar.close
    requires SaneModel(cheap.costs) && SaneModel(dear.costs) && NoDearer(cheap.costs, dear.costs)
    requires Trails(book, book') && book.position.Open?
    requires var p := book.position; Survivable(Close(dear, bar, book.equity, p.long, p.entry, p.size, reason))
    ensures var p, p' := book.position, book'.position;
            0.0 <= Close(dear, bar, book.equity, p.long, p.entry, p.size, reason).equityAfter
                <= Close(cheap, bar, book'.equity, p'.long, p'.entry, p'.size, reason).equityAfter
  {
    hide Costed;
    hide TradeReturn;
    hide Compound;
    var long, side := book.position.long, ExitSide(book.position.long);
    CostedOrder(cheap.costs, dear.costs, bar.close, side);
    var exit, exit' := Costed(dear.costs, bar.close, side), Costed(cheap.costs, bar.close, side);
    TradeReturnOrder(long, book.position.entry, exit, book'.position.entry, exit');
    ReturnAboveRuin(long, book.position.entry, exit);
    CompoundOrder(book.equity, book'.equity, TradeReturn(long, book.position.entry, exit),
      TradeReturn(long, book'.position.entry, exit'));
  }

  /** One bar keeps the dear book behind the cheap one, and both trade or neither does. */
  lemma TrailingBar(
    cheap: Backtester, dear: Backtester, bars: seq<Bar>, i: nat, raw: RawSignal, book: Book, book': Book)
    requires i < |bars| && Comparable(cheap, dear, bars)
    requires Trails(book, book')
    requires var closed := Step(dear, bars, i, raw, book).1; closed.Some? ==> Survivable(closed.value)
    ensures var after, after' := Step(dear, bars, i, raw, book), Step(cheap, bars, i, raw, book');
            Trails(after.0, after'.0) && SameTrade(after.1, after'.1)
  {
    hide Costed;
    hide TradeReturn;
    hide Compound;
    CostedOrder(cheap.costs, dear.costs, bars[i].close, Buy);
    CostedOrder(cheap.costs, dear.costs, bars[i].close, Sell);
    if Step(dear, bars, i, raw, book).1.Some? {
      ClosingOrder(cheap, dear, bars[i], book, book', None);
    }
  }

  /** Everything the two runs agree on after any number of bars, and how their equity compares. */
  ghost predicate RunTrails(dear: Trace, cheap: Trace) {
    && Trails(dear.book, cheap.book)
    && |dear.equities| == |cheap.equities| && |dear.trades| == |cheap.trades| && dear.exposures == cheap.exposures
    && (forall i :: 0 <= i < |dear.equities| ==> 0.0 <= dear.equities[i] <= cheap.equities[i])
    && (forall j :: 0 <= j < |dear.trades| ==>
          dear.trades[j].timestamp == cheap.trades[j].timestamp && dear.trades[j].long == cheap.trades[j].long)
  }

  lemma TrailsExtend(
    dear: Trace, cheap: Trace, step: (Book, Option<TradeRecord>), step': (Book, Option<TradeRecord>), close: real)
    requires RunTrails(dear, cheap) && Trails(step.0, step'.0) && SameTrade(step.1, step'.1)
    ensures RunTrails(Extend(dear, step, close), Extend(cheap, step', close))
  {
    hide Mark;
  }

  /**
   * Raising the taker fee or the FX spread leaves the position held at every bar, and the bar and side of every
   * trade, as they were, and equity no higher at any bar.
   */
  lemma {:induction false} DearerRunTrails(
    cheap: Backtester, dear: Backtester, bars: seq<Bar>, signals: seq<RawSignal>, n: nat)
    requires Comparable(cheap, dear, bars) && Runs(cheap, bars, signals, n) && Runs(dear, bars, signals, n)
    requires NoShortDoubles(Simulate(dear, bars, signals, n).trades)
    ensures RunTrails(Simulate(dear, bars, signals, n), Simulate(cheap, bars, signals, n))
  {
    hide Step;
    hide Mark;
    hide Survivable;
    if n > 1 {
      var before, before' := Simulate(dear, bars, signals, n - 1), Simulate(cheap, bars, signals, n - 1);
      var step, step' := Step(dear, bars, n - 1, signals[n - 1], before.book),
        Step(cheap, bars, n - 1, signals[n - 1], before'.book);
      var after := Simulate(dear, bars, signals, n);
      assert after == Extend(before, step, bars[n - 1].close);
      assert forall j :: 0 <= j < |before.trades| ==> before.trades[j] == after.trades[j];
      DearerRunTrails(cheap, dear, bars, signals, n - 1);
      assert step.1.Some? ==> after.trades[|after.trades| - 1] == step.1.value;
      TrailingBar(cheap, dear, bars, n - 1, signals[n - 1], before.book, before'.book);
      TrailsExtend(before, before', step, step', bars[n - 1].close);
    }
  }

  // ---------- marked to market ----------

  /** A short that has not more than doubled, so that its mark is not negative. */
  ghost predicate Calm(position: Position, close: real) {
    position.Open? && !position.long ==> close <= 2.0 * position.entry
  }

  lemma MarkOrder(dear: Book, cheap: Book, close: real)
    requires Trails(dear, cheap) && 0.0 < close && Calm(dear.position, close)
    ensures 0.0 <= Mark(dear.equity, dear.position, close) <= Mark(cheap.equity, cheap.position, close)
  {
    hide PriceMove;
    hide Compound;
    if dear.position.Open? {
      var long, entry, entry' := dear.position.long, dear.position.entry, cheap.position.entry;
      if !long {
        ShortReturnIsFall(entry, close);
        ShortReturnIsFall(entry', close);
      }
      TradeReturnOrder(long, entry, close, entry', close);
      ReturnAboveRuin(long, entry, close);
      CompoundOrder(dear.equity, cheap.equity, TradeReturn(long, entry, close), TradeReturn(long, entry', close));
    }
  }

  /** At every bar at which no open short of the dearer run has more than doubled, its mark is no higher either. */
  lemma {:induction false} DearerMarksTrail(
    cheap: Backtester, dear: Backtester, bars: seq<Bar>, signals: seq<RawSignal>, n: nat, i: nat)
    requires Comparable(cheap, dear, bars) && Runs(cheap, bars, signals, n) && i < n
    requires NoShortDoubles(Simulate(dear, bars, signals, n).trades)
    requires Calm(Simulate(dear, bars, signals, i + 1).book.position, bars[i].close)
    ensures 0.0 <= Simulate(dear, bars, signals, n).marks[i] <= Simulate(cheap, bars, signals, n).marks[i]
  {
    hide Step;
    hide Mark;
    hide Survivable;
    hide Calm;
    hide Simulate;
    RunsExtend(dear, bars, signals, i + 1, n);
    var early, late := Simulate(dear, bars, signals, i + 1).trades, Simulate(dear, bars, signals, n).trades;
    assert forall j :: 0 <= j < |early| ==> early[j] == late[j];
    DearerRunTrails(cheap, dear, bars, signals, i + 1);
    SeriesAt(dear, bars, signals, i, n);
    SeriesAt(cheap, bars, signals, i, n);
    MarkOrder(Simulate(dear, bars, signals, i + 1).book, Simulate(cheap, bars, signals, i + 1).book, bars[i].close);
  }

  // ---------- a short that has more than doubled ----------

  function Quote(time: real, close: real): Bar {
    Bar(time, None, None, close, None)
  }

  /** In and out at 100, then short at 100 through a spike to 500. */
  const SPIKE: seq<Bar> :=
    [Quote(0.0, 100.0), Quote(1.0, 100.0), Quote(2.0, 100.0), Quote(3.0, 100.0), Quote(4.0, 500.0), Quote(5.0, 50.0)]

  const SPIKE_SIGNALS: seq<RawSignal> :=
    [Number(0.0), Number(1.0), Number(0.0), Number(-1.0), Number(-1.0), Number(0.0)]

  const FREE: Backtester := Backtester(Strategy(history => Missing, Some(bars => SPIKE_SIGNALS)), 1.0, None, None)

  const HALF: Backtester := FREE.(costs := Some(CostModel(0.0, 50.0, 0.0)))

  /** In at `buy` on bar 1, out at `sell` on bar 2. */
  lemma SpikeRoundTrip(bt: Backtester, buy: real, sell: real)
    requires bt == FREE || bt == HALF
    requires buy == Costed(bt.costs, 100.0, Buy) && sell == Costed(bt.costs, 100.0, Sell)
    ensures var t := Simulate(bt, SPIKE, SPIKE_SIGNALS, 3);
            && t.book.equity == Compound(1.0, 1.0, TradeReturn(true, buy, sell))
            && t.book.position == Flat && t.book.block == None
            && |t.trades| == 1 && t.trades[0].long
  {
    hide Costed;
    hide Compound;
    hide TradeReturn;
    hide Mark;
    hide Exposure;
    SimulateFirst(bt, SPIKE, SPIKE_SIGNALS);
    SimulateNext(bt, SPIKE, SPIKE_SIGNALS, 1);
    SimulateNext(bt, SPIKE, SPIKE_SIGNALS, 2);
    var one := Step(bt, SPIKE, 1, SPIKE_SIGNALS[1], Book(1.0, 1.0, Flat, None));
    assert one == (Book(1.0, 1.0, Open(true, buy, 1.0, 0), None), None);
  }

  /** Short at `sell` on bar 3, and still short on bar 4. */
  lemma SpikeShort(bt: Backtester, buy: real, sell: real)
    requires bt == FREE || bt == HALF
    requires buy == Costed(bt.costs, 100.0, Buy) && sell == Costed(bt.costs, 100.0, Sell)
    ensures var t, start := Simulate(bt, SPIKE, SPIKE_SIGNALS, 5), Simulate(bt, SPIKE, SPIKE_SIGNALS, 3);
            && t.book.equity == start.book.equity && t.book.position == Open(false, sell, 1.0, 1)
            && t.book.block == None && t.trades == start.trades
  {
    hide Costed;
    hide Compound;
    hide TradeReturn;
    hide Mark;
    hide Exposure;
    var start := Simulate(bt, SPIKE, SPIKE_SIGNALS, 3).book;
    SpikeRoundTrip(bt, buy, sell);
    SimulateNext(bt, SPIKE, SPIKE_SIGNALS, 3);
    SimulateNext(bt, SPIKE, SPIKE_SIGNALS, 4);
    var three := Step(bt, SPIKE, 3, SPIKE_SIGNALS[3], start);
    assert three == (Book(start.equity, Max(start.peak, start.equity), Open(false, sell, 1.0, 0), None), None);
  }

  /** Bought back at `cover` on bar 5. */
  lemma SpikeCover(bt: Backtester, buy: real, sell: real, cover: real)
    requires bt == FREE || bt == HALF
    requires buy == Costed(bt.costs, 100.0, Buy) && sell == Costed(bt.costs, 100.0, Sell)
    requires cover == Costed(bt.costs, 50.0, Buy)
    ensures var start := Simulate(bt, SPIKE, SPIKE_SIGNALS, 5).trades;
            var end := Simulate(bt, SPIKE, SPIKE_SIGNALS, 6).trades;
            && |end| == |start| + 1 && end[..|start|] == start
            && end[|start|].entryPrice == sell && end[|start|].exitPrice == cover
  {
    hide Costed;
    hide Compound;
    hide TradeReturn;
    hide Mark;
    hide Exposure;
    SpikeShort(bt, buy, sell);
    SimulateNext(bt, SPIKE, SPIKE_SIGNALS, 5);
  }

  lemma SpikePrices()
    ensures Costed(None, 100.0, Buy) == Costed(None, 100.0, Sell) == 100.0 && Costed(None, 50.0, Buy) == 50.0
    ensures Costed(HALF.costs, 100.0, Buy) == 150.0 && Costed(HALF.costs, 100.0, Sell) == 50.0
    ensures Costed(HALF.costs, 50.0, Buy) == 75.0
    ensures Compound(1.0, 1.0, TradeReturn(true, 100.0, 100.0)) == 1.0
    ensures 3.0 * Compound(1.0, 1.0, TradeReturn(true, 150.0, 50.0)) == 1.0
  {
  }

  lemma SpikeMarks(third: real)
    requires 3.0 * third == 1.0
    ensures Compound(1.0, 1.0, -PriceMove(100.0, 500.0)) == -3.0
    ensures Compound(third, 1.0, -PriceMove(50.0, 500.0)) > -3.0
  {
    assert PriceMove(50.0, 500.0) == 9.0;
  }

  /**
   * Marks can flip even where realised equity does not. On these six bars a fee of half the price leaves a third of the
   * equity before a short that is worth -3 without costs when the price spikes, and only -8/3 with them; no closed
   * short ever doubled.
   */
  lemma SpikeFlipsMarks()
    ensures Comparable(FREE, HALF, SPIKE) && Runs(FREE, SPIKE, SPIKE_SIGNALS, 6)
    ensures var free, half := Simulate(FREE, SPIKE, SPIKE_SIGNALS, 6), Simulate(HALF, SPIKE, SPIKE_SIGNALS, 6);
            NoShortDoubles(half.trades) && half.marks[4] > free.marks[4]
  {
    hide Simulate;
    hide Costed;
    hide TradeReturn;
    hide PriceMove;
    hide Compound;
    SpikePrices();
    var third := Compound(1.0, 1.0, TradeReturn(true, 150.0, 50.0));
    SpikeRoundTrip(FREE, 100.0, 100.0);
    SpikeRoundTrip(HALF, 150.0, 50.0);
    SpikeShort(FREE, 100.0, 100.0);
    SpikeShort(HALF, 150.0, 50.0);
    SpikeCover(HALF, 150.0, 50.0, 75.0);
    SeriesAt(FREE, SPIKE, SPIKE_SIGNALS, 4, 6);
    SeriesAt(HALF, SPIKE, SPIKE_SIGNALS, 4, 6);
    SpikeMarks(third);
  }
}
