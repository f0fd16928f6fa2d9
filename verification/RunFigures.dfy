/** What the figures of a run mean: of a trade, of the per-bar series and of the report. */
module RunFigures {
  import opened Numbers
  import opened Costs
  import opened Market
  import opened Backtest
  import opened BacktestRuns

  // ---------- a trade ----------

  /**
   * A trade's return leads from its entry price to its exit price, gaining on a rise when long and on a fall when
   * short. Its cost is how far the two prices lie from the close of the bar that ended it.
   */
  ghost predicate Figures(trade: TradeRecord, close: real) {
    && (trade.entryPrice != 0.0 ==>
          Times(trade.entryPrice, trade.returnPct)
          == if trade.long then trade.exitPrice - trade.entryPrice else trade.entryPrice - trade.exitPrice)
    && trade.cost == Abs(trade.exitPrice - close) + Abs(trade.entryPrice - close)
  }

  ghost predicate FiguresOnSome(trade: TradeRecord, bars: seq<Bar>, n: nat)
    requires n <= |bars|
  {
    exists i :: 1 <= i < n && trade.timestamp == bars[i].timestamp && Figures(trade, bars[i].close)
  }

  ghost predicate AllFigures(trades: seq<TradeRecord>, bars: seq<Bar>, n: nat)
    requires n <= |bars|
  {
    forall k :: 0 <= k < |trades| ==> FiguresOnSome(trades[k], bars, n)
  }

  lemma CloseFigures(
    bt: Backtester, bar: Bar, equity: real, long: bool, entry: real, size: real, reason: Option<string>)
    ensures Figures(Close(bt, bar, equity, long, entry, size, reason), bar.close)
  {
    hide Costed;
  }

  lemma StepFigures(bt: Backtester, bars: seq<Bar>, i: nat, raw: RawSignal, book: Book)
    requires 1 <= i < |bars|
    ensures var trade := Step(bt, bars, i, raw, book).1;
            trade.Some? ==> FiguresOnSome(trade.value, bars, i + 1)
  {
    hide Costed;
    hide Figures;
    hide TradeReturn;
    hide Compound;
    var trade := Step(bt, bars, i, raw, book).1;
    if trade.Some? {
      var p := book.position;
      CloseFigures(bt, bars[i], book.equity, p.long, p.entry, p.size, trade.value.reason);
    }
  }

  lemma {:induction false} FiguresLater(trade: TradeRecord, bars: seq<Bar>, n: nat)
    requires n < |bars| && FiguresOnSome(trade, bars, n)
    ensures FiguresOnSome(trade, bars, n + 1)
  {
    hide Figures;
    var i :| 1 <= i < n && trade.timestamp == bars[i].timestamp && Figures(trade, bars[i].close);
  }

  lemma {:induction false} TradeFigures(bt: Backtester, bars: seq<Bar>, signals: seq<RawSignal>, n: nat)
    requires Runs(bt, bars, signals, n)
    ensures AllFigures(Simulate(bt, bars, signals, n).trades, bars, n)
  {
    hide Step;
    hide Mark;
    hide Figures;
    if n > 1 {
      TradeFigures(bt, bars, signals, n - 1);
      var before, after := Simulate(bt, bars, signals, n - 1), Simulate(bt, bars, signals, n);
      StepFigures(bt, bars, n - 1, signals[n - 1], before.book);
      forall k | 0 <= k < |after.trades|
        ensures FiguresOnSome(after.trades[k], bars, n)
      {
        if k < |before.trades| {
          assert after.trades[k] == before.trades[k];
          FiguresLater(before.trades[k], bars, n - 1);
        }
      }
    }
  }

  /**
   * The recorded cost is measured at the exit's close on both sides, so it is at least the whole way from entry to
   * exit, with or without costs, and exactly that when the close lies between the two.
   */
  lemma CostCoversMove(trade: TradeRecord, close: real)
    requires Figures(trade, close)
    ensures trade.cost >= Abs(trade.exitPrice - trade.entryPrice)
    ensures trade.cost == Abs(trade.exitPrice - trade.entryPrice)
       <==> (trade.entryPrice <= close <= trade.exitPrice || trade.exitPrice <= close <= trade.entryPrice)
  {
  }

  // ---------- the per-bar series ----------

  lemma MarkMeans(equity: real, position: Position, close: real)
    requires Markable(position) && position.Open?
    ensures Times(position.entry, Mark(equity, position, close) - equity)
         == Times(equity, Times(Exposure(position), close - position.entry))
    ensures Exposure(position) == if position.long then position.size else -position.size
  {
    var move := PriceMove(position.entry, close);
    assert move * position.entry == close - position.entry;
    var share := Exposure(position);
    assert Mark(equity, position, close) - equity == (equity * share) * move;
    Rearrange(position.entry, equity * share, move);
    assert Times(equity, Times(share, close - position.entry)) == (equity * share) * (move * position.entry);
  }

  lemma Rearrange(entry: real, stake: real, move: real)
    ensures entry * (stake * move) == stake * (move * entry)
  {
  }

  /**
   * Exposure is the position's size, negative when short, and 0 without a position. Equity and its mark are the same
   * without one; with one they differ by what the exposed share of equity has gained on the price since the entry.
   */
  lemma {:induction false} SeriesMean(bt: Backtester, bars: seq<Bar>, signals: seq<RawSignal>, n: nat, i: nat)
    requires Runs(bt, bars, signals, n) && 1 <= i < n && Completes(bt, bars, signals, n)
    ensures var t, position := Simulate(bt, bars, signals, n), Simulate(bt, bars, signals, i + 1).book.position;
            match position
            case Flat => t.exposures[i] == 0.0 && t.marks[i] == t.equities[i]
            case Open(long, entry, size, _) =>
              && t.exposures[i] == (if long then size else -size)
              && Times(entry, t.marks[i] - t.equities[i])
                 == Times(t.equities[i], Times(t.exposures[i], bars[i].close - entry))
  {
    hide Simulate;
    hide Times;
    SeriesAt(bt, bars, signals, i, n);
    CompletesEarlier(bt, bars, signals, i + 1, n);
    var book := Simulate(bt, bars, signals, i + 1).book;
    if book.position.Open? {
      MarkMeans(book.equity, book.position, bars[i].close);
    }
  }

  // ---------- the report ----------

  lemma ShareOf(part: real, whole: real)
    requires whole != 0.0
    ensures Times(part / whole, whole) == part
  {
  }

  lemma GrowthTotal(initial: real, total: real, growth: real)
    requires 0.0 < initial && total == initial * growth / initial
    ensures total == growth
  {
  }

  /** The field by field report of a run: totals, rates, and the lists that go with its trades and bars. */
  lemma ReportMeans(bt: Backtester, bars: seq<Bar>)
    requires bt.Accepts(bars) && Outcome(bt, bars).Ok?
    ensures var r := Outcome(bt, bars).value;
            && r.trades == |r.tradeRecords| && r.finalEquity == bt.initialEquity * Growth(r.tradeRecords)
            && 1.0 + r.totalReturn == Growth(r.tradeRecords)
            && Times(r.winRate, r.trades as real)
               == |set k | 0 <= k < |r.tradeRecords| && r.tradeRecords[k].returnPct > 0.0| as real
    ensures var r := Outcome(bt, bars).value;
            var t := Simulate(bt, bars, SignalsOf(bt.strategy, bars), |bars|);
            && r.equitySeries == t.equities && r.mtmEquitySeries == t.marks && r.positionSeries == t.exposures
            && r.tradeRecords == t.trades && |r.timestamps| == |bars|
            && r.equitySeries[0] == bt.initialEquity == r.mtmEquitySeries[0] && r.positionSeries[0] == 0.0
            && r.equitySeries[|bars| - 1] == r.finalEquity
            && (forall i :: 0 <= i < |bars| ==> r.timestamps[i] == bars[i].timestamp)
    ensures var r := Outcome(bt, bars).value;
            && |r.tradePrices| == |r.tradeTimestamps| == |r.tradeReturns| == r.trades
            && |r.tradeSizes| == |r.tradeCosts| == r.trades
            && forall k :: 0 <= k < r.trades ==>
                 && r.tradePrices[k] == r.tradeRecords[k].exitPrice
                 && r.tradeTimestamps[k] == r.tradeRecords[k].timestamp
                 && r.tradeReturns[k] == r.tradeRecords[k].returnPct
                 && r.tradeSizes[k] == r.tradeRecords[k].size && r.tradeCosts[k] == r.tradeRecords[k].cost
  {
    hide Simulate;
    hide Growth;
    hide Completes;
    hide Wins;
    hide DeepestBelow;
    var signals := SignalsOf(bt.strategy, bars);
    var t := Simulate(bt, bars, signals, |bars|);
    EquityCompoundsTrades(bt, bars, signals, 1, |bars|);
    SimulateFirst(bt, bars, signals);
    RunsExtend(bt, bars, signals, 1, |bars|);
    assert t.trades[0..] == t.trades;
    GrowthTotal(bt.initialEquity, t.book.equity / bt.initialEquity, Growth(t.trades));
    SeriesAt(bt, bars, signals, |bars| - 1, |bars|);
    WinsCount(t.trades);
    if t.trades != [] {
      ShareOf(Wins(t.trades) as real, |t.trades| as real);
    }
  }

  // ---------- the drawdown ----------

  lemma DrawdownMeans(peak: real, value: real)
    ensures peak > 0.0 ==> Times(peak, 1.0 - Drawdown(peak, value)) == value
    ensures peak <= 0.0 ==> Drawdown(peak, value) == 0.0
  {
  }

  lemma LowerIsDeeper(peak: real, low: real, value: real)
    requires peak > 0.0 && Drawdown(peak, value) <= Drawdown(peak, low)
    ensures low <= value
  {
    DrawdownMeans(peak, low);
    DrawdownMeans(peak, value);
    TimesScales(1.0 - Drawdown(peak, low), 1.0 - Drawdown(peak, value), peak);
  }

  /** The reported drawdown leads from the highest equity of the run down to the lowest, whichever came first. */
  lemma DrawdownReportMeans(bt: Backtester, bars: seq<Bar>, high: real, low: real)
    requires bt.Accepts(bars) && Outcome(bt, bars).Ok?
    requires IsMaximumOf(high, Outcome(bt, bars).value.equitySeries)
    requires IsMinimumOf(low, Outcome(bt, bars).value.equitySeries)
    ensures Times(high, 1.0 - Outcome(bt, bars).value.maxDrawdown) == low
  {
    hide Simulate;
    hide Completes;
    hide Drawdown;
    var signals := SignalsOf(bt.strategy, bars);
    var t := Simulate(bt, bars, signals, |bars|);
    PeakIsMaximum(bt, bars, signals, |bars|);
    FirstEquity(bt, bars, signals, |bars|);
    var deep := DeepestIsAttained(t.book.peak, t.equities);
    assert high == t.book.peak && high > 0.0;
    var lowest :| 0 <= lowest < |t.equities| && t.equities[lowest] == low;
    LowerIsDeeper(high, t.equities[deep], low);
    DrawdownMeans(high, low);
  }
}
