/** What holds of every backtest run, whatever the strategy, the costs and the risk manager do. */
module BacktestRuns {
  import opened Numbers
  import opened Costs
  import opened Market
  import opened Backtest

  ghost predicate Runs(bt: Backtester, bars: seq<Bar>, signals: seq<RawSignal>, n: nat) {
    1 <= n <= |bars| == |signals|
  }

  // ---------- equity is the compounded trade log ----------

  /** What a sequence of trades multiplies equity by. */
  ghost function Growth(trades: seq<TradeRecord>): real {
    if trades == [] then 1.0
    else Compound(Growth(trades[..|trades| - 1]), trades[|trades| - 1].size, trades[|trades| - 1].returnPct)
  }

  /** A run's first `k` bars are the run over those bars: later bars only append. */
  lemma {:induction false} RunsExtend(bt: Backtester, bars: seq<Bar>, signals: seq<RawSignal>, k: nat, n: nat)
    requires Runs(bt, bars, signals, n) && 1 <= k <= n
    ensures var early, late := Simulate(bt, bars, signals, k), Simulate(bt, bars, signals, n);
            && early.equities <= late.equities && early.marks <= late.marks
            && early.exposures <= late.exposures && early.trades <= late.trades
  {
    hide Step;
    hide Mark;
    if k < n {
      RunsExtend(bt, bars, signals, k, n - 1);
    }
  }

  /** The series entries of bar `i` are those of the run that ends with bar `i`. */
  lemma SeriesAt(bt: Backtester, bars: seq<Bar>, signals: seq<RawSignal>, i: nat, n: nat)
    requires Runs(bt, bars, signals, n) && i < n
    ensures var late, upTo := Simulate(bt, bars, signals, n), Simulate(bt, bars, signals, i + 1);
            && late.equities[i] == upTo.book.equity
            && late.marks[i] == Mark(upTo.book.equity, upTo.book.position, bars[i].close)
            && late.exposures[i] == Exposure(upTo.book.position)
  {
    RunsExtend(bt, bars, signals, i + 1, n);
  }

  /**
   * One bar either closes no trade and leaves equity alone, or closes one trade, stamped with that bar, that multiplies
   * equity.
   */
  ghost predicate Follows(before: Trace, after: Trace, stamp: real) {
    || (after.trades == before.trades && after.book.equity == before.book.equity)
    || (&& |after.trades| == |before.trades| + 1
        && after.trades[..|before.trades|] == before.trades
        && var trade := after.trades[|before.trades|];
           && after.book.equity == Compound(before.book.equity, trade.size, trade.returnPct) == trade.equityAfter
           && trade.timestamp == stamp)
  }

  lemma StepFollows(bt: Backtester, bars: seq<Bar>, i: nat, raw: RawSignal, book: Book)
    requires i < |bars|
    ensures var (after, trade) := Step(bt, bars, i, raw, book);
            && (trade.None? ==> after.equity == book.equity)
            && (trade.Some? ==>
                  && after.equity == Compound(book.equity, trade.value.size, trade.value.returnPct)
                  && after.equity == trade.value.equityAfter
                  && trade.value.timestamp == bars[i].timestamp)
  {
  }

  lemma ExtendFollows(t: Trace, step: (Book, Option<TradeRecord>), close: real, stamp: real)
    requires step.1.None? ==> step.0.equity == t.book.equity
    requires step.1.Some? ==>
               && step.0.equity == Compound(t.book.equity, step.1.value.size, step.1.value.returnPct)
               && step.0.equity == step.1.value.equityAfter
               && step.1.value.timestamp == stamp
    ensures Follows(t, Extend(t, step, close), stamp)
  {
    var after := Extend(t, step, close);
    if step.1.Some? {
      assert after.trades[..|t.trades|] == t.trades;
    }
  }

  lemma BarFollows(bt: Backtester, bars: seq<Bar>, signals: seq<RawSignal>, n: nat)
    requires Runs(bt, bars, signals, n) && 1 < n
    ensures Follows(Simulate(bt, bars, signals, n - 1), Simulate(bt, bars, signals, n), bars[n - 1].timestamp)
  {
    hide Step;
    hide Follows;
    hide Mark;
    var before := Simulate(bt, bars, signals, n - 1);
    StepFollows(bt, bars, n - 1, signals[n - 1], before.book);
    ExtendFollows(before, Step(bt, bars, n - 1, signals[n - 1], before.book), bars[n - 1].close, bars[n - 1].timestamp);
  }

  /** Equity went from `early` to `late` by exactly the trades in between. */
  ghost predicate Compounds(early: Trace, late: Trace) {
    && |early.trades| <= |late.trades|
    && late.book.equity == early.book.equity * Growth(late.trades[|early.trades|..])
  }

  lemma CompoundsFollows(early: Trace, before: Trace, after: Trace, stamp: real)
    requires Compounds(early, before) && Follows(before, after, stamp)
    ensures Compounds(early, after)
  {
    hide Growth;
    var from := |early.trades|;
    if after.trades != before.trades {
      var closed, trade := before.trades[from..], after.trades[|before.trades|];
      assert after.trades[from..] == closed + [trade];
      GrowthAppend(closed, trade);
    }
  }

  lemma GrowthAppend(trades: seq<TradeRecord>, trade: TradeRecord)
    ensures Growth(trades + [trade]) == Compound(Growth(trades), trade.size, trade.returnPct)
  {
    assert (trades + [trade])[..|trades|] == trades;
  }

  lemma CompoundsItself(t: Trace)
    ensures Compounds(t, t)
  {
    assert t.trades[|t.trades|..] == [];
  }

  /** Between any two bars, equity grows by exactly the trades closed after the first and up to the second. */
  lemma {:induction false} EquityCompoundsTrades(
    bt: Backtester, bars: seq<Bar>, signals: seq<RawSignal>, k: nat, n: nat)
    requires Runs(bt, bars, signals, n) && 1 <= k <= n
    ensures Compounds(Simulate(bt, bars, signals, k), Simulate(bt, bars, signals, n))
  {
    hide Step;
    hide Mark;
    hide Compounds;
    if k < n {
      EquityCompoundsTrades(bt, bars, signals, k, n - 1);
      BarFollows(bt, bars, signals, n);
      CompoundsFollows(Simulate(bt, bars, signals, k), Simulate(bt, bars, signals, n - 1),
        Simulate(bt, bars, signals, n), bars[n - 1].timestamp);
    } else {
      CompoundsItself(Simulate(bt, bars, signals, n));
    }
  }

  ghost predicate StampedBetween(stamp: real, bars: seq<Bar>, from: nat, to: nat)
    requires to <= |bars|
  {
    exists i :: from <= i < to && stamp == bars[i].timestamp
  }

  /** Trades that come after the first `k` bars' trades carry the stamp of the later bar that closed them. */
  lemma {:induction false} LaterTradeStamps(bt: Backtester, bars: seq<Bar>, signals: seq<RawSignal>, k: nat, n: nat)
    requires Runs(bt, bars, signals, n) && 1 <= k <= n
    ensures var early, late := Simulate(bt, bars, signals, k).trades, Simulate(bt, bars, signals, n).trades;
            && |early| <= |late|
            && forall j :: |early| <= j < |late| ==> StampedBetween(late[j].timestamp, bars, k, n)
  {
    hide Step;
    hide Mark;
    hide Follows;
    if k < n {
      LaterTradeStamps(bt, bars, signals, k, n - 1);
      BarFollows(bt, bars, signals, n);
      StampsFollow(|Simulate(bt, bars, signals, k).trades|, Simulate(bt, bars, signals, n - 1),
        Simulate(bt, bars, signals, n), bars, k, n);
    }
  }

  lemma StampsFollow(from: nat, before: Trace, after: Trace, bars: seq<Bar>, k: nat, n: nat)
    requires k < n <= |bars| && from <= |before.trades|
    requires Follows(before, after, bars[n - 1].timestamp)
    requires forall j :: from <= j < |before.trades| ==> StampedBetween(before.trades[j].timestamp, bars, k, n - 1)
    ensures forall j :: from <= j < |after.trades| ==> StampedBetween(after.trades[j].timestamp, bars, k, n)
  {
    forall j | from <= j < |after.trades|
      ensures StampedBetween(after.trades[j].timestamp, bars, k, n)
    {
      if j < |before.trades| {
        assert after.trades[j] == before.trades[j];
        var i :| k <= i < n - 1 && before.trades[j].timestamp == bars[i].timestamp;
      }
    }
  }

  lemma {:induction false} WinsCount(trades: seq<TradeRecord>)
    ensures Wins(trades) == |set i | 0 <= i < |trades| && trades[i].returnPct > 0.0|
  {
    if trades != [] {
      var init, n := trades[..|trades| - 1], |trades| - 1;
      WinsCount(init);
      var before := set i | 0 <= i < |init| && init[i].returnPct > 0.0;
      var all := set i | 0 <= i < |trades| && trades[i].returnPct > 0.0;
      assert all == before + if trades[n].returnPct > 0.0 then {n} else {};
    }
  }

  // ---------- drawdown ----------

  ghost predicate IsMaximumOf(x: real, series: seq<real>) {
    x in series && forall i :: 0 <= i < |series| ==> series[i] <= x
  }

  ghost predicate IsMinimumOf(x: real, series: seq<real>) {
    x in series && forall i :: 0 <= i < |series| ==> x <= series[i]
  }

  /** The deepest fall from any earlier level to a later one, as a share of the earlier one. */
  ghost predicate IsTrueDrawdown(d: real, series: seq<real>) {
    && (exists s, t :: 0 <= s <= t < |series| && d == Drawdown(series[s], series[t]))
    && (forall s, t :: 0 <= s <= t < |series| ==> Drawdown(series[s], series[t]) <= d)
  }

  lemma {:induction false} PeakIsMaximum(bt: Backtester, bars: seq<Bar>, signals: seq<RawSignal>, n: nat)
    requires Runs(bt, bars, signals, n)
    ensures var t := Simulate(bt, bars, signals, n); IsMaximumOf(t.book.peak, t.equities)
  {
    var t := Simulate(bt, bars, signals, n);
    if n > 1 {
      PeakIsMaximum(bt, bars, signals, n - 1);
      var before := Simulate(bt, bars, signals, n - 1);
      assert t.equities == before.equities + [t.book.equity];
      if t.book.peak == before.book.peak {
        var i :| 0 <= i < |before.equities| && before.equities[i] == t.book.peak;
        assert t.equities[i] == t.book.peak;
      } else {
        assert t.equities[|t.equities| - 1] == t.book.peak;
      }
    }
  }

  lemma {:induction false} DeepestIsAttained(peak: real, series: seq<real>) returns (t: nat)
    requires series != []
    ensures t < |series| && DeepestBelow(peak, series) == Drawdown(peak, series[t])
    ensures forall i :: 0 <= i < |series| ==> Drawdown(peak, series[i]) <= DeepestBelow(peak, series)
  {
    t := |series| - 1;
    if |series| > 1 {
      var u := DeepestIsAttained(peak, series[..|series| - 1]);
      if DeepestBelow(peak, series) != Drawdown(peak, series[t]) {
        t := u;
      }
      forall i | 0 <= i < |series|
        ensures Drawdown(peak, series[i]) <= DeepestBelow(peak, series)
      {
        if i < |series| - 1 {
          assert series[i] == series[..|series| - 1][i];
        }
      }
    }
  }

  lemma DrawdownMonotone(peak: real, peak': real, value: real, value': real)
    requires 0.0 < peak <= peak' && 0.0 <= value' <= value
    ensures Drawdown(peak, value) <= Drawdown(peak', value')
    ensures Drawdown(peak, value) == Drawdown(peak', value') ==> value' == 0.0 || (peak == peak' && value == value')
  {
    var x, y := 1.0 - Drawdown(peak, value), 1.0 - Drawdown(peak', value');
    assert x * peak == value && y * peak' == value';
    SharesCompare(x, y, peak, peak');
  }

  lemma SharesCompare(x: real, y: real, peak: real, peak': real)
    requires 0.0 < peak <= peak' && 0.0 <= y * peak' <= x * peak
    ensures y <= x
    ensures x == y ==> y * peak' == 0.0 || (peak == peak' && x * peak == y * peak')
  {
  }

  lemma DrawdownEnds(peak: real)
    requires 0.0 < peak
    ensures Drawdown(peak, peak) == 0.0 && Drawdown(peak, 0.0) == 1.0
  {
  }

  /** The true drawdown of a non-negative series is at most the drawdown from its highest to its lowest value. */
  lemma TrueBelowExtremes(peak: real, series: seq<real>, d: real, low: real)
    requires series != [] && 0.0 < series[0] && IsMaximumOf(peak, series)
    requires IsTrueDrawdown(d, series) && IsMinimumOf(low, series) && 0.0 <= low
    ensures d <= Drawdown(peak, low)
    ensures d == Drawdown(peak, low) ==> low == 0.0 || PeakBeforeLow(peak, low, series)
  {
    var s, u :| 0 <= s <= u < |series| && d == Drawdown(series[s], series[u]);
    if series[s] > 0.0 {
      DrawdownMonotone(series[s], peak, series[u], low);
    } else {
      DrawdownEnds(peak);
      DrawdownMonotone(peak, peak, peak, low);
      var first := series[0];
      DrawdownEnds(first);
      assert Drawdown(series[0], series[0]) <= d;
    }
  }

  lemma ExtremesAttained(peak: real, series: seq<real>, d: real, low: real)
    requires series != [] && 0.0 < series[0] && IsMaximumOf(peak, series)
    requires IsTrueDrawdown(d, series) && IsMinimumOf(low, series)
    requires low == 0.0 || PeakBeforeLow(peak, low, series)
    ensures Drawdown(peak, low) <= d
  {
    if low == 0.0 {
      var lowest :| 0 <= lowest < |series| && series[lowest] == low;
      DrawdownEnds(series[0]);
      DrawdownEnds(peak);
      assert Drawdown(series[0], series[lowest]) <= d;
    } else {
      var s, u :| 0 <= s <= u < |series| && series[s] == peak && series[u] == low;
      assert Drawdown(series[s], series[u]) <= d;
    }
  }

  lemma DeepestIsAtMinimum(peak: real, series: seq<real>, low: real)
    requires series != [] && 0.0 < peak && IsMinimumOf(low, series) && 0.0 <= low
    ensures DeepestBelow(peak, series) == Drawdown(peak, low)
  {
    var deep := DeepestIsAttained(peak, series);
    var lowest :| 0 <= lowest < |series| && series[lowest] == low;
    DrawdownMonotone(peak, peak, series[deep], low);
  }

  /** Some occurrence of the highest value comes no later than some occurrence of the lowest. */
  ghost predicate PeakBeforeLow(peak: real, low: real, series: seq<real>) {
    exists s, u :: 0 <= s <= u < |series| && series[s] == peak && series[u] == low
  }

  /**
   * The reported maximum drawdown is measured from the final peak. It is never below the true drawdown of the
   * equity series, and equals it exactly when equity hits 0 or the highest peak comes no later than some lowest point.
   */
  lemma ReportedDrawdown(bt: Backtester, bars: seq<Bar>, signals: seq<RawSignal>, d: real, low: real)
    requires Runs(bt, bars, signals, |bars|) && 0.0 < bt.initialEquity
    requires var equities := Simulate(bt, bars, signals, |bars|).equities;
             IsTrueDrawdown(d, equities) && IsMinimumOf(low, equities) && 0.0 <= low
    ensures var t := Simulate(bt, bars, signals, |bars|);
            var reported := Report(bt, bars, t).maxDrawdown;
            && d <= reported
            && (d == reported <==> low == 0.0 || PeakBeforeLow(t.book.peak, low, t.equities))
  {
    var t := Simulate(bt, bars, signals, |bars|);
    PeakIsMaximum(bt, bars, signals, |bars|);
    FirstEquity(bt, bars, signals, |bars|);
    DeepestIsAtMinimum(t.book.peak, t.equities, low);
    TrueBelowExtremes(t.book.peak, t.equities, d, low);
    if low == 0.0 || PeakBeforeLow(t.book.peak, low, t.equities) {
      ExtremesAttained(t.book.peak, t.equities, d, low);
    }
  }

  lemma {:induction false} MinimumExists(series: seq<real>) returns (low: real)
    requires series != []
    ensures IsMinimumOf(low, series)
  {
    var init, last := series[..|series| - 1], series[|series| - 1];
    assert series == init + [last];
    low := last;
    if init != [] {
      var before := MinimumExists(init);
      low := Min(before, last);
      assert forall i :: 0 <= i < |init| ==> series[i] == init[i];
    }
  }

  /** The entry from which the fall to `value` is deepest. */
  lemma {:induction false} DeepestTo(series: seq<real>, value: real) returns (s: nat)
    requires series != []
    ensures s < |series| && forall i :: 0 <= i < |series| ==> Drawdown(series[i], value) <= Drawdown(series[s], value)
  {
    hide Drawdown;
    var init, last := series[..|series| - 1], |series| - 1;
    assert series == init + [series[last]];
    s := last;
    if init != [] {
      var before := DeepestTo(init, value);
      if Drawdown(series[last], value) < Drawdown(init[before], value) {
        s := before;
      }
      assert forall i :: 0 <= i < |init| ==> series[i] == init[i];
    }
  }

  lemma {:induction false} TrueDrawdownExists(series: seq<real>) returns (d: real)
    requires series != []
    ensures IsTrueDrawdown(d, series)
  {
    hide Drawdown;
    var last := |series| - 1;
    var init := series[..last];
    var s := DeepestTo(series, series[last]);
    d := Drawdown(series[s], series[last]);
    if init != [] {
      var before := TrueDrawdownExists(init);
      assert forall i :: 0 <= i < |init| ==> series[i] == init[i];
      if d < before {
        d := before;
        var t, u :| 0 <= t <= u < |init| && before == Drawdown(init[t], init[u]);
        assert before == Drawdown(series[t], series[u]);
      }
      assert forall t, u :: 0 <= t <= u < last ==>
          Drawdown(series[t], series[u]) == Drawdown(init[t], init[u]) <= before;
    }
  }

  /** So every run with equity that stays non-negative has a true drawdown, and reports at least that. */
  lemma EveryDrawdownReported(bt: Backtester, bars: seq<Bar>, signals: seq<RawSignal>)
    requires Runs(bt, bars, signals, |bars|) && 0.0 < bt.initialEquity
    requires var equities := Simulate(bt, bars, signals, |bars|).equities;
             forall i :: 0 <= i < |equities| ==> 0.0 <= equities[i]
    ensures var t := Simulate(bt, bars, signals, |bars|);
            var reported := Report(bt, bars, t).maxDrawdown;
            exists d, low ::
              && IsTrueDrawdown(d, t.equities) && IsMinimumOf(low, t.equities)
              && d <= reported && (d == reported <==> low == 0.0 || PeakBeforeLow(t.book.peak, low, t.equities))
  {
    hide Simulate;
    hide IsTrueDrawdown;
    hide Report;
    hide PeakBeforeLow;
    var equities := Simulate(bt, bars, signals, |bars|).equities;
    var d := TrueDrawdownExists(equities);
    var low := MinimumExists(equities);
    ReportedDrawdown(bt, bars, signals, d, low);
  }

  lemma {:induction false} FirstEquity(bt: Backtester, bars: seq<Bar>, signals: seq<RawSignal>, n: nat)
    requires Runs(bt, bars, signals, n)
    ensures Simulate(bt, bars, signals, n).equities[0] == bt.initialEquity
  {
    RunsExtend(bt, bars, signals, 1, n);
  }

  // ---------- no re-entry after a stop ----------

  ghost predicate HoldsSide(position: Position, long: bool) {
    position.Open? && position.long == long
  }

  /** Bar `i` closed a position on the given side because the risk manager forced it. */
  ghost predicate Stopped(bt: Backtester, bars: seq<Bar>, signals: seq<RawSignal>, i: nat, long: bool)
    requires Runs(bt, bars, signals, |bars|)
  {
    && 1 <= i < |bars|
    && var r := Step(bt, bars, i, signals[i], Simulate(bt, bars, signals, i).book);
       r.1.Some? && r.1.value.long == long && r.1.value.reason.Some?
  }

  ghost predicate OnSide(raw: RawSignal, long: bool) {
    if long then Normalize(raw) > 0.0 else Normalize(raw) < 0.0
  }

  /** One bar of the block: a stop sets it, and a signal still on the stopped side keeps it and opens nothing. */
  lemma BlockedBar(bt: Backtester, bars: seq<Bar>, i: nat, raw: RawSignal, book: Book, long: bool)
    requires i < |bars|
    requires var stop := Step(bt, bars, i, raw, book).1;
             || (stop.Some? && stop.value.long == long && stop.value.reason.Some?)
             || (book.position == Flat && book.block == Some(long) && OnSide(raw, long))
    ensures var after := Step(bt, bars, i, raw, book).0;
            after.position == Flat && after.block == Some(long)
  {
    hide Costed;
    hide Compound;
  }

  /** A stopped side is not held again until a later signal has left it. */
  lemma {:induction false} NoReentryAfterStop(
    bt: Backtester, bars: seq<Bar>, signals: seq<RawSignal>, i: nat, j: nat, long: bool)
    requires Runs(bt, bars, signals, |bars|) && i <= j < |bars|
    requires Stopped(bt, bars, signals, i, long)
    requires forall k :: i < k <= j ==> OnSide(signals[k], long)
    ensures var book := Simulate(bt, bars, signals, j + 1).book;
            book.position == Flat && book.block == Some(long)
  {
    hide Step;
    hide Mark;
    if i < j {
      NoReentryAfterStop(bt, bars, signals, i, j - 1, long);
    }
    BlockedBar(bt, bars, j, signals[j], Simulate(bt, bars, signals, j).book, long);
  }

  lemma UnblockedBar(bt: Backtester, bars: seq<Bar>, i: nat, raw: RawSignal, book: Book, long: bool)
    requires i < |bars|
    requires book.position == Flat && book.block == Some(long) && !OnSide(raw, long)
    ensures var after := Step(bt, bars, i, raw, book).0;
            && after.block == None
            && (HoldsSide(after.position, !long) <==>
                OnSide(raw, !long) && Admission(bt, bars[..i + 1], book.equity, book.peak, i, raw).allowEntry)
  {
    hide Costed;
    hide Admission;
  }

  /** The gate never stands in the way of the other side, and one signal off the stopped side lifts the block. */
  lemma ReentryAfterSignalLeaves(bt: Backtester, bars: seq<Bar>, signals: seq<RawSignal>, i: nat, j: nat, long: bool)
    requires Runs(bt, bars, signals, |bars|) && i < j < |bars|
    requires Stopped(bt, bars, signals, i, long)
    requires forall k :: i < k < j ==> OnSide(signals[k], long)
    requires !OnSide(signals[j], long)
    ensures var before, book := Simulate(bt, bars, signals, j).book, Simulate(bt, bars, signals, j + 1).book;
            && book.block == None
            && (HoldsSide(book.position, !long) <==>
                OnSide(signals[j], !long)
                  && Admission(bt, bars[..j + 1], before.equity, before.peak, j, signals[j]).allowEntry)
  {
    hide Step;
    hide Mark;
    hide Admission;
    NoReentryAfterStop(bt, bars, signals, i, j - 1, long);
    UnblockedBar(bt, bars, j, signals[j], Simulate(bt, bars, signals, j).book, long);
  }

  // ---------- a drawdown overstated ----------

  /** A loss of half, then a later peak four times as high. */
  const REBOUND: seq<Bar> :=
    [Bar(0.0, None, None, 100.0, None), Bar(1.0, None, None, 100.0, None), Bar(2.0, None, None, 50.0, None),
     Bar(3.0, None, None, 50.0, None), Bar(4.0, None, None, 200.0, None)]

  const REBOUND_SIGNALS: seq<RawSignal> := [Number(0.0), Number(1.0), Number(0.0), Number(1.0), Number(1.0)]

  const REBOUNDING: Backtester :=
    Backtester(Strategy(history => Missing, Some(bars => REBOUND_SIGNALS)), 1.0, None, None)

  lemma ReboundEquity()
    ensures var t := Simulate(REBOUNDING, REBOUND, REBOUND_SIGNALS, 5);
            && t.equities == [1.0, 1.0, 0.5, 0.5, 2.0] && t.book.peak == 2.0
            && Completes(REBOUNDING, REBOUND, REBOUND_SIGNALS, 5)
  {
    hide Mark;
    var bt, bars, signals := REBOUNDING, REBOUND, REBOUND_SIGNALS;
    SimulateFirst(bt, bars, signals);
    CompletesFirst(bt, bars, signals);
    var one := Book(1.0, 1.0, Open(true, 100.0, 1.0, 0), None);
    assert Step(bt, bars, 1, signals[1], Book(1.0, 1.0, Flat, None)) == (one, None);
    var two := Book(0.5, 1.0, Flat, None);
    assert Step(bt, bars, 2, signals[2], one).0 == two;
    var three := Book(0.5, 1.0, Open(true, 50.0, 1.0, 0), None);
    assert Step(bt, bars, 3, signals[3], two) == (three, None);
    var four := Book(2.0, 2.0, Flat, None);
    assert Step(bt, bars, 4, signals[4], three).0 == four;
    SimulateNext(bt, bars, signals, 1);
    SimulateNext(bt, bars, signals, 2);
    SimulateNext(bt, bars, signals, 3);
    SimulateNext(bt, bars, signals, 4);
    CompletesNext(bt, bars, signals, 1);
    CompletesNext(bt, bars, signals, 2);
    CompletesNext(bt, bars, signals, 3);
    CompletesNext(bt, bars, signals, 4);
  }

  /** This backtest reports a drawdown of 3/4 where the true one is 1/2. */
  lemma DrawdownOverstated()
    ensures REBOUNDING.Accepts(REBOUND)
    ensures var result := Outcome(REBOUNDING, REBOUND);
            result.Ok? && result.value.maxDrawdown == 0.75 && IsTrueDrawdown(0.5, result.value.equitySeries)
  {
    hide Simulate;
    hide Completes;
    ReboundEquity();
    var series := [1.0, 1.0, 0.5, 0.5, 2.0];
    assert SignalsOf(REBOUNDING.strategy, REBOUND) == REBOUND_SIGNALS;
    var deep := DeepestIsAttained(2.0, series);
    assert Drawdown(2.0, series[2]) == 0.75;
    assert Drawdown(series[1], series[2]) == 0.5;
  }
}
