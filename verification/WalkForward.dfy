/** Walk-forward evaluation, `src/backtest/walk_forward.py`: overlapping train and test windows, one backtest each. */
module WalkForward {
  import opened Numbers
  import opened Market
  import opened Backtest
  import opened BacktestRuns
  import opened AmGm
  import opened Ranks

  datatype FoldResult = FoldResult(
    startIndex: nat, trainWindow: nat, testWindow: nat,
    initialEquity: real, finalEquity: real, returnPct: real, trades: nat, winRate: real)

  datatype Summary = Summary(foldCount: nat, avgReturn: real, medianReturn: real, positiveFolds: nat,
    cumulativeReturn: real)

  datatype WalkForwardResult = WalkForwardResult(folds: seq<FoldResult>, summary: Summary)

  ghost predicate Evaluates(bt: Backtester) {
    0.0 < bt.initialEquity && forall window :: |SignalsOf(bt.strategy, window)| == |window|
  }

  // ---------- one fold ----------

  /** The trades stamped at or after `from`. */
  function CountedTrades(trades: seq<TradeRecord>, from: real): seq<TradeRecord> {
    if trades == [] then []
    else
      var init, last := trades[..|trades| - 1], trades[|trades| - 1];
      CountedTrades(init, from) + if last.timestamp >= from then [last] else []
  }

  function FoldReturn(start: real, end: real): real {
    if start > 0.0 then end / start - 1.0 else 0.0
  }

  function FoldTrace(bt: Backtester, fold: seq<Bar>): (t: Trace)
    requires fold != [] && |SignalsOf(bt.strategy, fold)| == |fold|
    ensures |t.equities| == |fold|
  {
    Simulate(bt, fold, SignalsOf(bt.strategy, fold), |fold|)
  }

  /** A fold's result from the equity series and trade records of its backtest. */
  function FoldOf(
    startIndex: nat, fold: seq<Bar>, train: nat, equities: seq<real>, trades: seq<TradeRecord>): FoldResult
    requires 0 < train < |fold| == |equities|
  {
    var start, end := equities[train - 1], equities[|equities| - 1];
    var counted := CountedTrades(trades, fold[train].timestamp);
    FoldResult(startIndex, train, |fold| - train, start, end, FoldReturn(start, end), |counted|,
               if counted == [] then 0.0 else Wins(counted) as real / |counted| as real)
  }

  /** The result of the fold that starts at bar `start`. */
  function FoldAt(bt: Backtester, bars: seq<Bar>, start: nat, train: nat, test: nat): FoldResult
    requires 0 < train && 0 < test && start + train + test <= |bars|
    requires |SignalsOf(bt.strategy, bars[start..start + train + test])| == train + test
  {
    var fold := bars[start..start + train + test];
    var t := FoldTrace(bt, fold);
    FoldOf(start, fold, train, t.equities, t.trades)
  }

  ghost predicate FoldCompletes(bt: Backtester, bars: seq<Bar>, start: nat, train: nat, test: nat)
    requires 0 < train && 0 < test && start + train + test <= |bars| && Evaluates(bt)
  {
    var fold := bars[start..start + train + test];
    Completes(bt, fold, SignalsOf(bt.strategy, fold), |fold|)
  }

  // ---------- all folds ----------

  /** The first `count` folds, `step` bars apart. */
  ghost function Folds(
    bt: Backtester, bars: seq<Bar>, train: nat, test: nat, step: nat, count: nat): (r: seq<FoldResult>)
    requires 0 < train && 0 < test && 0 < step && Evaluates(bt)
    requires count > 0 ==> (count - 1) * step + train + test <= |bars|
    ensures |r| == count
  {
    if count == 0 then []
    else
      hide FoldTrace;
      hide SignalsOf;
      FitsEarlier(count - 1, step, |bars| - train - test);
      Folds(bt, bars, train, test, step, count - 1) + [FoldAt(bt, bars, (count - 1) * step, train, test)]
  }

  /** None of the first `count` backtests divides by 0. */
  ghost predicate AllComplete(bt: Backtester, bars: seq<Bar>, train: nat, test: nat, step: nat, count: nat)
    requires 0 < train && 0 < test && 0 < step && Evaluates(bt)
    requires count > 0 ==> (count - 1) * step + train + test <= |bars|
  {
    count > 0 ==>
      (FitsEarlier(count - 1, step, |bars| - train - test);
       AllComplete(bt, bars, train, test, step, count - 1) && FoldCompletes(bt, bars, (count - 1) * step, train, test))
  }

  lemma {:induction false} AllCompleteEarlier(
    bt: Backtester, bars: seq<Bar>, train: nat, test: nat, step: nat, k: nat, count: nat)
    requires 0 < train && 0 < test && 0 < step && Evaluates(bt) && k <= count
    requires count > 0 ==> (count - 1) * step + train + test <= |bars|
    requires AllComplete(bt, bars, train, test, step, count)
    ensures k > 0 ==> (k - 1) * step + train + test <= |bars|
    ensures AllComplete(bt, bars, train, test, step, k)
  {
    hide FoldCompletes;
    if k < count {
      FitsEarlier(count - 1, step, |bars| - train - test);
      AllCompleteEarlier(bt, bars, train, test, step, k, count - 1);
    }
  }

  lemma FitsEarlier(k: nat, step: nat, room: int)
    requires k * step <= room
    ensures k > 0 ==> (k - 1) * step <= room
  {
    if k > 0 {
      assert (k - 1) * step == k * step - step;
    }
  }

  function ReturnsOf(folds: seq<FoldResult>): (r: seq<real>)
    ensures |r| == |folds|
  {
    seq(|folds|, i requires 0 <= i < |folds| => folds[i].returnPct)
  }

  function CountPositive(xs: seq<real>): nat {
    if xs == [] then 0 else CountPositive(xs[..|xs| - 1]) + if xs[|xs| - 1] > 0.0 then 1 else 0
  }

  function Summarise(folds: seq<FoldResult>): Summary
    requires folds != []
  {
    var rs := ReturnsOf(folds);
    Summary(|folds|, Mean(rs), Median(rs), CountPositive(rs), Pow(1.0 + Mean(rs), |rs|) - 1.0)
  }

  /** How many window starts fit: the length of `range(0, room + 1, step)`. */
  function FoldCount(bars: nat, train: nat, test: nat, step: nat): (n: nat)
    requires step > 0 && train + test <= bars
    ensures n > 0
  {
    (bars - train - test) / step + 1
  }

  ghost predicate ArgumentsFit(bars: nat, train: int, test: int, step: int) {
    0 < train && 0 < test && 0 < step && train + test <= bars
  }

  ghost predicate FoldsFit(bars: nat, train: int, test: int, step: int) {
    && ArgumentsFit(bars, train, test, step)
    && (FoldCount(bars, train, test, step) - 1) * step + train + test <= bars
  }

  /** All folds that fit and their summary, or the error of a backtest that divides by 0. */
  ghost function Evaluation(bt: Backtester, bars: seq<Bar>, train: nat, test: nat, step: nat): Result<WalkForwardResult>
    requires Evaluates(bt) && FoldsFit(|bars|, train, test, step)
  {
    var count := FoldCount(|bars|, train, test, step);
    if !AllComplete(bt, bars, train, test, step, count) then Err("float division by zero")
    else
      var folds := Folds(bt, bars, train, test, step, count);
      Ok(WalkForwardResult(folds, Summarise(folds)))
  }

  method EvaluateWalkForward(bt: Backtester, bars: seq<Bar>, trainWindow: int, testWindow: int, stepSize: int)
    returns (r: Result<WalkForwardResult>)
    requires Evaluates(bt)
    ensures !ArgumentsFit(|bars|, trainWindow, testWindow, stepSize) ==> r.Err?
    ensures ArgumentsFit(|bars|, trainWindow, testWindow, stepSize) ==>
              && FoldsFit(|bars|, trainWindow, testWindow, stepSize)
              && r == Evaluation(bt, bars, trainWindow, testWindow, stepSize)
  {
    hide AllComplete;
    hide Folds;
    if trainWindow <= 0 {
      return Err("train_window must be positive");
    }
    if testWindow <= 0 {
      return Err("test_window must be positive");
    }
    if stepSize <= 0 {
      return Err("step_size must be positive");
    }
    if |bars| < trainWindow + testWindow {
      return Err("Not enough bars for the requested train/test windows");
    }
    var folds := RunFolds(bt, bars, trainWindow, testWindow, stepSize);
    if folds.Err? {
      return Err(folds.error);
    }
    r := Ok(WalkForwardResult(folds.value, Summarise(folds.value)));
  }

  lemma LastFoldFits(bars: nat, train: nat, test: nat, step: nat)
    requires 0 < train && 0 < test && 0 < step && train + test <= bars
    ensures FoldsFit(bars, train, test, step)
    ensures FoldCount(bars, train, test, step) * step > bars - train - test
  {
    var room := bars - train - test;
    assert room == (room / step) * step + room % step;
    assert (room / step + 1) * step == (room / step) * step + step;
  }

  method RunFolds(bt: Backtester, bars: seq<Bar>, train: nat, test: nat, step: nat) returns (r: Result<seq<FoldResult>>)
    requires Evaluates(bt) && ArgumentsFit(|bars|, train, test, step)
    ensures FoldsFit(|bars|, train, test, step)
    ensures var count := FoldCount(|bars|, train, test, step);
            if AllComplete(bt, bars, train, test, step, count) then r == Ok(Folds(bt, bars, train, test, step, count))
            else r == Err("float division by zero")
  {
    hide FoldAt;
    hide FoldCompletes;
    LastFoldFits(|bars|, train, test, step);
    var folds: seq<FoldResult> := [];
    var startIndex := 0;
    var room := |bars| - train - test;
    ghost var count := FoldCount(|bars|, train, test, step);
    while startIndex < room + 1
      invariant startIndex == |folds| * step
      invariant |folds| <= count
      invariant |folds| > 0 ==> (|folds| - 1) * step + train + test <= |bars|
      invariant AllComplete(bt, bars, train, test, step, |folds|)
      invariant folds == Folds(bt, bars, train, test, step, |folds|)
      decreases room + 1 - startIndex
    {
      SmallerMultiple(|folds|, count, step, room);
      var fold := RunFold(bt, bars, startIndex, train, test);
      if fold.Err? {
        if AllComplete(bt, bars, train, test, step, count) {
          AllCompleteEarlier(bt, bars, train, test, step, |folds| + 1, count);
        }
        return Err(fold.error);
      }
      folds := folds + [fold.value];
      NextMultiple(|folds| - 1, step);
      startIndex := startIndex + step;
    }
    SmallerFactor(|folds|, count, step, room);
    r := Ok(folds);
  }

  lemma NextMultiple(k: nat, step: nat)
    ensures (k + 1) * step == k * step + step
  {
  }

  lemma SmallerMultiple(k: nat, count: nat, step: nat, room: int)
    requires k <= count && 0 < step && k * step <= room < count * step
    ensures k < count
  {
  }

  lemma SmallerFactor(k: nat, count: nat, step: nat, room: int)
    requires k <= count && 0 < step && room < k * step && 0 < count && (count - 1) * step <= room
    ensures k == count
  {
  }

  method RunFold(bt: Backtester, bars: seq<Bar>, startIndex: nat, train: nat, test: nat) returns (r: Result<FoldResult>)
    requires Evaluates(bt) && 0 < train && 0 < test && startIndex + train + test <= |bars|
    ensures r == if FoldCompletes(bt, bars, startIndex, train, test) then Ok(FoldAt(bt, bars, startIndex, train, test))
                 else Err("float division by zero")
  {
    hide Simulate;
    hide Completes;
    var foldBars := bars[startIndex..startIndex + train + test];
    var run := Run(bt, foldBars);
    if run.Err? {
      return Err(run.error);
    }
    var backtest := run.value;
    var warmupIndex := train - 1;
    if warmupIndex < 0 || warmupIndex >= |backtest.equitySeries| {
      warmupIndex := 0;
    }
    var equities := backtest.equitySeries;
    var startEquity, endEquity := equities[warmupIndex], equities[|equities| - 1];
    var testBars := foldBars[train..];
    var filteredTrades := CountedTrades(backtest.tradeRecords, testBars[0].timestamp);
    r := Ok(FoldResult(
              startIndex, train, test, startEquity, endEquity, FoldReturn(startEquity, endEquity), |filteredTrades|,
              if filteredTrades == [] then 0.0 else Wins(filteredTrades) as real / |filteredTrades| as real));
  }

  // ---------- what a fold's return is made of ----------

  ghost predicate Increasing(bars: seq<Bar>) {
    forall i, j :: 0 <= i < j < |bars| ==> bars[i].timestamp < bars[j].timestamp
  }

  /** When the first `m` trades are stamped before `from` and the others are not, the counted trades are the others. */
  lemma {:induction false} CountedAreSuffix(trades: seq<TradeRecord>, from: real, m: nat)
    requires m <= |trades|
    requires forall j :: 0 <= j < m ==> trades[j].timestamp < from
    requires forall j :: m <= j < |trades| ==> trades[j].timestamp >= from
    ensures CountedTrades(trades, from) == trades[m..]
  {
    if trades != [] {
      var init := trades[..|trades| - 1];
      if m < |trades| {
        CountedAreSuffix(init, from, m);
        SuffixSplit(trades, m);
      } else {
        CountedAreSuffix(init, from, m - 1);
        assert trades[m..] == [] == init[m - 1..];
      }
    }
  }

  /** The trades a fold counts are exactly those closed in its test part, entered there or before. */
  lemma CountedTradesCloseInTest(bt: Backtester, fold: seq<Bar>, train: nat)
    requires 0 < train < |fold| && Increasing(fold)
    requires |SignalsOf(bt.strategy, fold)| == |fold|
    ensures var signals, trades := SignalsOf(bt.strategy, fold), FoldTrace(bt, fold).trades;
            var early := Simulate(bt, fold, signals, train).trades;
            |early| <= |trades| && CountedTrades(trades, fold[train].timestamp) == trades[|early|..]
  {
    hide Simulate;
    var signals, trades := SignalsOf(bt.strategy, fold), FoldTrace(bt, fold).trades;
    var early := Simulate(bt, fold, signals, train).trades;
    LaterTradeStamps(bt, fold, signals, train, |fold|);
    LaterTradeStamps(bt, fold, signals, 1, train);
    RunsExtend(bt, fold, signals, train, |fold|);
    NoTradeYet(bt, fold, signals);
    forall j | 0 <= j < |early|
      ensures trades[j].timestamp < fold[train].timestamp
    {
      assert StampedBetween(early[j].timestamp, fold, 1, train);
    }
    forall j | |early| <= j < |trades|
      ensures trades[j].timestamp >= fold[train].timestamp
    {
      assert StampedBetween(trades[j].timestamp, fold, train, |fold|);
    }
    CountedAreSuffix(trades, fold[train].timestamp, |early|);
  }

  lemma NoTradeYet(bt: Backtester, fold: seq<Bar>, signals: seq<RawSignal>)
    requires Runs(bt, fold, signals, 1)
    ensures Simulate(bt, fold, signals, 1).trades == []
  {
  }

  lemma GrowthOfQuotient(start: real, end: real, growth: real)
    requires 0.0 < start && end == start * growth
    ensures 1.0 + FoldReturn(start, end) == growth
  {
    assert end / start == growth;
  }

  /**
   * One plus a fold's return is the compounded return of exactly the trades the fold counts, trades opened in the
   * training part included, whatever the strategy, the costs and the risk manager.
   */
  lemma FoldReturnCompoundsTrades(bt: Backtester, bars: seq<Bar>, start: nat, train: nat, test: nat)
    requires 0 < train && 0 < test && start + train + test <= |bars|
    requires Evaluates(bt) && Increasing(bars)
    requires 0.0 < FoldAt(bt, bars, start, train, test).initialEquity
    ensures var fold, result := bars[start..start + train + test], FoldAt(bt, bars, start, train, test);
            var counted := CountedTrades(FoldTrace(bt, fold).trades, fold[train].timestamp);
            && 1.0 + result.returnPct == Growth(counted)
            && result.trades == |counted|
  {
    hide Simulate;
    hide FoldReturn;
    hide Growth;
    hide CountedTrades;
    var fold := bars[start..start + train + test];
    var signals := SignalsOf(bt.strategy, fold);
    CountedTradesCloseInTest(bt, fold, train);
    EquityCompoundsTrades(bt, fold, signals, train, |fold|);
    SeriesAt(bt, fold, signals, train - 1, |fold|);
    SeriesAt(bt, fold, signals, |fold| - 1, |fold|);
    var t, early := FoldTrace(bt, fold), Simulate(bt, fold, signals, train);
    GrowthOfQuotient(early.book.equity, t.book.equity, Growth(t.trades[|early.trades|..]));
  }

  // ---------- what the figures of a fold and of the summary mean ----------

  lemma {:induction false} PositiveCount(xs: seq<real>)
    ensures CountPositive(xs) == |set i | 0 <= i < |xs| && xs[i] > 0.0|
  {
    if xs != [] {
      var init, n := xs[..|xs| - 1], |xs| - 1;
      PositiveCount(init);
      var before := set i | 0 <= i < |init| && init[i] > 0.0;
      var all := set i | 0 <= i < |xs| && xs[i] > 0.0;
      assert all == before + if xs[n] > 0.0 then {n} else {};
    }
  }

  lemma ShareOf(part: real, whole: real)
    requires whole > 0.0
    ensures Times(part / whole, whole) == part
  {
  }

  /**
   * A fold starts from the equity of its backtest after the training part and ends with the final equity. Its return
   * leads from one to the other, and its win rate is the share of winners among the trades closed in the test part.
   */
  lemma FoldMeans(bt: Backtester, bars: seq<Bar>, start: nat, train: nat, test: nat)
    requires 0 < train && 0 < test && start + train + test <= |bars|
    requires Evaluates(bt) && Increasing(bars)
    ensures var fold, result := bars[start..start + train + test], FoldAt(bt, bars, start, train, test);
            var signals := SignalsOf(bt.strategy, fold);
            var early, late := Simulate(bt, fold, signals, train), Simulate(bt, fold, signals, train + test);
            && result.startIndex == start && result.trainWindow == train && result.testWindow == test
            && result.initialEquity == early.book.equity && result.finalEquity == late.book.equity
            && (early.book.equity > 0.0 ==> Times(early.book.equity, 1.0 + result.returnPct) == late.book.equity)
            && (early.book.equity <= 0.0 ==> result.returnPct == 0.0)
            && |early.trades| + result.trades == |late.trades|
            && var closed := late.trades[|early.trades|..];
               Times(result.winRate, result.trades as real)
               == |set i | 0 <= i < |closed| && closed[i].returnPct > 0.0| as real
  {
    hide Simulate;
    hide CountedTrades;
    hide Wins;
    var fold := bars[start..start + train + test];
    var signals := SignalsOf(bt.strategy, fold);
    CountedTradesCloseInTest(bt, fold, train);
    SeriesAt(bt, fold, signals, train - 1, |fold|);
    SeriesAt(bt, fold, signals, |fold| - 1, |fold|);
    var early, late := Simulate(bt, fold, signals, train), Simulate(bt, fold, signals, |fold|);
    var counted := late.trades[|early.trades|..];
    if early.book.equity > 0.0 {
      ShareOf(late.book.equity, early.book.equity);
    }
    if counted != [] {
      ShareOf(Wins(counted) as real, |counted| as real);
    }
    WinsCount(counted);
  }

  /** The summary is of all folds that fit, `step` bars apart: the average, median and count of their returns. */
  lemma EvaluationMeans(bt: Backtester, bars: seq<Bar>, train: nat, test: nat, step: nat)
    requires Evaluates(bt) && FoldsFit(|bars|, train, test, step) && Evaluation(bt, bars, train, test, step).Ok?
    ensures var folds := Evaluation(bt, bars, train, test, step).value.folds;
            var summary := Evaluation(bt, bars, train, test, step).value.summary;
            var returns' := seq(|folds|, i requires 0 <= i < |folds| => folds[i].returnPct);
            && folds != [] && summary.foldCount == |folds|
            && (|folds| - 1) * step + train + test <= |bars| < |folds| * step + train + test
            && (forall k :: 0 <= k < |folds| ==> folds[k].startIndex == k * step)
            && Times(|folds| as real, summary.avgReturn) == Sum(returns')
            && (exists low, high :: Middle(returns', low, high) && 2.0 * summary.medianReturn == low + high)
            && summary.positiveFolds == |set k | 0 <= k < |folds| && folds[k].returnPct > 0.0|
  {
    hide Sum;
    hide Median;
    hide Mean;
    hide CountPositive;
    hide Pow;
    hide Middle;
    hide AllComplete;
    var count := FoldCount(|bars|, train, test, step);
    var folds := Folds(bt, bars, train, test, step, count);
    LastFoldFits(|bars|, train, test, step);
    FoldStarts(bt, bars, train, test, step, count);
    MeanTimesCount(ReturnsOf(folds));
    MedianRanks(ReturnsOf(folds));
    PositiveCount(ReturnsOf(folds));
    var positive := set k | 0 <= k < |folds| && ReturnsOf(folds)[k] > 0.0;
    assert positive == set k | 0 <= k < |folds| && folds[k].returnPct > 0.0;
  }

  lemma {:induction false} FoldStarts(bt: Backtester, bars: seq<Bar>, train: nat, test: nat, step: nat, count: nat)
    requires 0 < train && 0 < test && 0 < step && Evaluates(bt)
    requires count > 0 ==> (count - 1) * step + train + test <= |bars|
    ensures forall k :: 0 <= k < count ==> Folds(bt, bars, train, test, step, count)[k].startIndex == k * step
  {
    hide FoldTrace;
    if count > 0 {
      FitsEarlier(count - 1, step, |bars| - train - test);
      FoldStarts(bt, bars, train, test, step, count - 1);
    }
  }
}
