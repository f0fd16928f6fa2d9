/**
 * The cumulative return that a walk-forward evaluation reports, against what its folds and their trades compound to.
 */
module CumulativeReturn {
  import opened Numbers
  import opened Costs
  import opened Market
  import opened Backtest
  import opened BacktestRuns
  import opened LongOnly
  import opened CostComparison
  import opened WalkForward
  import opened AmGm

  // ---------- the reported cumulative return ----------

  ghost function GrowthFactors(folds: seq<FoldResult>): (r: seq<real>)
    ensures |r| == |folds|
  {
    seq(|folds|, i requires 0 <= i < |folds| => 1.0 + folds[i].returnPct)
  }

  /** What the folds' returns compound to. */
  ghost function CompoundedReturn(folds: seq<FoldResult>): real {
    Product(GrowthFactors(folds)) - 1.0
  }

  lemma {:induction false} SumOfFactors(folds: seq<FoldResult>)
    ensures Sum(GrowthFactors(folds)) == |folds| as real + Sum(ReturnsOf(folds))
  {
    if folds != [] {
      var init := folds[..|folds| - 1];
      SumOfFactors(init);
      assert GrowthFactors(folds)[..|folds| - 1] == GrowthFactors(init);
      assert ReturnsOf(folds)[..|folds| - 1] == ReturnsOf(init);
    }
  }

  lemma MeanOfFactors(folds: seq<FoldResult>)
    requires folds != []
    ensures Mean(GrowthFactors(folds)) == 1.0 + Mean(ReturnsOf(folds))
  {
    hide Sum;
    hide Mean;
    SumOfFactors(folds);
    MeanTimesCount(GrowthFactors(folds));
    MeanTimesCount(ReturnsOf(folds));
    CancelCount(|folds| as real, Mean(GrowthFactors(folds)), Mean(ReturnsOf(folds)));
  }

  lemma CancelCount(n: real, x: real, y: real)
    requires 0.0 < n && Times(n, x) == n + Times(n, y)
    ensures x == 1.0 + y
  {
    var d := x - (1.0 + y);
    assert n * d == 0.0;
    if d > 0.0 {
      TimesPositive(n, d);
    } else if d < 0.0 {
      TimesPositive(n, -d);
    }
  }

  /**
   * The reported cumulative return, the mean return compounded, is never below what the folds really compound to
   * when no fold loses more than everything, and equals it exactly when all folds return the same.
   */
  lemma CumulativeAboveCompounded(folds: seq<FoldResult>)
    requires folds != [] && forall i :: 0 <= i < |folds| ==> -1.0 <= folds[i].returnPct
    ensures Summarise(folds).cumulativeReturn >= CompoundedReturn(folds)
    ensures Summarise(folds).cumulativeReturn == CompoundedReturn(folds)
       <==> forall i :: 0 <= i < |folds| ==> folds[i].returnPct == folds[0].returnPct
  {
    hide Pow;
    hide Mean;
    hide Product;
    hide Median;
    MeanOfFactors(folds);
    ArithmeticGeometricMean(GrowthFactors(folds));
    SameFactors(folds);
  }

  lemma SameFactors(folds: seq<FoldResult>)
    requires folds != []
    ensures AllEqual(GrowthFactors(folds))
       <==> forall i :: 0 <= i < |folds| ==> folds[i].returnPct == folds[0].returnPct
  {
    if AllEqual(GrowthFactors(folds)) {
      forall i | 0 <= i < |folds|
        ensures folds[i].returnPct == folds[0].returnPct
      {
        assert GrowthFactors(folds)[i] == GrowthFactors(folds)[0];
      }
    }
  }

  // ---------- how much a fold may lose ----------

  /** A call of the evaluator. */
  datatype Trial = Trial(bt: Backtester, bars: seq<Bar>, train: nat, test: nat, step: nat) {

    /** On positive prices and increasing times it evaluates `n` folds without an error. */
    ghost predicate Yields(n: nat) {
      && Evaluates(bt) && Increasing(bars) && PositiveCloses(bars)
      && FoldsFit(|bars|, train, test, step) && FoldCount(|bars|, train, test, step) == n
      && AllComplete(bt, bars, train, test, step, n)
    }

    ghost function Results(n: nat): (folds: seq<FoldResult>)
      requires Yields(n)
      ensures |folds| == n
    {
      Folds(bt, bars, train, test, step, n)
    }
  }

  ghost predicate AllAtLeast(folds: seq<FoldResult>, least: real) {
    forall i :: 0 <= i < |folds| ==> least <= folds[i].returnPct
  }

  /** Whether no evaluation of `n` folds that each return at least `least` reports less than the folds compound to. */
  ghost predicate NeverUnderstates(n: nat, least: real)
    requires n > 0
  {
    forall trial: Trial :: trial.Yields(n) && AllAtLeast(trial.Results(n), least) ==>
      Summarise(trial.Results(n)).cumulativeReturn >= CompoundedReturn(trial.Results(n))
  }

  /**
   * Through shorts a fold can lose more than everything. For up to two folds the report is right about that too; for
   * more, it never understates if and only if no fold may.
   */
  lemma CumulativeBoundIsExact(n: nat, least: real)
    requires n > 0
    ensures NeverUnderstates(n, least) <==> n <= 2 || -1.0 <= least
  {
    hide Summarise;
    hide CompoundedReturn;
    hide Trial.Yields;
    if n <= 2 || -1.0 <= least {
      forall trial: Trial | trial.Yields(n) && AllAtLeast(trial.Results(n), least)
        ensures Summarise(trial.Results(n)).cumulativeReturn >= CompoundedReturn(trial.Results(n))
      {
        if n <= 2 {
          TwoFoldsNeverUnderstate(trial.Results(n));
        } else {
          CumulativeAboveCompounded(trial.Results(n));
        }
      }
    } else {
      RuinYields(n, least);
      RuinUnderstates(n, least);
    }
  }

  lemma TwoFoldsNeverUnderstate(folds: seq<FoldResult>)
    requires 1 <= |folds| <= 2
    ensures Summarise(folds).cumulativeReturn >= CompoundedReturn(folds)
  {
    hide Mean;
    hide Product;
    hide Times;
    var factors := GrowthFactors(folds);
    MeanOfFactors(folds);
    if |folds| == 1 {
      SameFactors(folds);
      EqualMean(factors);
    } else {
      MeanTimesCount(factors);
      assert factors == [] + [factors[0]] + [factors[1]];
      SumAppend([] + [factors[0]], factors[1]);
      SumAppend([], factors[0]);
      ProductAppend([] + [factors[0]], factors[1]);
      ProductAppend([], factors[0]);
      SumEmpty();
      PairProduct(factors[0], factors[1], Mean(factors));
    }
  }

  lemma PairProduct(x: real, y: real, mean: real)
    requires Times(2.0, mean) == x + y
    ensures Times(Times(Product([]), x), y) <= Pow(mean, 2)
  {
    var d := x - y;
    assert 0.0 <= d * d;
    assert Pow(mean, 2) == mean * mean by {
      assert Pow(mean, 1) == mean;
    }
    assert 4.0 * (mean * mean) == (2.0 * mean) * (2.0 * mean) == 4.0 * (x * y) + d * d;
  }

  // ---------- an evaluation that understates ----------

  /** Admits every entry at full size and never forces an exit. */
  const PERMISSIVE: RiskManager :=
    RiskManager((history, equity, peak, index, side) => RiskDecision(true, 1.0),
                (history, long, entry, held) => ExitDecision(false, None))

  /** Without costs, always short. */
  const SHORT: Backtester := Backtester(Strategy(history => Number(-1.0), None), 1.0, None, Some(PERMISSIVE))

  /** Three bars a fold: nothing happens on the first, the short opens at 1 on the second and closes on the third. */
  function ShortMarket(factors: seq<real>): (bars: seq<Bar>)
    ensures |bars| == 3 * |factors|
  {
    seq(3 * |factors|, i requires 0 <= i < 3 * |factors| =>
      Bar(i as real, None, None, if i % 3 == 2 then 2.0 - factors[i / 3] else 1.0, None))
  }

  function ShortTrial(factors: seq<real>): Trial {
    Trial(SHORT, ShortMarket(factors), 1, 2, 3)
  }

  /** Shorting one unit from 1 to `2 - factor` multiplies equity by `factor`. */
  lemma {:induction false} ShortFold(fold: seq<Bar>, factor: real)
    requires |fold| == 3 && fold[1].close == 1.0 && fold[2].close == 2.0 - factor
    ensures |SignalsOf(SHORT.strategy, fold)| == 3
    ensures Completes(SHORT, fold, SignalsOf(SHORT.strategy, fold), 3)
    ensures FoldTrace(SHORT, fold).equities == [1.0, 1.0, factor]
  {
    var signals := SignalsOf(SHORT.strategy, fold);
    SimulateFirst(SHORT, fold, signals);
    SimulateNext(SHORT, fold, signals, 1);
    SimulateNext(SHORT, fold, signals, 2);
    var entered := Book(1.0, 1.0, Open(false, 1.0, 1.0, 0), None);
    assert Step(SHORT, fold, 1, signals[1], Book(1.0, 1.0, Flat, None)) == (entered, None);
    ShortCloses(fold, signals[2], entered, factor);
    CompletesFirst(SHORT, fold, signals);
    CompletesNext(SHORT, fold, signals, 1);
    CompletesNext(SHORT, fold, signals, 2);
  }

  lemma {:induction false} ShortCloses(fold: seq<Bar>, raw: RawSignal, book: Book, factor: real)
    requires |fold| == 3 && fold[2].close == 2.0 - factor
    requires book == Book(1.0, 1.0, Open(false, 1.0, 1.0, 0), None) && raw == Number(-1.0)
    ensures var after := Step(SHORT, fold, 2, raw, book).0;
            after.equity == factor && after.position == Flat
  {
  }

  lemma ShortEvaluates()
    ensures Evaluates(SHORT)
  {
  }

  lemma ShortFoldAt(factors: seq<real>, k: nat)
    requires k < |factors|
    ensures Evaluates(SHORT) && 3 * k + 3 <= 3 * |factors|
    ensures FoldCompletes(SHORT, ShortMarket(factors), 3 * k, 1, 2)
    ensures 1.0 + FoldAt(SHORT, ShortMarket(factors), 3 * k, 1, 2).returnPct == factors[k]
  {
    hide FoldTrace;
    hide Completes;
    hide CountedTrades;
    hide Wins;
    hide SignalsOf;
    ShortEvaluates();
    var fold := ShortMarket(factors)[3 * k..3 * k + 3];
    assert (3 * k + 2) / 3 == k && (3 * k + 2) % 3 == 2 && (3 * k + 1) % 3 == 1;
    ShortFold(fold, factors[k]);
  }

  lemma {:induction false} ShortFolds(factors: seq<real>, count: nat)
    requires count <= |factors|
    ensures Evaluates(SHORT) && AllComplete(SHORT, ShortMarket(factors), 1, 2, 3, count)
    ensures GrowthFactors(Folds(SHORT, ShortMarket(factors), 1, 2, 3, count)) == factors[..count]
  {
    hide FoldCompletes;
    hide FoldAt;
    hide ShortMarket;
    assert Evaluates(SHORT);
    if count > 0 {
      ShortFolds(factors, count - 1);
      ShortFoldAt(factors, count - 1);
    }
  }

  lemma ShortTrialYields(factors: seq<real>)
    requires factors != [] && forall k :: 0 <= k < |factors| ==> factors[k] < 2.0
    ensures ShortTrial(factors).Yields(|factors|)
    ensures GrowthFactors(ShortTrial(factors).Results(|factors|)) == factors
  {
    hide AllComplete;
    hide Folds;
    ShortFolds(factors, |factors|);
    assert factors[..|factors|] == factors;
    LastFoldFits(3 * |factors|, 1, 2, 3);
    assert (3 * |factors| - 3) / 3 + 1 == |factors|;
  }

  /** Two folds that lose more than everything, but at most one and a half times, and `n - 2` that make it up. */
  function Ruin(n: nat, least: real): (factors: seq<real>)
    requires n >= 3
    ensures |factors| == n
  {
    seq(n - 2, _ => Recovery(n, least)) + [Loss(least)] + [Loss(least)]
  }

  function Loss(least: real): real {
    Max(1.0 + least, -0.5)
  }

  function Recovery(n: nat, least: real): real
    requires n >= 3
  {
    -2.0 * Loss(least) / (n - 2) as real
  }

  lemma RecoveryCancels(n: nat, least: real)
    requires n >= 3 && least < -1.0
    ensures 0.0 < Recovery(n, least) <= 1.0
    ensures Times((n - 2) as real, Recovery(n, least)) + Loss(least) + Loss(least) == 0.0
  {
    var count, gain := (n - 2) as real, -2.0 * Loss(least);
    var x := gain / count;
    assert x * count == gain;
    assert 1.0 <= count && 0.0 < gain <= 1.0;
    QuotientInUnit(gain, count);
  }

  lemma QuotientInUnit(x: real, count: real)
    requires 0.0 < x <= 1.0 <= count
    ensures 0.0 < x / count <= 1.0
  {
    QuotientSign(x, count);
    var q := x / count;
    assert q * count == x;
    assert Times(q - 1.0, count) == x - count;
    if q > 1.0 {
      TimesPositive(q - 1.0, count);
    }
  }

  lemma RuinYields(n: nat, least: real)
    requires n >= 3 && least < -1.0
    ensures var trial := ShortTrial(Ruin(n, least));
            && trial.Yields(n) && GrowthFactors(trial.Results(n)) == Ruin(n, least)
            && AllAtLeast(trial.Results(n), least)
  {
    hide Trial.Yields;
    hide Trial.Results;
    hide Recovery;
    RecoveryCancels(n, least);
    ShortTrialYields(Ruin(n, least));
    var folds := ShortTrial(Ruin(n, least)).Results(n);
    forall i | 0 <= i < n
      ensures least <= folds[i].returnPct
    {
      assert GrowthFactors(folds)[i] == Ruin(n, least)[i];
    }
  }

  lemma RuinUnderstates(n: nat, least: real)
    requires n >= 3 && least < -1.0
    ensures var trial := ShortTrial(Ruin(n, least));
            && trial.Yields(n)
            && Summarise(trial.Results(n)).cumulativeReturn < CompoundedReturn(trial.Results(n))
  {
    hide Trial.Yields;
    hide Trial.Results;
    RuinYields(n, least);
    FactorsUnderstate(n, least, ShortTrial(Ruin(n, least)).Results(n));
  }

  lemma FactorsUnderstate(n: nat, least: real, folds: seq<FoldResult>)
    requires n >= 3 && least < -1.0 && GrowthFactors(folds) == Ruin(n, least)
    ensures folds != [] && Summarise(folds).cumulativeReturn < CompoundedReturn(folds)
  {
    hide Pow;
    hide Product;
    hide Sum;
    hide Median;
    hide Mean;
    hide Times;
    hide Recovery;
    hide CountPositive;
    var x, c := Recovery(n, least), Loss(least);
    var gains := seq(n - 2, _ => x);
    RecoveryCancels(n, least);
    EqualNumbers(gains);
    assert |folds| == n && GrowthFactors(folds) == gains + [c] + [c];
    SumAppend(gains + [c], c);
    SumAppend(gains, c);
    ProductAppend(gains + [c], c);
    ProductAppend(gains, c);
    PowNonNegative(x, n - 2);
    MeanOfFactors(folds);
    MeanTimesCount(GrowthFactors(folds));
    NoMean(n as real, Mean(GrowthFactors(folds)));
    PowOfZero(n);
    SquareOfLoss(Pow(x, n - 2), c);
  }

  lemma NoMean(n: real, mean: real)
    requires 0.0 < n && Times(n, mean) == 0.0
    ensures mean == 0.0
  {
  }

  lemma SquareOfLoss(gain: real, c: real)
    requires 0.0 < gain && c < 0.0
    ensures 0.0 < Times(Times(gain, c), c)
  {
    TimesPositive(-c, -c);
    TimesPositive(gain, Times(-c, -c));
    assert (gain * c) * c == gain * (-c * -c);
  }

  // ---------- down to the trades ----------

  /** End to end: over the folds of one evaluation, the report is at least what all counted trades compound to. */
  lemma {:induction false} ReportAboveCountedTrades(
    bt: Backtester, bars: seq<Bar>, train: nat, test: nat, step: nat, count: nat)
    requires 0 < train && 0 < test && 0 < step && 0 < count && (count - 1) * step + train + test <= |bars|
    requires Evaluates(bt) && Increasing(bars)
    requires forall f :: f in Folds(bt, bars, train, test, step, count) ==> 0.0 < f.initialEquity && -1.0 <= f.returnPct
    ensures 1.0 + Summarise(Folds(bt, bars, train, test, step, count)).cumulativeReturn
         >= CountedGrowth(bt, bars, train, test, step, count)
  {
    hide Pow;
    hide Mean;
    var folds := Folds(bt, bars, train, test, step, count);
    CumulativeAboveCompounded(folds);
    FoldsCompoundTrades(bt, bars, train, test, step, count);
  }

  /** What the trades counted by the first `count` folds compound to, fold after fold. */
  ghost function CountedGrowth(bt: Backtester, bars: seq<Bar>, train: nat, test: nat, step: nat, count: nat): real
    requires 0 < train && 0 < test && 0 < step && Evaluates(bt)
    requires count > 0 ==> (count - 1) * step + train + test <= |bars|
  {
    if count == 0 then 1.0
    else
      FitsEarlier(count - 1, step, |bars| - train - test);
      var fold := bars[(count - 1) * step..(count - 1) * step + train + test];
      Times(CountedGrowth(bt, bars, train, test, step, count - 1),
            Growth(CountedTrades(FoldTrace(bt, fold).trades, fold[train].timestamp)))
  }

  lemma {:induction false} FoldsCompoundTrades(
    bt: Backtester, bars: seq<Bar>, train: nat, test: nat, step: nat, count: nat)
    requires 0 < train && 0 < test && 0 < step && Evaluates(bt) && Increasing(bars)
    requires count > 0 ==> (count - 1) * step + train + test <= |bars|
    requires forall f :: f in Folds(bt, bars, train, test, step, count) ==> 0.0 < f.initialEquity
    ensures Product(GrowthFactors(Folds(bt, bars, train, test, step, count)))
        == CountedGrowth(bt, bars, train, test, step, count)
  {
    hide Times;
    hide Product;
    hide Growth;
    hide CountedTrades;
    hide FoldAt;
    hide FoldTrace;
    if count > 0 {
      FitsEarlier(count - 1, step, |bars| - train - test);
      var init, last := Folds(bt, bars, train, test, step, count - 1),
        FoldAt(bt, bars, (count - 1) * step, train, test);
      var folds := Folds(bt, bars, train, test, step, count);
      assert folds == init + [last];
      assert last in folds;
      forall f | f in init
        ensures 0.0 < f.initialEquity
      {
        assert f in folds;
      }
      FoldsCompoundTrades(bt, bars, train, test, step, count - 1);
      FoldReturnCompoundsTrades(bt, bars, (count - 1) * step, train, test);
      FactorsAppend(init, last);
    } else {
      ProductOfNone();
    }
  }

  lemma ProductOfNone()
    ensures Product(GrowthFactors([])) == 1.0
  {
  }

  lemma FactorsAppend(init: seq<FoldResult>, last: FoldResult)
    ensures Product(GrowthFactors(init + [last])) == Times(Product(GrowthFactors(init)), 1.0 + last.returnPct)
  {
    assert GrowthFactors(init + [last]) == GrowthFactors(init) + [1.0 + last.returnPct];
    ProductAppend(GrowthFactors(init), 1.0 + last.returnPct);
  }

  // ---------- long only ----------

  /** Never short, never more than all of equity at stake, and sane costs. */
  ghost predicate Prudent(bt: Backtester) {
    && SaneModel(bt.costs) && SizesInUnit(bt.risk)
    && forall window :: NeverShort(SignalsOf(bt.strategy, window))
  }

  ghost predicate SizesInUnit(risk: Option<RiskManager>) {
    risk.Some? ==>
      forall history, equity, peak, index, side ::
        0.0 <= risk.value.evaluate(history, equity, peak, index, side).positionSize <= 1.0
  }

  ghost predicate Solvent(book: Book) {
    0.0 < book.equity && (book.position.Open? ==> InUnit(book.position))
  }

  ghost predicate InUnit(position: Position)
    requires position.Open?
  {
    position.long && 0.0 < position.entry && 0.0 <= position.size <= 1.0
  }

  lemma LongLosesLess(equity: real, entry: real, exit: real, size: real)
    requires 0.0 < equity && 0.0 < entry && 0.0 < exit && 0.0 <= size <= 1.0
    ensures 0.0 < Compound(equity, size, TradeReturn(true, entry, exit))
  {
    var ret := TradeReturn(true, entry, exit);
    assert (1.0 + ret) * entry == exit;
    FactorSign(1.0 + ret, entry);
    assert 1.0 + size * ret == (1.0 - size) + size * (1.0 + ret);
    if size > 0.0 {
      TimesPositive(size, 1.0 + ret);
    }
    TimesPositive(equity, 1.0 + size * ret);
  }

  lemma AdmittedInUnit(bt: Backtester, history: seq<Bar>, equity: real, peak: real, index: nat, raw: RawSignal)
    requires SizesInUnit(bt.risk)
    ensures 0.0 <= Admission(bt, history, equity, peak, index, raw).positionSize <= 1.0
  {
  }

  lemma {:induction false} SolventBar(bt: Backtester, bars: seq<Bar>, i: nat, raw: RawSignal, book: Book)
    requires SaneModel(bt.costs) && SizesInUnit(bt.risk)
    requires i < |bars| && 0.0 < bars[i].close && 0.0 <= Normalize(raw) && Solvent(book)
    ensures Solvent(Step(bt, bars, i, raw, book).0)
  {
    hide Costed;
    hide TradeReturn;
    hide Compound;
    hide Admission;
    hide SizesInUnit;
    var price := bars[i].close;
    CostedOrder(bt.costs, bt.costs, price, Buy);
    CostedOrder(bt.costs, bt.costs, price, Sell);
    match book.position
    case Open(_, entry, size, _) =>
      LongLosesLess(book.equity, entry, Costed(bt.costs, price, Sell), size);
    case Flat =>
      AdmittedInUnit(bt, bars[..i + 1], book.equity, book.peak, i, raw);
  }

  ghost predicate PositiveCloses(bars: seq<Bar>) {
    forall i :: 0 <= i < |bars| ==> 0.0 < bars[i].close
  }

  /** A prudent run never divides by 0 and never loses everything. */
  lemma {:induction false} PrudentRun(bt: Backtester, bars: seq<Bar>, signals: seq<RawSignal>, n: nat)
    requires Runs(bt, bars, signals, n) && SaneModel(bt.costs) && SizesInUnit(bt.risk)
    requires 0.0 < bt.initialEquity && PositiveCloses(bars) && NeverShort(signals)
    ensures Solvent(Simulate(bt, bars, signals, n).book) && Completes(bt, bars, signals, n)
  {
    hide Step;
    hide SizesInUnit;
    hide Mark;
    if n > 1 {
      PrudentRun(bt, bars, signals, n - 1);
      SolventBar(bt, bars, n - 1, signals[n - 1], Simulate(bt, bars, signals, n - 1).book);
      CompletesNext(bt, bars, signals, n - 1);
    }
  }

  lemma PrudentFold(bt: Backtester, bars: seq<Bar>, start: nat, train: nat, test: nat)
    requires 0 < train && 0 < test && start + train + test <= |bars|
    requires Evaluates(bt) && Prudent(bt) && PositiveCloses(bars)
    ensures FoldCompletes(bt, bars, start, train, test)
    ensures 0.0 < FoldAt(bt, bars, start, train, test).initialEquity
    ensures -1.0 < FoldAt(bt, bars, start, train, test).returnPct
  {
    hide Simulate;
    hide Completes;
    hide NeverShort;
    hide SizesInUnit;
    hide CountedTrades;
    var fold := bars[start..start + train + test];
    var signals := SignalsOf(bt.strategy, fold);
    PrudentRun(bt, fold, signals, train);
    PrudentRun(bt, fold, signals, |fold|);
    SeriesAt(bt, fold, signals, train - 1, |fold|);
    SeriesAt(bt, fold, signals, |fold| - 1, |fold|);
    var from, to := Simulate(bt, fold, signals, train).book.equity, Simulate(bt, fold, signals, |fold|).book.equity;
    QuotientSign(to, from);
  }

  lemma {:induction false} PrudentFolds(bt: Backtester, bars: seq<Bar>, train: nat, test: nat, step: nat, count: nat)
    requires 0 < train && 0 < test && 0 < step && Evaluates(bt) && Prudent(bt) && PositiveCloses(bars)
    requires count > 0 ==> (count - 1) * step + train + test <= |bars|
    ensures AllComplete(bt, bars, train, test, step, count)
    ensures forall f :: f in Folds(bt, bars, train, test, step, count) ==> 0.0 < f.initialEquity && -1.0 < f.returnPct
  {
    hide Prudent;
    hide FoldAt;
    hide FoldCompletes;
    if count > 0 {
      FitsEarlier(count - 1, step, |bars| - train - test);
      PrudentFolds(bt, bars, train, test, step, count - 1);
      PrudentFold(bt, bars, (count - 1) * step, train, test);
    }
  }

  /**
   * From the bars alone: on positive prices and increasing times, a long-only evaluation at sane costs ends without an
   * error, and reports at least what all its counted trades compound to.
   */
  lemma LongOnlyReport(bt: Backtester, bars: seq<Bar>, train: nat, test: nat, step: nat)
    requires ArgumentsFit(|bars|, train, test, step)
    requires Evaluates(bt) && Prudent(bt) && PositiveCloses(bars) && Increasing(bars)
    ensures FoldsFit(|bars|, train, test, step)
    ensures var result := Evaluation(bt, bars, train, test, step);
            var count := FoldCount(|bars|, train, test, step);
            && result.Ok?
            && 1.0 + result.value.summary.cumulativeReturn >= CountedGrowth(bt, bars, train, test, step, count)
  {
    hide Prudent;
    hide Folds;
    hide AllComplete;
    hide CountedGrowth;
    hide Pow;
    hide Mean;
    hide Median;
    LastFoldFits(|bars|, train, test, step);
    var count := FoldCount(|bars|, train, test, step);
    PrudentFolds(bt, bars, train, test, step, count);
    ReportAboveCountedTrades(bt, bars, train, test, step, count);
  }
}
