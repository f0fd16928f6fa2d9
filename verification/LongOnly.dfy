/**
 * Long-only backtests without costs or a risk manager, against the vectorised view of a strategy's returns
 * (`scripts/research/strategy_clusters.py`): the position held into each bar times the bar's return.
 */
module LongOnly {
  import opened Numbers
  import opened Market
  import opened Backtest
  import opened BacktestRuns

  ghost predicate CostFree(bt: Backtester, bars: seq<Bar>) {
    && bt.costs == None && bt.risk == None && 0.0 < bt.initialEquity
    && forall i :: 0 <= i < |bars| ==> 0.0 < bars[i].close
  }

  ghost predicate NeverShort(signals: seq<RawSignal>) {
    forall i :: 0 <= i < |signals| ==> 0.0 <= Normalize(signals[i])
  }

  type Positive = x: real | 0.0 < x witness 1.0

  /** Wealth after one bar from `close` to `next` with the share `held` of it invested. */
  ghost function Grow(wealth: real, held: real, close: Positive, next: real): real {
    wealth * (1.0 + held * (next / close - 1.0))
  }

  /** Initial wealth times the product over the bars of 1 + held position times bar return. */
  ghost function Vectorised(initial: real, held: seq<real>, bars: seq<Bar>, n: nat): real
    requires 1 <= n <= |bars| && n <= |held| + 1
    requires forall i :: 0 <= i < |bars| ==> 0.0 < bars[i].close
  {
    if n == 1 then initial
    else Grow(Vectorised(initial, held, bars, n - 1), held[n - 2], bars[n - 2].close, bars[n - 1].close)
  }

  /** A full long position bought at `entry` moves with the price. */
  lemma LongMarkGrows(equity: real, entry: Positive, close: Positive, next: real)
    ensures Compound(equity, 1.0, PriceMove(entry, next))
        == Grow(Compound(equity, 1.0, PriceMove(entry, close)), 1.0, close, next)
  {
    var units := equity / entry;
    assert units * entry == equity;
    LongMark(units, equity, entry, close);
    LongMark(units, equity, entry, next);
    var growth := next / close;
    assert growth * close == next;
    assert Grow(units * close, 1.0, close, next) == (units * close) * growth == units * (growth * close);
  }

  lemma LongMark(units: real, equity: real, entry: Positive, price: real)
    requires units * entry == equity
    ensures Compound(equity, 1.0, PriceMove(entry, price)) == units * price
  {
    var move := PriceMove(entry, price);
    assert (1.0 + move) * entry == price;
    assert Compound(equity, 1.0, move) == (units * entry) * (1.0 + move) == units * ((1.0 + move) * entry);
  }

  lemma FlatGrows(wealth: real, close: Positive, next: real)
    ensures Grow(wealth, 0.0, close, next) == wealth
  {
  }

  /** What a cost-free long-only book looks like, marked at the last close. */
  ghost predicate LongBook(book: Book) {
    && book.block == None
    && (book.position == Flat
        || (book.position.Open? && book.position.long && book.position.size == 1.0 && 0.0 < book.position.entry))
  }

  /**
   * One bar multiplies the mark by the return on what was held, and holds 1 exactly while the signal is positive; the
   * last bar never carries a position over.
   */
  lemma LongBar(bt: Backtester, bars: seq<Bar>, i: nat, raw: RawSignal, book: Book, close: Positive)
    requires i < |bars| && CostFree(bt, bars) && LongBook(book) && 0.0 <= Normalize(raw)
    ensures var after := Step(bt, bars, i, raw, book).0;
            && LongBook(after)
            && Mark(after.equity, after.position, bars[i].close)
                == Grow(Mark(book.equity, book.position, close), Exposure(book.position), close, bars[i].close)
            && Exposure(after.position)
            == if Normalize(raw) > 0.0 && (i < |bars| - 1 || book.position == Flat) then 1.0 else 0.0
  {
    hide Compound;
    hide Grow;
    hide PriceMove;
    var price := bars[i].close;
    match book.position
    case Open(_, entry, _, _) =>
      LongMarkGrows(book.equity, entry, close, price);
    case Flat =>
      FlatGrows(book.equity, close, price);
      FreshMark(book.equity, price);
  }

  lemma FreshMark(equity: real, price: Positive)
    ensures Compound(equity, 1.0, PriceMove(price, price)) == equity
  {
    assert PriceMove(price, price) == 0.0;
  }

  /** The last mark of a run, and what it has held so far. */
  lemma {:induction false} LastMarkIsVectorised(bt: Backtester, bars: seq<Bar>, signals: seq<RawSignal>, n: nat)
    requires Runs(bt, bars, signals, n) && CostFree(bt, bars) && NeverShort(signals)
    ensures var t := Simulate(bt, bars, signals, n);
            && LongBook(t.book)
            && t.marks[n - 1] == Mark(t.book.equity, t.book.position, bars[n - 1].close)
                == Vectorised(bt.initialEquity, t.exposures, bars, n)
            && t.exposures[n - 1] == Exposure(t.book.position) && t.exposures[0] == 0.0
            && forall i :: 1 <= i < n ==> t.exposures[i] == LoopHolds(signals, t.exposures, i, |bars|)
  {
    hide Step;
    hide Mark;
    hide Grow;
    hide Normalize;
    if n > 1 {
      LastMarkIsVectorised(bt, bars, signals, n - 1);
      var before, after := Simulate(bt, bars, signals, n - 1), Simulate(bt, bars, signals, n);
      var step := Step(bt, bars, n - 1, signals[n - 1], before.book);
      assert after == Extend(before, step, bars[n - 1].close);
      LongBar(bt, bars, n - 1, signals[n - 1], before.book, bars[n - 2].close);
      VectorisedPrefix(bt.initialEquity, before.exposures, after.exposures, bars, n - 1);
      ExposureOfBook(before.book);
      forall i | 1 <= i < n
        ensures after.exposures[i] == LoopHolds(signals, after.exposures, i, |bars|)
      {
        if i < n - 1 {
          assert after.exposures[i] == before.exposures[i] && after.exposures[i - 1] == before.exposures[i - 1];
        }
      }
    } else {
      MarkOfFlat(bt.initialEquity, bars[0].close);
    }
  }

  /**
   * The event loop's mark-to-market equity at every bar is the vectorised product over its own position series, and
   * that series is 1 on exactly the bars with a positive signal: not on bar 0, whose signal is never read, nor on a
   * last bar reached with an open position, which is closed there.
   */
  lemma EventLoopIsVectorised(bt: Backtester, bars: seq<Bar>, signals: seq<RawSignal>, n: nat)
    requires Runs(bt, bars, signals, n) && CostFree(bt, bars) && NeverShort(signals)
    ensures var t := Simulate(bt, bars, signals, n);
            && (forall i :: 0 <= i < n ==> t.marks[i] == Vectorised(bt.initialEquity, t.exposures, bars, i + 1))
            && t.exposures[0] == 0.0
            && forall i :: 1 <= i < n ==> t.exposures[i] == LoopHolds(signals, t.exposures, i, |bars|)
  {
    hide Simulate;
    hide Vectorised;
    hide Mark;
    hide Normalize;
    var t := Simulate(bt, bars, signals, n);
    LastMarkIsVectorised(bt, bars, signals, n);
    forall i | 0 <= i < n
      ensures t.marks[i] == Vectorised(bt.initialEquity, t.exposures, bars, i + 1)
    {
      var early := Simulate(bt, bars, signals, i + 1);
      LastMarkIsVectorised(bt, bars, signals, i + 1);
      RunsExtend(bt, bars, signals, i + 1, n);
      assert early.marks[i] == t.marks[i];
      assert forall j :: 0 <= j < i ==> early.exposures[j] == t.exposures[j];
      VectorisedPrefix(bt.initialEquity, early.exposures, t.exposures, bars, i + 1);
    }
  }

  lemma ExposureOfBook(book: Book)
    requires LongBook(book)
    ensures Exposure(book.position) == if book.position == Flat then 0.0 else 1.0
  {
  }

  lemma MarkOfFlat(equity: real, close: real)
    ensures Mark(equity, Flat, close) == equity
  {
  }

  /** What the loop holds after bar `i` of `count`, given its signal and what it held before. */
  ghost function LoopHolds(signals: seq<RawSignal>, held: seq<real>, i: nat, count: nat): real
    requires 1 <= i < |signals| && i < |held|
  {
    if Normalize(signals[i]) > 0.0 && (i < count - 1 || held[i - 1] == 0.0) then 1.0 else 0.0
  }

  lemma {:induction false} VectorisedPrefix(initial: real, held: seq<real>, held': seq<real>, bars: seq<Bar>, n: nat)
    requires 1 <= n <= |bars| && n <= |held| + 1 && n <= |held'| + 1
    requires forall i :: 0 <= i < |bars| ==> 0.0 < bars[i].close
    requires forall i :: 0 <= i < n - 1 ==> held[i] == held'[i]
    ensures Vectorised(initial, held, bars, n) == Vectorised(initial, held', bars, n)
  {
    hide Grow;
    if n > 1 {
      VectorisedPrefix(initial, held, held', bars, n - 1);
    }
  }

  // ---------- against the signals themselves ----------

  ghost function Values(signals: seq<RawSignal>): seq<real> {
    seq(|signals|, i requires 0 <= i < |signals| => Normalize(signals[i]))
  }

  ghost predicate ZeroOne(signals: seq<RawSignal>) {
    forall i :: 0 <= i < |signals| ==> Normalize(signals[i]) == 0.0 || Normalize(signals[i]) == 1.0
  }

  lemma GrowsCommute(wealth: real, a: real, close: Positive, next: real, b: real, close': Positive, next': real)
    ensures Grow(Grow(wealth, a, close, next), b, close', next') == Grow(Grow(wealth, b, close', next'), a, close, next)
  {
    var x, y := 1.0 + a * (next / close - 1.0), 1.0 + b * (next' / close' - 1.0);
    assert (wealth * x) * y == (wealth * y) * x;
  }

  lemma GrowthPositive(wealth: real, held: real, close: Positive, next: Positive)
    requires 0.0 < wealth && (held == 0.0 || held == 1.0)
    ensures 0.0 < Grow(wealth, held, close, next)
  {
    var ratio := next / close;
    assert ratio * close == next;
    assert 0.0 < ratio;
    if held == 1.0 {
      assert Grow(wealth, held, close, next) == wealth * ratio;
    }
  }

  lemma GrowthIsOne(wealth: real, held: real, close: Positive, next: real)
    requires 0.0 < wealth && (held == 0.0 || held == 1.0)
    ensures Grow(wealth, held, close, next) == wealth <==> held == 0.0 || next == close
  {
    var ratio := next / close;
    assert ratio * close == next;
    if held == 1.0 {
      assert Grow(wealth, held, close, next) == wealth * ratio;
      if wealth * ratio == wealth {
        assert wealth * (ratio - 1.0) == 0.0;
      }
    }
  }

  /** Two holdings that agree except on bar 0, where one is flat, differ by the other's growth over bar 1. */
  lemma {:induction false} FirstBarApart(initial: real, loop: seq<real>, held: seq<real>, bars: seq<Bar>, n: nat)
    requires 2 <= n <= |bars| && n <= |loop| && n <= |held|
    requires forall i :: 0 <= i < |bars| ==> 0.0 < bars[i].close
    requires loop[0] == 0.0 && forall i :: 1 <= i < n - 1 ==> loop[i] == held[i]
    ensures Vectorised(initial, held, bars, n)
        == Grow(Vectorised(initial, loop, bars, n), held[0], bars[0].close, bars[1].close)
  {
    hide Grow;
    if n == 2 {
      assert Vectorised(initial, loop, bars, 1) == Vectorised(initial, held, bars, 1) == initial;
      FlatGrows(initial, bars[0].close, bars[1].close);
    } else {
      FirstBarApart(initial, loop, held, bars, n - 1);
      GrowsCommute(Vectorised(initial, loop, bars, n - 1), held[0], bars[0].close, bars[1].close, loop[n - 2],
        bars[n - 2].close, bars[n - 1].close);
    }
  }

  lemma {:induction false} VectorisedPositive(initial: real, held: seq<real>, bars: seq<Bar>, n: nat)
    requires 1 <= n <= |bars| && n <= |held| + 1 && 0.0 < initial
    requires forall i :: 0 <= i < |bars| ==> 0.0 < bars[i].close
    requires forall i :: 0 <= i < n - 1 ==> held[i] == 0.0 || held[i] == 1.0
    ensures 0.0 < Vectorised(initial, held, bars, n)
  {
    hide Grow;
    if n > 1 {
      VectorisedPositive(initial, held, bars, n - 1);
      GrowthPositive(Vectorised(initial, held, bars, n - 1), held[n - 2], bars[n - 2].close, bars[n - 1].close);
    }
  }

  /**
   * For 0/1 signals, holding each bar's signal into the next bar, as the research view does, compounds to the event
   * loop's final equity if and only if the first bar's signal is 0 or the price did not move on the second: the loop
   * starts reading signals at bar 1.
   */
  lemma SignalViewAgrees(bt: Backtester, bars: seq<Bar>, signals: seq<RawSignal>)
    requires 2 <= |bars| && Runs(bt, bars, signals, |bars|) && CostFree(bt, bars) && ZeroOne(signals)
    ensures var t := Simulate(bt, bars, signals, |bars|);
            t.book.equity == Vectorised(bt.initialEquity, Values(signals), bars, |bars|)
            <==> Normalize(signals[0]) == 0.0 || bars[1].close == bars[0].close
  {
    hide Step;
    hide Grow;
    hide Mark;
    hide Normalize;
    hide Simulate;
    hide Vectorised;
    var n, held, t := |bars|, Values(signals), Simulate(bt, bars, signals, |bars|);
    LastMarkIsVectorised(bt, bars, signals, n);
    forall i | 1 <= i < n - 1
      ensures t.exposures[i] == held[i]
    {
      assert t.exposures[i] == LoopHolds(signals, t.exposures, i, n);
    }
    FirstBarApart(bt.initialEquity, t.exposures, held, bars, n);
    VectorisedPositive(bt.initialEquity, t.exposures, bars, n);
    FinalMark(bt, bars, signals);
    GrowthIsOne(Vectorised(bt.initialEquity, t.exposures, bars, n), held[0], bars[0].close, bars[1].close);
  }

  /** At the last bar a cost-free book is marked at its own equity: it is flat or was opened at that very close. */
  lemma FinalMark(bt: Backtester, bars: seq<Bar>, signals: seq<RawSignal>)
    requires 2 <= |bars| && Runs(bt, bars, signals, |bars|) && CostFree(bt, bars)
    ensures var book := Simulate(bt, bars, signals, |bars|).book;
            Mark(book.equity, book.position, bars[|bars| - 1].close) == book.equity
  {
    hide Mark;
    hide Step;
    var i := |bars| - 1;
    LastBarMark(bt, bars, signals[i], Simulate(bt, bars, signals, i).book);
  }

  lemma LastBarMark(bt: Backtester, bars: seq<Bar>, raw: RawSignal, book: Book)
    requires 1 <= |bars| && CostFree(bt, bars)
    ensures var after := Step(bt, bars, |bars| - 1, raw, book).0;
            Mark(after.equity, after.position, bars[|bars| - 1].close) == after.equity
  {
    hide PriceMove;
    hide Compound;
    var equity, price := book.equity, bars[|bars| - 1].close;
    FreshMark(equity, price);
    FreshShortMark(equity, price);
  }

  lemma FreshShortMark(equity: real, price: Positive)
    ensures Compound(equity, 1.0, -PriceMove(price, price)) == equity
  {
    assert PriceMove(price, price) == 0.0;
  }

  // ---------- the research view's daily returns ----------

  /** The research view's return of bar `i`: the signal of the bar before times the bar's return. */
  ghost function ResearchReturn(signals: seq<RawSignal>, bars: seq<Bar>, i: nat): real
    requires i < |bars| == |signals| && forall j :: 0 <= j < |bars| ==> 0.0 < bars[j].close
  {
    if i == 0 then 0.0 else Normalize(signals[i - 1]) * (bars[i].close / bars[i - 1].close - 1.0)
  }

  /** By how much a series changed on bar `i`, as a share of what it was. */
  ghost function SeriesReturn(series: seq<real>, i: nat): real
    requires i < |series| && forall j :: 0 <= j < |series| ==> series[j] != 0.0
  {
    if i == 0 then 0.0 else series[i] / series[i - 1] - 1.0
  }

  lemma GrowthAsReturn(wealth: Positive, held: real, close: Positive, next: real)
    ensures Grow(wealth, held, close, next) / wealth - 1.0 == held * (next / close - 1.0)
  {
    var growth := 1.0 + held * (next / close - 1.0);
    assert Grow(wealth, held, close, next) == wealth * growth;
    assert wealth * growth / wealth == growth;
  }

  lemma MarksPositive(bt: Backtester, bars: seq<Bar>, signals: seq<RawSignal>)
    requires Runs(bt, bars, signals, |bars|) && CostFree(bt, bars) && ZeroOne(signals)
    ensures var marks := Simulate(bt, bars, signals, |bars|).marks;
            |marks| == |bars| && forall i :: 0 <= i < |marks| ==> 0.0 < marks[i]
  {
    hide Simulate;
    hide Normalize;
    var n, t := |bars|, Simulate(bt, bars, signals, |bars|);
    EventLoopIsVectorised(bt, bars, signals, n);
    forall i | 0 <= i < n
      ensures 0.0 < t.marks[i]
    {
      assert forall j :: 1 <= j < n ==> t.exposures[j] == LoopHolds(signals, t.exposures, j, n);
      VectorisedPositive(bt.initialEquity, t.exposures, bars, i + 1);
    }
  }

  /** On every bar but the second the loop's marks change by exactly the research view's return. */
  lemma BarReturnsAgree(bt: Backtester, bars: seq<Bar>, signals: seq<RawSignal>, i: nat)
    requires Runs(bt, bars, signals, |bars|) && CostFree(bt, bars) && ZeroOne(signals) && i < |bars|
    ensures var marks := Simulate(bt, bars, signals, |bars|).marks;
            && (forall j :: 0 <= j < |bars| ==> 0.0 < marks[j])
            && SeriesReturn(marks, i) == if i == 1 then 0.0 else ResearchReturn(signals, bars, i)
  {
    hide Simulate;
    hide Normalize;
    hide Grow;
    MarksPositive(bt, bars, signals);
    if i > 0 {
      var n, t := |bars|, Simulate(bt, bars, signals, |bars|);
      EventLoopIsVectorised(bt, bars, signals, n);
      assert t.marks[i] == Vectorised(bt.initialEquity, t.exposures, bars, i + 1);
      assert t.marks[i - 1] == Vectorised(bt.initialEquity, t.exposures, bars, i);
      GrowthAsReturn(t.marks[i - 1], t.exposures[i - 1], bars[i - 1].close, bars[i].close);
      if i > 1 {
        assert t.exposures[i - 1] == LoopHolds(signals, t.exposures, i - 1, n);
      }
    }
  }

  /** The UTC day of a bar. */
  ghost function Day(bar: Bar): int {
    (bar.timestamp / 86400.0).Floor
  }

  /** What the research view books for a day: the sum of the day's returns among the first `n` bars. */
  ghost function ResearchDay(signals: seq<RawSignal>, bars: seq<Bar>, day: int, n: nat): real
    requires n <= |bars| == |signals| && forall j :: 0 <= j < |bars| ==> 0.0 < bars[j].close
  {
    if n == 0 then 0.0
    else
      var booked := if Day(bars[n - 1]) == day then ResearchReturn(signals, bars, n - 1) else 0.0;
      ResearchDay(signals, bars, day, n - 1) + booked
  }

  /** The same sum over the changes of a series. */
  ghost function SeriesDay(series: seq<real>, bars: seq<Bar>, day: int, n: nat): real
    requires n <= |bars| == |series| && forall j :: 0 <= j < |series| ==> series[j] != 0.0
  {
    if n == 0 then 0.0
    else SeriesDay(series, bars, day, n - 1) + if Day(bars[n - 1]) == day then SeriesReturn(series, n - 1) else 0.0
  }

  lemma {:induction false} DaysApart(bt: Backtester, bars: seq<Bar>, signals: seq<RawSignal>, day: int, n: nat)
    requires Runs(bt, bars, signals, |bars|) && CostFree(bt, bars) && ZeroOne(signals) && n <= |bars|
    ensures var marks := Simulate(bt, bars, signals, |bars|).marks;
            && (forall j :: 0 <= j < |bars| ==> 0.0 < marks[j])
            && ResearchDay(signals, bars, day, n) == SeriesDay(marks, bars, day, n) + FirstReturn(signals, bars, day, n)
  {
    hide Simulate;
    hide Normalize;
    hide ResearchReturn;
    hide SeriesReturn;
    hide Day;
    MarksPositive(bt, bars, signals);
    if n > 0 {
      DaysApart(bt, bars, signals, day, n - 1);
      BarReturnsAgree(bt, bars, signals, n - 1);
    }
  }

  /** The return of the second bar, which only the research view has, on its day. */
  ghost function FirstReturn(signals: seq<RawSignal>, bars: seq<Bar>, day: int, n: nat): real
    requires n <= |bars| == |signals| && forall j :: 0 <= j < |bars| ==> 0.0 < bars[j].close
  {
    if n >= 2 && Day(bars[1]) == day then ResearchReturn(signals, bars, 1) else 0.0
  }

  /**
   * For 0/1 signals the research view's figure for every day is the sum of the day's changes in the loop's marked
   * equity if and only if the first signal is 0 or the price did not move on the second bar.
   */
  lemma ResearchDaysAgree(bt: Backtester, bars: seq<Bar>, signals: seq<RawSignal>)
    requires 2 <= |bars| && Runs(bt, bars, signals, |bars|) && CostFree(bt, bars) && ZeroOne(signals)
    ensures var n, marks := |bars|, Simulate(bt, bars, signals, |bars|).marks;
            && (forall j :: 0 <= j < n ==> 0.0 < marks[j])
            && ((forall day :: ResearchDay(signals, bars, day, n) == SeriesDay(marks, bars, day, n))
                <==> Normalize(signals[0]) == 0.0 || bars[1].close == bars[0].close)
  {
    hide Simulate;
    hide Normalize;
    hide ResearchDay;
    hide SeriesDay;
    MarksPositive(bt, bars, signals);
    var n, marks := |bars|, Simulate(bt, bars, signals, |bars|).marks;
    assert forall j :: 0 <= j < |marks| ==> marks[j] != 0.0;
    forall day
      ensures ResearchDay(signals, bars, day, n) == SeriesDay(marks, bars, day, n) + FirstReturn(signals, bars, day, n)
    {
      DaysApart(bt, bars, signals, day, n);
    }
    ReturnIsZero(signals, bars);
    var second := Day(bars[1]);
    assert FirstReturn(signals, bars, second, n) == ResearchReturn(signals, bars, 1);
    assert ResearchDay(signals, bars, second, n)
      == SeriesDay(marks, bars, second, n) + ResearchReturn(signals, bars, 1);
  }

  lemma {:induction false} ReturnIsZero(signals: seq<RawSignal>, bars: seq<Bar>)
    requires 2 <= |bars| == |signals| && ZeroOne(signals) && forall j :: 0 <= j < |bars| ==> 0.0 < bars[j].close
    ensures ResearchReturn(signals, bars, 1) == 0.0 <==> Normalize(signals[0]) == 0.0 || bars[1].close == bars[0].close
  {
    var ratio := bars[1].close / bars[0].close;
    assert ratio * bars[0].close == bars[1].close;
  }
}
