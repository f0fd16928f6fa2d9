/**
 * How far prices may rise before higher costs can lead to more equity: exact bounds on the bars and the dearer costs
 * alone, realised and marked to market.
 */
module CostBounds {
  import opened Numbers
  import opened Costs
  import opened Market
  import opened Backtest
  import opened BacktestRuns
  import opened CostComparison
  import opened LongOnly

  /** Buying on a bar never costs more than `limit` times what selling on an earlier bar yields. */
  ghost predicate Gentle(limit: real, costs: Option<CostModel>, bars: seq<Bar>) {
    forall i, j :: 1 <= i <= j < |bars| ==>
      Costed(costs, bars[j].close, Buy) <= limit * Costed(costs, bars[i].close, Sell)
  }

  /** Two runs to compare. */
  datatype Contest = Contest(cheap: Backtester, dear: Backtester, bars: seq<Bar>, signals: seq<RawSignal>, n: nat) {

    ghost predicate Fair(limit: real) {
      && Comparable(cheap, dear, bars) && Runs(cheap, bars, signals, n)
      && Gentle(limit, dear.costs, bars)
    }

    ghost predicate EquityTrails()
      requires Runs(cheap, bars, signals, n)
    {
      var less, more := Simulate(dear, bars, signals, n).equities, Simulate(cheap, bars, signals, n).equities;
      forall i :: 0 <= i < n ==> less[i] <= more[i]
    }

    ghost predicate MarksTrail()
      requires Runs(cheap, bars, signals, n)
    {
      var less, more := Simulate(dear, bars, signals, n).marks, Simulate(cheap, bars, signals, n).marks;
      forall i :: 0 <= i < n ==> less[i] <= more[i]
    }
  }

  // ---------- where the prices of a short come from ----------

  /** A short is entered at what selling on some bar before bar `n` yields. */
  ghost predicate SoldBefore(costs: Option<CostModel>, bars: seq<Bar>, entry: real, n: nat)
    requires n <= |bars|
  {
    exists i :: 1 <= i < n && entry == Costed(costs, bars[i].close, Sell)
  }

  /** A closed short was sold on one bar and bought back on a later one. */
  ghost predicate Quoted(costs: Option<CostModel>, bars: seq<Bar>, trade: TradeRecord, n: nat)
    requires n <= |bars|
  {
    trade.long ||
    exists j :: 1 <= j < n && trade.exitPrice == Costed(costs, bars[j].close, Buy)
                && SoldBefore(costs, bars, trade.entryPrice, j)
  }

  ghost predicate QuotedPosition(costs: Option<CostModel>, bars: seq<Bar>, position: Position, n: nat)
    requires n <= |bars|
  {
    position.Open? && !position.long ==> SoldBefore(costs, bars, position.entry, n)
  }

  lemma {:induction false} QuotedBar(bt: Backtester, bars: seq<Bar>, i: nat, raw: RawSignal, book: Book)
    requires 1 <= i < |bars| && QuotedPosition(bt.costs, bars, book.position, i)
    ensures var (after, trade) := Step(bt, bars, i, raw, book);
            && QuotedPosition(bt.costs, bars, after.position, i + 1)
            && (trade.Some? ==> Quoted(bt.costs, bars, trade.value, i + 1))
  {
    hide Costed;
    hide Compound;
    hide TradeReturn;
    hide Admission;
    hide ForcedExit;
    hide Normalize;
    hide SoldBefore;
    SoldHere(bt.costs, bars, i);
    if book.position.Open? && !book.position.long {
      SoldLater(bt.costs, bars, book.position.entry, i);
    }
  }

  lemma {:induction false} SoldHere(costs: Option<CostModel>, bars: seq<Bar>, i: nat)
    requires 1 <= i < |bars|
    ensures SoldBefore(costs, bars, Costed(costs, bars[i].close, Sell), i + 1)
  {
  }

  lemma {:induction false} SoldLater(costs: Option<CostModel>, bars: seq<Bar>, entry: real, n: nat)
    requires n < |bars| && SoldBefore(costs, bars, entry, n)
    ensures SoldBefore(costs, bars, entry, n + 1)
  {
    var i :| 1 <= i < n && entry == Costed(costs, bars[i].close, Sell);
  }

  lemma {:induction false} QuotedLater(costs: Option<CostModel>, bars: seq<Bar>, trade: TradeRecord, n: nat)
    requires n < |bars| && Quoted(costs, bars, trade, n)
    ensures Quoted(costs, bars, trade, n + 1)
  {
    hide Costed;
    hide SoldBefore;
    if !trade.long {
      var j :| 1 <= j < n && trade.exitPrice == Costed(costs, bars[j].close, Buy)
               && SoldBefore(costs, bars, trade.entryPrice, j);
    }
  }

  /** Every short of a run, open or closed, is priced by bars of the run. */
  lemma {:induction false} ShortsAreQuoted(bt: Backtester, bars: seq<Bar>, signals: seq<RawSignal>, n: nat)
    requires Runs(bt, bars, signals, n)
    ensures var t := Simulate(bt, bars, signals, n);
            && QuotedPosition(bt.costs, bars, t.book.position, n)
            && forall k :: 0 <= k < |t.trades| ==> Quoted(bt.costs, bars, t.trades[k], n)
  {
    hide Step;
    hide Mark;
    hide Quoted;
    hide SoldBefore;
    if n > 1 {
      ShortsAreQuoted(bt, bars, signals, n - 1);
      var before, after := Simulate(bt, bars, signals, n - 1), Simulate(bt, bars, signals, n);
      QuotedBar(bt, bars, n - 1, signals[n - 1], before.book);
      forall k | 0 <= k < |after.trades|
        ensures Quoted(bt.costs, bars, after.trades[k], n)
      {
        if k < |before.trades| {
          assert after.trades[k] == before.trades[k];
          QuotedLater(bt.costs, bars, before.trades[k], n - 1);
        }
      }
    }
  }

  // ---------- up to twice, higher costs never help ----------

  lemma {:induction false} GentleTrade(costs: Option<CostModel>, bars: seq<Bar>, trade: TradeRecord, n: nat)
    requires Gentle(2.0, costs, bars) && n <= |bars| && Quoted(costs, bars, trade, n)
    ensures Survivable(trade)
  {
    hide Costed;
    if !trade.long {
      var j :| 1 <= j < n && trade.exitPrice == Costed(costs, bars[j].close, Buy)
               && SoldBefore(costs, bars, trade.entryPrice, j);
      var i :| 1 <= i < j && trade.entryPrice == Costed(costs, bars[i].close, Sell);
    }
  }

  lemma {:induction false} GentlePosition(costs: Option<CostModel>, bars: seq<Bar>, position: Position, n: nat)
    requires Gentle(2.0, costs, bars) && 0 < n <= |bars| && QuotedPosition(costs, bars, position, n)
    requires SaneModel(costs) && 0.0 < bars[n - 1].close
    ensures Calm(position, bars[n - 1].close)
  {
    hide Costed;
    if position.Open? && !position.long {
      var i :| 1 <= i < n && position.entry == Costed(costs, bars[i].close, Sell);
      CostedOrder(None, costs, bars[n - 1].close, Buy);
      FreePrice(bars[n - 1].close);
    }
  }

  lemma FreePrice(price: real)
    ensures Costed(None, price, Buy) == price == Costed(None, price, Sell)
  {
  }

  /** On bars that rise no further, a dearer run trails in every respect: position, trades, equity and marks. */
  lemma {:induction false} GentleRunTrails(
    cheap: Backtester, dear: Backtester, bars: seq<Bar>, signals: seq<RawSignal>, n: nat)
    requires Comparable(cheap, dear, bars) && Runs(cheap, bars, signals, n) && Gentle(2.0, dear.costs, bars)
    ensures RunTrails(Simulate(dear, bars, signals, n), Simulate(cheap, bars, signals, n))
    ensures Contest(cheap, dear, bars, signals, n).MarksTrail()
  {
    hide Simulate;
    hide Gentle;
    hide Quoted;
    hide QuotedPosition;
    hide Survivable;
    hide Calm;
    ShortsAreQuoted(dear, bars, signals, n);
    var trades := Simulate(dear, bars, signals, n).trades;
    forall k | 0 <= k < |trades|
      ensures Survivable(trades[k])
    {
      GentleTrade(dear.costs, bars, trades[k], n);
    }
    DearerRunTrails(cheap, dear, bars, signals, n);
    forall i | 0 <= i < n
      ensures Simulate(dear, bars, signals, n).marks[i] <= Simulate(cheap, bars, signals, n).marks[i]
    {
      ShortsAreQuoted(dear, bars, signals, i + 1);
      GentlePosition(dear.costs, bars, Simulate(dear, bars, signals, i + 1).book.position, i + 1);
      DearerMarksTrail(cheap, dear, bars, signals, n, i);
    }
  }

  // ---------- beyond twice, they can ----------

  function Fee(q: real): real {
    (q - 2.0) / 10.0
  }

  function Dear(q: real): Backtester {
    FREE.(costs := Some(CostModel(0.0, 100.0 * Fee(q), 0.0)))
  }

  /** The first short doubles when costs are counted, the second grows `q`-fold. */
  function First(q: real): real
    requires Fee(q) > -1.0
  {
    2.0 * (1.0 - Fee(q)) / (1.0 + Fee(q))
  }

  function Second(q: real): real
    requires Fee(q) > -1.0
  {
    q * (1.0 - Fee(q)) / (1.0 + Fee(q))
  }

  function Squeeze(q: real): (bars: seq<Bar>)
    requires Fee(q) > -1.0
    ensures |bars| == 6
  {
    [Quote(0.0, 1.0), Quote(1.0, 1.0), Quote(2.0, First(q)), Quote(3.0, 1.0), Quote(4.0, Second(q)), Quote(5.0, 1.0)]
  }

  const SQUEEZE_SIGNALS: seq<RawSignal> :=
    [Number(0.0), Number(-1.0), Number(0.0), Number(-1.0), Number(-1.0), Number(0.0)]

  lemma FeeShare(q: real)
    requires 2.0 < q <= 3.0
    ensures 0.0 < Fee(q) <= 0.1
    ensures Times(First(q), 1.0 + Fee(q)) == 2.0 * (1.0 - Fee(q))
    ensures Times(Second(q), 1.0 + Fee(q)) == Times(q, 1.0 - Fee(q))
  {
  }

  lemma SqueezePrices(q: real)
    requires 2.0 < q <= 3.0
    ensures Fee(q) > -1.0 && 1.0 < First(q) < 2.0 < Second(q)
  {
    hide Fee;
    hide First;
    hide Second;
    hide Times;
    FeeShare(q);
    var b := 1.0 + Fee(q);
    FeeGain(q);
    TimesOne(b);
    Exceeds(1.0, First(q), b);
    Exceeds(First(q), 2.0, b);
    Exceeds(2.0, Second(q), b);
  }

  lemma TimesOne(b: real)
    ensures Times(1.0, b) == b && Times(2.0, b) == b + b
  {
  }

  /** The multiple outgrows the fee it sets. */
  lemma FeeGain(q: real)
    requires 2.0 < q <= 3.0
    ensures 2.0 * (1.0 + Fee(q)) < Times(q, 1.0 - Fee(q))
  {
    var f := Fee(q);
    SquareSmall(f);
    assert Times(q, 1.0 - f) == q - Times(q, f);
    assert Times(q, f) == 2.0 * f + 10.0 * Times(f, f);
  }

  lemma SquareSmall(f: real)
    requires 0.0 < f <= 0.1
    ensures Times(f, f) <= 0.1 * f
  {
    TimesScales(f, 0.1, f);
  }

  lemma Exceeds(x: real, y: real, factor: real)
    requires 0.0 < factor && Times(x, factor) < Times(y, factor)
    ensures x < y
  {
    if y <= x {
      TimesScales(y, x, factor);
    }
  }

  lemma SqueezeCosts(q: real, price: real)
    ensures Costed(Dear(q).costs, price, Buy) == Times(price, 1.0 + Fee(q))
    ensures Costed(Dear(q).costs, price, Sell) == Times(price, 1.0 - Fee(q))
  {
  }

  lemma SqueezeBar(q: real, limit: real, high: real, low: real)
    requires 2.0 < q <= 3.0 && q <= limit && SqueezeRange(q, high) && SqueezeRange(q, low)
    ensures Costed(Dear(q).costs, high, Buy) <= limit * Costed(Dear(q).costs, low, Sell)
  {
    hide Costed;
    hide First;
    hide Second;
    hide Times;
    FeeShare(q);
    SqueezeCosts(q, high);
    SqueezeCosts(q, low);
    TimesScales(high, Second(q), 1.0 + Fee(q));
    TimesScales(1.0, low, 1.0 - Fee(q));
    TimesOne(1.0 - Fee(q));
    TimesLess(q, limit, 1.0 - Fee(q), Times(low, 1.0 - Fee(q)));
    AsTimes(limit, Times(low, 1.0 - Fee(q)));
  }

  lemma AsTimes(x: real, y: real)
    ensures Times(x, y) == x * y
  {
  }

  ghost predicate SqueezeRange(q: real, price: real) {
    Fee(q) > -1.0 && 1.0 <= price <= Second(q)
  }

  /** The two runs may be compared, and the bars are as gentle as any `limit` of at least `q` asks. */
  lemma {:induction false} SqueezeIsFair(q: real, limit: real, bars: seq<Bar>, signals: seq<RawSignal>)
    requires 2.0 < q <= 3.0 && q <= limit && Fee(q) > -1.0
    requires 5 <= |bars| == |signals| && bars <= Squeeze(q)
    ensures Contest(FREE, Dear(q), bars, signals, 5).Fair(limit)
  {
    hide Costed;
    hide First;
    hide Second;
    hide Runs;
    FeeShare(q);
    SqueezePrices(q);
    RunsAtFive(bars, signals);
    forall i | 0 <= i < |bars|
      ensures SqueezeRange(q, bars[i].close)
    {
      assert bars[i] == Squeeze(q)[i];
    }
    forall i, j | 1 <= i <= j < |bars|
      ensures Costed(Dear(q).costs, bars[j].close, Buy) <= limit * Costed(Dear(q).costs, bars[i].close, Sell)
    {
      SqueezeBar(q, limit, bars[j].close, bars[i].close);
    }
  }

  lemma RunsAtFive(bars: seq<Bar>, signals: seq<RawSignal>)
    requires 5 <= |bars| == |signals|
    ensures Runs(FREE, bars, signals, 5)
  {
  }

  /** Into the first short on bar 1, out on bar 2, into the second on bar 3. */
  lemma {:induction false} SqueezeTwice(bt: Backtester, q: real, bars: seq<Bar>, signals: seq<RawSignal>)
    requires bt.risk == None && bt.initialEquity == 1.0 && Fee(q) > -1.0
    requires 5 <= |bars| == |signals| && bars <= Squeeze(q) && signals <= SQUEEZE_SIGNALS
    ensures var t, sell := Simulate(bt, bars, signals, 4), Costed(bt.costs, 1.0, Sell);
            && t.book.equity == Compound(1.0, 1.0, TradeReturn(false, sell, Costed(bt.costs, First(q), Buy)))
            && t.book.position == Open(false, sell, 1.0, 0) && t.book.block == None
  {
    hide Costed;
    hide Compound;
    hide TradeReturn;
    hide Mark;
    hide Exposure;
    hide First;
    hide Second;
    var sell := Costed(bt.costs, 1.0, Sell);
    SimulateFirst(bt, bars, signals);
    SimulateNext(bt, bars, signals, 1);
    SimulateNext(bt, bars, signals, 2);
    SimulateNext(bt, bars, signals, 3);
    assert bars[1] == Squeeze(q)[1] && bars[2] == Squeeze(q)[2] && bars[3] == Squeeze(q)[3];
    var one := Step(bt, bars, 1, signals[1], Book(1.0, 1.0, Flat, None));
    assert one == (Book(1.0, 1.0, Open(false, sell, 1.0, 0), None), None);
    var two := Step(bt, bars, 2, signals[2], one.0).0;
    assert two.position == Flat && two.block == None;
    assert two.equity == Compound(1.0, 1.0, TradeReturn(false, sell, Costed(bt.costs, First(q), Buy)));
  }

  /** With a sixth bar the second short is still open on the fifth; without, it is closed there. */
  lemma {:induction false} SqueezeEnds(bt: Backtester, q: real, bars: seq<Bar>, signals: seq<RawSignal>)
    requires bt.risk == None && bt.initialEquity == 1.0 && Fee(q) > -1.0
    requires 5 <= |bars| == |signals| && bars <= Squeeze(q) && signals <= SQUEEZE_SIGNALS
    ensures var start, end := Simulate(bt, bars, signals, 4).book, Simulate(bt, bars, signals, 5);
            var sell := Costed(bt.costs, 1.0, Sell);
            var last := TradeReturn(false, sell, Costed(bt.costs, Second(q), Buy));
            && (|bars| == 6 ==> end.marks[4] == Compound(start.equity, 1.0, -PriceMove(sell, Second(q))))
            && (|bars| == 5 ==> end.equities[4] == Compound(start.equity, 1.0, last))
  {
    hide Costed;
    hide Compound;
    hide TradeReturn;
    hide PriceMove;
    hide First;
    hide Second;
    SqueezeTwice(bt, q, bars, signals);
    SimulateNext(bt, bars, signals, 4);
    assert bars[4] == Squeeze(q)[4];
  }

  /** Without costs something is left after the first short, and lost more than once over by the second. */
  lemma SqueezeFigures(q: real)
    requires 2.0 < q <= 3.0 && Fee(q) > -1.0
    ensures var left := Compound(1.0, 1.0, TradeReturn(false, 1.0, First(q)));
            && Compound(left, 1.0, -PriceMove(1.0, Second(q))) < 0.0
            && Compound(left, 1.0, TradeReturn(false, 1.0, Second(q))) < 0.0
  {
    hide First;
    hide Second;
    SqueezePrices(q);
    FeeShare(q);
    var left := 2.0 - First(q);
    TimesPositive(left, Second(q) - 2.0);
    assert Compound(1.0, 1.0, TradeReturn(false, 1.0, First(q))) == left;
    assert Compound(left, 1.0, -PriceMove(1.0, Second(q))) == -Times(left, Second(q) - 2.0);
  }

  /** With costs the first short loses exactly everything, and nothing comes of nothing. */
  lemma SqueezeLosesAll(q: real, ret: real)
    requires 2.0 < q <= 3.0 && Fee(q) > -1.0
    ensures var sell, cover := Costed(Dear(q).costs, 1.0, Sell), Costed(Dear(q).costs, First(q), Buy);
            Compound(1.0, 1.0, TradeReturn(false, sell, cover)) == 0.0
    ensures Compound(0.0, 1.0, ret) == 0.0
  {
    hide Costed;
    hide First;
    FeeShare(q);
    SqueezeCosts(q, 1.0);
    SqueezeCosts(q, First(q));
    TimesOne(1.0 - Fee(q));
    AllLost(1.0 - Fee(q));
  }

  lemma AllLost(entry: real)
    requires 0.0 < entry
    ensures Compound(1.0, 1.0, TradeReturn(false, entry, 2.0 * entry)) == 0.0
  {
    assert (entry - 2.0 * entry) / entry == -1.0;
  }

  /** The dearer run comes out ahead: marked on the spike with a sixth bar, realised on it without. */
  lemma {:induction false} SqueezeOvertakes(q: real, bars: seq<Bar>, signals: seq<RawSignal>)
    requires 2.0 < q <= 3.0 && Fee(q) > -1.0
    requires 5 <= |bars| == |signals| && bars <= Squeeze(q) && signals <= SQUEEZE_SIGNALS
    ensures var free, dear := Simulate(FREE, bars, signals, 5), Simulate(Dear(q), bars, signals, 5);
            && (|bars| == 6 ==> free.marks[4] < dear.marks[4])
            && (|bars| == 5 ==> free.equities[4] < dear.equities[4])
  {
    hide Simulate;
    hide Costed;
    hide Compound;
    hide TradeReturn;
    hide PriceMove;
    hide First;
    hide Second;
    hide Squeeze;
    assert FREE.costs == None;
    FreePrice(1.0);
    FreePrice(First(q));
    FreePrice(Second(q));
    var sell := Costed(Dear(q).costs, 1.0, Sell);
    SqueezeTwice(FREE, q, bars, signals);
    SqueezeTwice(Dear(q), q, bars, signals);
    SqueezeEnds(FREE, q, bars, signals);
    SqueezeEnds(Dear(q), q, bars, signals);
    SqueezeFigures(q);
    SqueezeLosesAll(q, -PriceMove(sell, Second(q)));
    SqueezeLosesAll(q, TradeReturn(false, sell, Costed(Dear(q).costs, Second(q), Buy)));
  }

  // ---------- the exact bounds ----------

  ghost predicate EquityNeverOvertakes(limit: real) {
    forall c: Contest :: c.Fair(limit) ==> c.EquityTrails()
  }

  ghost predicate MarksNeverOvertake(limit: real) {
    forall c: Contest :: c.Fair(limit) ==> c.MarksTrail()
  }

  lemma GentlerIsGentle(limit: real, costs: Option<CostModel>, bars: seq<Bar>)
    requires Gentle(limit, costs, bars) && limit <= 2.0 && SaneModel(costs)
    requires forall i :: 0 <= i < |bars| ==> 0.0 < bars[i].close
    ensures Gentle(2.0, costs, bars)
  {
    hide Costed;
    forall i, j | 1 <= i <= j < |bars|
      ensures Costed(costs, bars[j].close, Buy) <= 2.0 * Costed(costs, bars[i].close, Sell)
    {
      CostedOrder(costs, costs, bars[i].close, Sell);
      TimesScales(limit, 2.0, Costed(costs, bars[i].close, Sell));
    }
  }

  lemma FairTrails(c: Contest, limit: real)
    requires c.Fair(limit) && limit <= 2.0
    ensures c.EquityTrails() && c.MarksTrail()
  {
    hide Simulate;
    hide Gentle;
    GentlerIsGentle(limit, c.dear.costs, c.bars);
    GentleRunTrails(c.cheap, c.dear, c.bars, c.signals, c.n);
  }

  /**
   * Over all strategies' signals, all fees and spreads, and all bars on which buying back never costs more than `limit`
   * times an earlier sale: higher costs never raise realised equity, at any bar, if and only if `limit` is at most 2.
   */
  lemma EquityBoundIsExact(limit: real)
    ensures EquityNeverOvertakes(limit) <==> limit <= 2.0
  {
    hide Comparable;
    hide Gentle;
    hide Squeeze;
    if limit <= 2.0 {
      forall c: Contest | c.Fair(limit)
        ensures c.EquityTrails()
      {
        FairTrails(c, limit);
      }
    } else {
      var q := Min(limit, 3.0);
      var bars, signals := Squeeze(q)[..5], SQUEEZE_SIGNALS[..5];
      SqueezeIsFair(q, limit, bars, signals);
      SqueezeOvertakes(q, bars, signals);
      assert !Contest(FREE, Dear(q), bars, signals, 5).EquityTrails();
    }
  }

  /** The same bound is exact for mark-to-market equity. */
  lemma MarksBoundIsExact(limit: real)
    ensures MarksNeverOvertake(limit) <==> limit <= 2.0
  {
    hide Comparable;
    hide Gentle;
    hide Squeeze;
    if limit <= 2.0 {
      forall c: Contest | c.Fair(limit)
        ensures c.MarksTrail()
      {
        FairTrails(c, limit);
      }
    } else {
      var q := Min(limit, 3.0);
      SqueezeIsFair(q, limit, Squeeze(q), SQUEEZE_SIGNALS);
      SqueezeOvertakes(q, Squeeze(q), SQUEEZE_SIGNALS);
      assert !Contest(FREE, Dear(q), Squeeze(q), SQUEEZE_SIGNALS, 5).MarksTrail();
    }
  }

  // ---------- without shorts ----------

  /** Signals that are never below 0 open no shorts. */
  lemma {:induction false} NoShorts(bt: Backtester, bars: seq<Bar>, signals: seq<RawSignal>, n: nat)
    requires Runs(bt, bars, signals, n) && NeverShort(signals)
    ensures var t := Simulate(bt, bars, signals, n);
            && !HoldsSide(t.book.position, false)
            && forall k :: 0 <= k < |t.trades| ==> t.trades[k].long
  {
    hide Costed;
    hide Mark;
    hide Normalize;
    hide Compound;
    hide TradeReturn;
    if n > 1 {
      NoShorts(bt, bars, signals, n - 1);
    }
  }

  /** On any prices, a strategy that is never short gains nothing from higher costs: no proviso is needed. */
  lemma {:induction false} LongRunTrails(
    cheap: Backtester, dear: Backtester, bars: seq<Bar>, signals: seq<RawSignal>, n: nat)
    requires Comparable(cheap, dear, bars) && Runs(cheap, bars, signals, n) && NeverShort(signals)
    ensures RunTrails(Simulate(dear, bars, signals, n), Simulate(cheap, bars, signals, n))
    ensures Contest(cheap, dear, bars, signals, n).MarksTrail()
  {
    hide Simulate;
    hide NeverShort;
    NoShorts(dear, bars, signals, n);
    DearerRunTrails(cheap, dear, bars, signals, n);
    forall i | 0 <= i < n
      ensures Simulate(dear, bars, signals, n).marks[i] <= Simulate(cheap, bars, signals, n).marks[i]
    {
      NoShorts(dear, bars, signals, i + 1);
      DearerMarksTrail(cheap, dear, bars, signals, n, i);
    }
  }
}
