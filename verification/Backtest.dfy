/**
 * The event-loop backtester, `src/backtest/simple_backtest.py`.
 *
 * `Step` and `Simulate` say what one bar and a whole run do, on a position that is either flat or open.
 * `Run` is the loop itself, over the separate variables and parallel lists the program keeps, and is proved
 * to report exactly what `Simulate` reaches.
 */
module Backtest {
  import opened Numbers
  import opened Costs
  import opened Market

  datatype RiskDecision = RiskDecision(allowEntry: bool, positionSize: real)

  /** A forced exit acts only through its reason: with none given the position stays open. */
  datatype ExitDecision = ExitDecision(forceExit: bool, reason: Option<string>)

  /**
   * The two questions the loop asks of its risk manager, answered arbitrarily:
   * admission from (history, equity, peak equity, bar index, signal side), exit from (history, long?, entry price, bars
   * held).
   */
  datatype RiskManager = RiskManager(
    evaluate: (seq<Bar>, real, real, nat, Option<Side>) -> RiskDecision,
    evaluateExit: (seq<Bar>, bool, real, nat) -> ExitDecision)

  datatype Backtester = Backtester(strategy: Strategy, initialEquity: real, costs: Option<CostModel>,
    risk: Option<RiskManager>) {

    /** What the constructor checks, and what the strategy's one-pass form must deliver. */
    ghost predicate Accepts(bars: seq<Bar>) {
      && 0.0 < initialEquity
      && |SignalsOf(strategy, bars)| == |bars|
    }
  }

  datatype TradeRecord = TradeRecord(
    timestamp: real, long: bool, entryPrice: real, exitPrice: real, size: real,
    returnPct: real, equityAfter: real, cost: real, reason: Option<string>)

  // ---------- one bar ----------

  datatype Position = Flat | Open(long: bool, entry: real, size: real, held: nat)

  datatype Book = Book(equity: real, peak: real, position: Position, block: Option<bool>)

  /**
   * After a risk stop on one side (`block`: was it long?), that side's signals count as 0 until the signal leaves it.
   */
  function GateReentry(signal: real, block: Option<bool>): (gated: (real, Option<bool>)) {
    match block
    case Some(true) => if signal <= 0.0 then (signal, None) else (0.0, block)
    case Some(false) => if signal >= 0.0 then (signal, None) else (0.0, block)
    case None => (signal, None)
  }

  function SideOf(signal: real): Option<Side> {
    if signal > 0.0 then Some(Buy) else if signal < 0.0 then Some(Sell) else None
  }

  function Admission(
    bt: Backtester, history: seq<Bar>, equity: real, peak: real, index: nat, raw: RawSignal): RiskDecision {
    match bt.risk
    case None => RiskDecision(true, 1.0)
    case Some(risk) =>
      risk.evaluate(history, equity, peak, index, if raw.Missing? then None else SideOf(Normalize(raw)))
  }

  function ForcedExit(bt: Backtester, history: seq<Bar>, long: bool, entry: real, held: nat): Option<string> {
    match bt.risk
    case None => None
    case Some(risk) =>
      var decision := risk.evaluateExit(history, long, entry, held);
      if decision.forceExit then decision.reason else None
  }

  /** The program divides by the entry price. Where that is 0 it raises (see `Markable`) and this 0 is never seen. */
  function PriceMove(entry: real, price: real): real {
    if entry == 0.0 then 0.0 else (price - entry) / entry
  }

  function TradeReturn(long: bool, entry: real, exit: real): real {
    if long then PriceMove(entry, exit) else if entry == 0.0 then 0.0 else (entry - exit) / entry
  }

  /** Equity after a share `size` of it has returned `ret`. */
  function Compound(equity: real, size: real, ret: real): real {
    equity * (1.0 + size * ret)
  }

  function ExitSide(long: bool): Side {
    if long then Sell else Buy
  }

  function Close(
    bt: Backtester, bar: Bar, equity: real, long: bool, entry: real, size: real, reason: Option<string>): TradeRecord {
    var exit := Costed(bt.costs, bar.close, ExitSide(long));
    var ret := TradeReturn(long, entry, exit);
    TradeRecord(bar.timestamp, long, entry, exit, size, ret, Compound(equity, size, ret),
                Abs(exit - bar.close) + Abs(entry - bar.close), reason)
  }

  function Step(bt: Backtester, bars: seq<Bar>, i: nat, raw: RawSignal, book: Book): (r: (Book, Option<TradeRecord>))
    requires i < |bars|
  {
    var (signal, block) := GateReentry(Normalize(raw), book.block);
    var bar, last := bars[i], i == |bars| - 1;
    match book.position
    case Open(long, entry, size, held) =>
      var forced := ForcedExit(bt, bars[..i + 1], long, entry, held + 1);
      if last || forced.Some? || (if long then signal <= 0.0 else signal >= 0.0) then
        var trade := Close(bt, bar, book.equity, long, entry, size, if last then None else forced);
        var blocked := if !last && forced.Some? then Some(long) else block;
        (Book(trade.equityAfter, Max(book.peak, trade.equityAfter), Flat, blocked), Some(trade))
      else
        (Book(book.equity, Max(book.peak, book.equity), Open(long, entry, size, held + 1), block), None)
    case Flat =>
      var decision := Admission(bt, bars[..i + 1], book.equity, book.peak, i, raw);
      var position :=
        if signal > 0.0 && decision.allowEntry then
          Open(true, Costed(bt.costs, bar.close, Buy), decision.positionSize, 0)
        else if signal < 0.0 && decision.allowEntry then
          Open(false, Costed(bt.costs, bar.close, Sell), decision.positionSize, 0)
        else Flat;
      (Book(book.equity, Max(book.peak, book.equity), position, block), None)
  }

  /** Equity with the open position valued at `close`. */
  function Mark(equity: real, position: Position, close: real): real {
    match position
    case Flat => equity
    case Open(long, entry, size, _) =>
      Compound(equity, size, if long then PriceMove(entry, close) else -PriceMove(entry, close))
  }

  function Exposure(position: Position): real {
    match position
    case Flat => 0.0
    case Open(long, _, size, _) => if long then size else -size
  }

  // ---------- a whole run ----------

  datatype Trace = Trace(book: Book, equities: seq<real>, marks: seq<real>, exposures: seq<real>,
    trades: seq<TradeRecord>)

  /** The run over the first `n` bars of `bars`. */
  function Simulate(bt: Backtester, bars: seq<Bar>, signals: seq<RawSignal>, n: nat): (t: Trace)
    requires 1 <= n <= |bars| == |signals|
    ensures |t.equities| == |t.marks| == |t.exposures| == n
  {
    if n == 1 then
      Trace(Book(bt.initialEquity, bt.initialEquity, Flat, None), [bt.initialEquity], [bt.initialEquity], [0.0], [])
    else
      Extend(Simulate(bt, bars, signals, n - 1),
        Step(bt, bars, n - 1, signals[n - 1], Simulate(bt, bars, signals, n - 1).book), bars[n - 1].close)
  }

  function Extend(t: Trace, step: (Book, Option<TradeRecord>), close: real): Trace {
    Trace(step.0, t.equities + [step.0.equity], t.marks + [Mark(step.0.equity, step.0.position, close)],
      t.exposures + [Exposure(step.0.position)],
          if step.1.Some? then t.trades + [step.1.value] else t.trades)
  }

  lemma SimulateFirst(bt: Backtester, bars: seq<Bar>, signals: seq<RawSignal>)
    requires 1 <= |bars| == |signals|
    ensures Simulate(bt, bars, signals, 1)
         == Trace(Book(bt.initialEquity, bt.initialEquity, Flat, None),
                  [bt.initialEquity], [bt.initialEquity], [0.0], [])
  {
  }

  lemma SimulateNext(bt: Backtester, bars: seq<Bar>, signals: seq<RawSignal>, n: nat)
    requires 1 <= n < |bars| == |signals|
    ensures var t := Simulate(bt, bars, signals, n);
            Simulate(bt, bars, signals, n + 1) == Extend(t, Step(bt, bars, n, signals[n], t.book), bars[n].close)
  {
  }

  /** Valuing an open position divides by its entry price, from the very bar that opened it. */
  predicate Markable(position: Position) {
    position.Open? ==> position.entry != 0.0
  }

  /** None of the first `n` bars divides by 0: nothing was opened at a booked price of 0. */
  ghost predicate Completes(bt: Backtester, bars: seq<Bar>, signals: seq<RawSignal>, n: nat)
    requires 1 <= n <= |bars| == |signals|
  {
    n == 1 || (Completes(bt, bars, signals, n - 1) && Markable(Simulate(bt, bars, signals, n).book.position))
  }

  lemma CompletesFirst(bt: Backtester, bars: seq<Bar>, signals: seq<RawSignal>)
    requires 1 <= |bars| == |signals|
    ensures Completes(bt, bars, signals, 1)
  {
  }

  lemma CompletesNext(bt: Backtester, bars: seq<Bar>, signals: seq<RawSignal>, n: nat)
    requires 1 <= n < |bars| == |signals|
    ensures Completes(bt, bars, signals, n + 1)
       <==> (&& Completes(bt, bars, signals, n)
             && Markable(Step(bt, bars, n, signals[n], Simulate(bt, bars, signals, n).book).0.position))
  {
    hide Step;
    SimulateNext(bt, bars, signals, n);
  }

  lemma {:induction false} CompletesEarlier(bt: Backtester, bars: seq<Bar>, signals: seq<RawSignal>, k: nat, n: nat)
    requires 1 <= k <= n <= |bars| == |signals| && Completes(bt, bars, signals, n)
    ensures Completes(bt, bars, signals, k)
  {
    if k < n {
      CompletesEarlier(bt, bars, signals, k, n - 1);
    }
  }

  function Drawdown(peak: real, value: real): real {
    if peak > 0.0 then (peak - value) / peak else 0.0
  }

  /** The deepest fall below `peak` in a non-empty series. */
  function DeepestBelow(peak: real, series: seq<real>): real
    requires series != []
  {
    var last := Drawdown(peak, series[|series| - 1]);
    if |series| == 1 then last else Max(DeepestBelow(peak, series[..|series| - 1]), last)
  }

  function Wins(trades: seq<TradeRecord>): nat {
    if trades == [] then 0 else Wins(trades[..|trades| - 1]) + if trades[|trades| - 1].returnPct > 0.0 then 1 else 0
  }

  function ExitPrices(trades: seq<TradeRecord>): seq<real> {
    seq(|trades|, i requires 0 <= i < |trades| => trades[i].exitPrice)
  }

  function ExitTimes(trades: seq<TradeRecord>): seq<real> {
    seq(|trades|, i requires 0 <= i < |trades| => trades[i].timestamp)
  }

  function Returns(trades: seq<TradeRecord>): seq<real> {
    seq(|trades|, i requires 0 <= i < |trades| => trades[i].returnPct)
  }

  function Sizes(trades: seq<TradeRecord>): seq<real> {
    seq(|trades|, i requires 0 <= i < |trades| => trades[i].size)
  }

  function TradeCosts(trades: seq<TradeRecord>): seq<real> {
    seq(|trades|, i requires 0 <= i < |trades| => trades[i].cost)
  }

  datatype BacktestResult = BacktestResult(
    totalReturn: real, winRate: real, maxDrawdown: real, trades: nat, finalEquity: real,
    equitySeries: seq<real>, timestamps: seq<real>,
    tradePrices: seq<real>, tradeTimestamps: seq<real>, tradeReturns: seq<real>, tradeSizes: seq<real>,
    tradeRecords: seq<TradeRecord>, tradeCosts: seq<real>,
    mtmEquitySeries: seq<real>, positionSeries: seq<real>)

  function Report(bt: Backtester, bars: seq<Bar>, t: Trace): BacktestResult
    requires t.equities != [] && bt.initialEquity != 0.0
  {
    BacktestResult(
      t.book.equity / bt.initialEquity - 1.0,
      if t.trades == [] then 0.0 else Wins(t.trades) as real / |t.trades| as real,
      DeepestBelow(t.book.peak, t.equities), |t.trades|, t.book.equity,
      t.equities, Timestamps(bars, |bars|),
      ExitPrices(t.trades), ExitTimes(t.trades), Returns(t.trades), Sizes(t.trades), t.trades, TradeCosts(t.trades),
      t.marks, t.exposures)
  }

  /** What a run ends in: an error, or the report on the bars' abstract run. */
  ghost function Outcome(bt: Backtester, bars: seq<Bar>): Result<BacktestResult>
    requires bt.Accepts(bars)
  {
    var signals := SignalsOf(bt.strategy, bars);
    if |bars| < 2 then Err("At least two bars are required")
    else if !Completes(bt, bars, signals, |bars|) then Err("float division by zero")
    else Ok(Report(bt, bars, Simulate(bt, bars, signals, |bars|)))
  }

  function Timestamps(bars: seq<Bar>, n: nat): seq<real>
    requires n <= |bars|
  {
    seq(n, i requires 0 <= i < n => bars[i].timestamp)
  }

  // ---------- the loop ----------

  /** The variables and parallel lists the loop carries from bar to bar. */
  class Session {
    var equity: real
    var peakEquity: real
    var currentPosition: real
    var entryPrice: Option<real>
    var entrySize: real
    var barsHeld: nat
    var reentryBlock: Option<bool>

    var equitySeries: seq<real>
    var mtmEquitySeries: seq<real>
    var positionSeries: seq<real>
    var timestamps: seq<real>

    var tradeCount: nat
    var wins: nat
    var tradePrices: seq<real>
    var tradeTimestamps: seq<real>
    var tradeReturns: seq<real>
    var tradeSizes: seq<real>
    var tradeRecords: seq<TradeRecord>
    var tradeCosts: seq<real>

    ghost predicate Valid()
      reads this
    {
      && (currentPosition == 0.0 || currentPosition == 1.0 || currentPosition == -1.0)
      && (currentPosition != 0.0 ==> entryPrice.Some?)
    }

    /** The parallel lists hold, field by field, what the trade records hold. */
    ghost predicate ListsAgree()
      reads this
    {
      && tradeCount == |tradeRecords| && wins == Wins(tradeRecords)
      && tradePrices == ExitPrices(tradeRecords) && tradeTimestamps == ExitTimes(tradeRecords)
      && tradeReturns == Returns(tradeRecords) && tradeSizes == Sizes(tradeRecords)
      && tradeCosts == TradeCosts(tradeRecords)
    }

    /** The separate position variables, read as one value. */
    ghost function Held(): Position
      requires Valid()
      reads this
    {
      if currentPosition == 0.0 then Flat else Open(currentPosition > 0.0, entryPrice.value, entrySize, barsHeld)
    }

    ghost function Account(): Book
      requires Valid()
      reads this
    {
      Book(equity, peakEquity, Held(), reentryBlock)
    }

    ghost function View(): Trace
      requires Valid()
      reads this
    {
      Trace(Account(), equitySeries, mtmEquitySeries, positionSeries, tradeRecords)
    }

    constructor (initialEquity: real, firstTimestamp: real)
      ensures Valid() && ListsAgree()
      ensures View()
          == Trace(Book(initialEquity, initialEquity, Flat, None), [initialEquity], [initialEquity], [0.0], [])
      ensures timestamps == [firstTimestamp]
    {
      equity, peakEquity := initialEquity, initialEquity;
      equitySeries, mtmEquitySeries, positionSeries := [initialEquity], [initialEquity], [0.0];
      timestamps := [firstTimestamp];
      entryPrice, currentPosition, entrySize, barsHeld, reentryBlock := None, 0.0, 1.0, 0, None;
      tradeCount, wins, tradeRecords := 0, 0, [];
      tradePrices, tradeTimestamps, tradeReturns, tradeSizes, tradeCosts := [], [], [], [], [];
    }

    /** Gate, forced exit, entry or exit at the close of one bar; a closed trade is handed back. */
    method Decide(
      bt: Backtester, bars: seq<Bar>, index: nat, signalValue: RawSignal) returns (record: Option<TradeRecord>)
      requires Valid() && index < |bars|
      modifies this`equity, this`peakEquity, this`currentPosition, this`entryPrice, this`entrySize, this`barsHeld,
        this`reentryBlock
      ensures Valid()
      ensures (Account(), record) == Step(bt, bars, index, signalValue, old(Account()))
    {
      record := None;
      var history, closePrice := bars[..index + 1], bars[index].close;
      var gated := GateReentry(Normalize(signalValue), reentryBlock);
      var signal := gated.0;
      reentryBlock := gated.1;
      barsHeld := if currentPosition != 0.0 then barsHeld + 1 else 0;

      var forcedExitReason: Option<string> := None;
      if bt.risk.Some? && currentPosition != 0.0 && entryPrice.Some? {
        var decision := bt.risk.value.evaluateExit(history, currentPosition > 0.0, entryPrice.value, barsHeld);
        if decision.forceExit {
          forcedExitReason := decision.reason;
        }
      }

      if index == |bars| - 1 && currentPosition != 0.0 {
        record := ClosePosition(bt, bars[index], None);
      } else if forcedExitReason.Some? {
        reentryBlock := Some(currentPosition > 0.0);
        record := ClosePosition(bt, bars[index], forcedExitReason);
        barsHeld := 0;
      } else if currentPosition == 0.0 {
        var decision := Admission(bt, history, equity, peakEquity, index, signalValue);
        if signal > 0.0 && decision.allowEntry {
          currentPosition, entryPrice, entrySize := 1.0, Some(Costed(bt.costs, closePrice, Buy)), decision.positionSize;
        } else if signal < 0.0 && decision.allowEntry {
          currentPosition, entryPrice := -1.0, Some(Costed(bt.costs, closePrice, Sell));
          entrySize := decision.positionSize;
        } else {
          entryPrice, entrySize := None, 1.0;
        }
      } else if currentPosition > 0.0 && signal <= 0.0 {
        record := ClosePosition(bt, bars[index], None);
      } else if currentPosition < 0.0 && signal >= 0.0 {
        record := ClosePosition(bt, bars[index], None);
      }
      peakEquity := Max(peakEquity, equity);
    }

    method ClosePosition(bt: Backtester, bar: Bar, reason: Option<string>) returns (record: Option<TradeRecord>)
      requires Valid() && currentPosition != 0.0
      modifies this`equity, this`currentPosition, this`entryPrice
      ensures Valid() && currentPosition == 0.0
      ensures record
          == Some(Close(bt, bar, old(equity), old(currentPosition) > 0.0, old(entryPrice.value), entrySize, reason))
      ensures equity == record.value.equityAfter
    {
      var long := currentPosition > 0.0;
      var exitPrice := Costed(bt.costs, bar.close, if long then Sell else Buy);
      var returnPct := TradeReturn(long, entryPrice.value, exitPrice);
      equity := Compound(equity, entrySize, returnPct);
      record := Some(TradeRecord(bar.timestamp, long, entryPrice.value, exitPrice, entrySize, returnPct, equity,
                                 Abs(exitPrice - bar.close) + Abs(entryPrice.value - bar.close), reason));
      currentPosition, entryPrice := 0.0, None;
    }

    method Record(trade: TradeRecord)
      requires ListsAgree()
      modifies this`tradeCount, this`wins, this`tradePrices, this`tradeTimestamps, this`tradeReturns, this`tradeSizes,
        this`tradeRecords, this`tradeCosts
      ensures ListsAgree() && tradeRecords == old(tradeRecords) + [trade]
    {
      assert (tradeRecords + [trade])[..|tradeRecords|] == tradeRecords;
      tradeCount := tradeCount + 1;
      if trade.returnPct > 0.0 {
        wins := wins + 1;
      }
      tradePrices := tradePrices + [trade.exitPrice];
      tradeTimestamps := tradeTimestamps + [trade.timestamp];
      tradeReturns := tradeReturns + [trade.returnPct];
      tradeSizes := tradeSizes + [trade.size];
      tradeCosts := tradeCosts + [trade.cost];
      tradeRecords := tradeRecords + [trade];
    }

    /** Fails, as the division does, when the open position was entered at a price of 0. */
    method MarkToMarket(bar: Bar) returns (ok: bool)
      requires Valid()
      modifies this`equitySeries, this`mtmEquitySeries, this`positionSeries, this`timestamps
      ensures ok <==> Markable(Held())
      ensures equitySeries == old(equitySeries) + [equity]
      ensures ok ==> mtmEquitySeries == old(mtmEquitySeries) + [Mark(equity, Held(), bar.close)]
      ensures ok ==> positionSeries == old(positionSeries) + [Exposure(Held())]
      ensures ok ==> timestamps == old(timestamps) + [bar.timestamp]
    {
      equitySeries := equitySeries + [equity];
      if currentPosition != 0.0 && entryPrice.Some? {
        if entryPrice.value == 0.0 {
          return false;
        }
        var priceMove := PriceMove(entryPrice.value, bar.close);
        var unrealizedPct := if currentPosition > 0.0 then priceMove else -priceMove;
        mtmEquitySeries := mtmEquitySeries + [Compound(equity, entrySize, unrealizedPct)];
        var exposure := currentPosition * entrySize;
        assert exposure == if currentPosition > 0.0 then entrySize else -entrySize;
        positionSeries := positionSeries + [exposure];
      } else {
        mtmEquitySeries := mtmEquitySeries + [equity];
        positionSeries := positionSeries + [0.0];
      }
      timestamps := timestamps + [bar.timestamp];
      ok := true;
    }

    method Advance(bt: Backtester, bars: seq<Bar>, index: nat, signalValue: RawSignal) returns (ok: bool)
      requires Valid() && ListsAgree() && index < |bars|
      modifies this
      ensures Valid() && ListsAgree()
      ensures ok <==> Markable(Step(bt, bars, index, signalValue, old(Account())).0.position)
      ensures ok
          ==> View() == Extend(old(View()), Step(bt, bars, index, signalValue, old(Account())), bars[index].close)
      ensures ok ==> timestamps == old(timestamps) + [bars[index].timestamp]
    {
      hide Step;
      hide Mark;
      hide Exposure;
      hide Markable;
      hide Wins;
      hide ExitPrices;
      hide ExitTimes;
      hide Returns;
      hide Sizes;
      hide TradeCosts;
      var record := Decide(bt, bars, index, signalValue);
      if record.Some? {
        Record(record.value);
      }
      ok := MarkToMarket(bars[index]);
    }
  }

  /** One bar's signal: from the one-pass form when there is one, else from the strategy on the history so far. */
  method SignalAt(
    strategy: Strategy, precomputed: Option<seq<RawSignal>>, bars: seq<Bar>, index: nat) returns (signal: RawSignal)
    requires index < |bars| == |SignalsOf(strategy, bars)|
    requires precomputed == if strategy.signalSeries.Some? then Some(strategy.signalSeries.value(bars)) else None
    ensures signal == SignalsOf(strategy, bars)[index]
  {
    signal := if precomputed.Some? then precomputed.value[index] else strategy.perBar(bars[..index + 1]);
  }

  /** The whole loop; not `ok` when a bar divided by 0. */
  method RunBars(bt: Backtester, bars: seq<Bar>) returns (ok: bool, session: Session)
    requires bt.Accepts(bars) && |bars| >= 2
    ensures ok <==> Completes(bt, bars, SignalsOf(bt.strategy, bars), |bars|)
    ensures ok ==> session.Valid() && session.ListsAgree()
    ensures ok ==> session.View() == Simulate(bt, bars, SignalsOf(bt.strategy, bars), |bars|)
    ensures ok ==> session.timestamps == Timestamps(bars, |bars|)
  {
    hide Costed;
    hide SignalsOf;
    hide Simulate;
    hide Step;
    hide Extend;
    hide Markable;
    hide Completes;
    session := new Session(bt.initialEquity, bars[0].timestamp);
    var precomputed := if bt.strategy.signalSeries.Some? then Some(bt.strategy.signalSeries.value(bars)) else None;
    ghost var signals := SignalsOf(bt.strategy, bars);
    SimulateFirst(bt, bars, signals);
    CompletesFirst(bt, bars, signals);
    for index := 1 to |bars|
      invariant session.Valid() && session.ListsAgree()
      invariant Completes(bt, bars, signals, index)
      invariant session.View() == Simulate(bt, bars, signals, index)
      invariant session.timestamps == Timestamps(bars, index)
    {
      SimulateNext(bt, bars, signals, index);
      CompletesNext(bt, bars, signals, index);
      var signalValue := SignalAt(bt.strategy, precomputed, bars, index);
      var done := session.Advance(bt, bars, index, signalValue);
      if !done {
        if Completes(bt, bars, signals, |bars|) {
          CompletesEarlier(bt, bars, signals, index + 1, |bars|);
        }
        return false, session;
      }
    }
    ok := true;
  }

  method Run(bt: Backtester, bars: seq<Bar>) returns (r: Result<BacktestResult>)
    requires bt.Accepts(bars)
    ensures r == Outcome(bt, bars)
  {
    if |bars| < 2 {
      return Err("At least two bars are required");
    }
    var ok, session := RunBars(bt, bars);
    if !ok {
      return Err("float division by zero");
    }
    r := Summarize(bt, bars, session);
  }

  /** The result object, from the final state of the loop. */
  method Summarize(bt: Backtester, ghost bars: seq<Bar>, session: Session) returns (r: Result<BacktestResult>)
    requires session.Valid() && session.ListsAgree() && session.timestamps == Timestamps(bars, |bars|)
    requires session.equitySeries != [] && bt.initialEquity != 0.0
    ensures r == Ok(Report(bt, bars, session.View()))
  {
    var drawdown := MaxDrawdown(session.peakEquity, session.equitySeries);
    r := Ok(BacktestResult(
              session.equity / bt.initialEquity - 1.0,
              if session.tradeCount > 0 then session.wins as real / session.tradeCount as real else 0.0,
              drawdown, session.tradeCount, session.equity, session.equitySeries, session.timestamps,
              session.tradePrices, session.tradeTimestamps, session.tradeReturns, session.tradeSizes,
              session.tradeRecords, session.tradeCosts, session.mtmEquitySeries, session.positionSeries));
  }

  method MaxDrawdown(peak: real, series: seq<real>) returns (deepest: real)
    requires series != []
    ensures deepest == DeepestBelow(peak, series)
  {
    deepest := Drawdown(peak, series[0]);
    assert series[..1] == [series[0]];
    for i := 1 to |series|
      invariant deepest == DeepestBelow(peak, series[..i])
    {
      assert series[..i + 1][..i] == series[..i];
      deepest := Max(deepest, Drawdown(peak, series[i]));
    }
    assert series[..|series|] == series;
  }
}
