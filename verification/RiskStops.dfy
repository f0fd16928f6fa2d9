/**
 * When a run enters, stops and exits, in terms of what its risk manager answers: the manager's own questions and
 * answers, the bars, and the state of the run before and after a bar.
 */
module RiskStops {
  import opened Numbers
  import opened Costs
  import opened Market
  import opened Backtest
  import opened BacktestRuns

  /** The state of the run after bar `i`. */
  ghost function After(bt: Backtester, bars: seq<Bar>, signals: seq<RawSignal>, i: nat): Book
    requires i < |bars| == |signals|
  {
    Simulate(bt, bars, signals, i + 1).book
  }

  /** The bar that opened the position held after bar `i`: the first of the unbroken stretch of bars that hold one. */
  ghost function EntryBar(bt: Backtester, bars: seq<Bar>, signals: seq<RawSignal>, i: nat): (e: nat)
    requires i < |bars| == |signals|
    ensures e <= i
  {
    if i == 0 || After(bt, bars, signals, i - 1).position == Flat then i else EntryBar(bt, bars, signals, i - 1)
  }

  /** The risk manager, asked on bar `i` about a position held since bar `e`, forces it closed and says why. */
  ghost predicate Forces(bt: Backtester, bars: seq<Bar>, i: nat, long: bool, entry: real, e: nat)
    requires e <= i < |bars|
  {
    && bt.risk.Some?
    && var answer := bt.risk.value.evaluateExit(bars[..i + 1], long, entry, i - e);
       answer.forceExit && answer.reason.Some?
  }

  /** The reason it gives when the exit is forced, and none otherwise. */
  ghost function GivenIf(
    forced: bool, bt: Backtester, bars: seq<Bar>, i: nat, position: Position, e: nat): Option<string>
    requires e <= i < |bars| && position.Open?
    requires forced ==> Forces(bt, bars, i, position.long, position.entry, e)
  {
    if forced then bt.risk.value.evaluateExit(bars[..i + 1], position.long, position.entry, i - e).reason else None
  }

  // ---------- one bar ----------

  lemma HeldBar(bt: Backtester, bars: seq<Bar>, i: nat, raw: RawSignal, book: Book)
    requires i < |bars|
    requires book.position.Open? ==> book.block == None
    ensures var after := Step(bt, bars, i, raw, book).0;
            after.position.Open? ==>
              && after.block == None
              && match book.position
                 case Flat =>
                   && after.position.held == 0
                   && after.position.entry == Costed(bt.costs, bars[i].close, if after.position.long then Buy else Sell)
                 case Open(long, entry, size, held) => after.position == Open(long, entry, size, held + 1)
  {
    hide Costed;
    hide Compound;
    hide TradeReturn;
    hide Normalize;
    hide Admission;
    hide ForcedExit;
  }

  /**
   * A position held after bar `i` is still the one its entry bar opened, at that bar's costed close, and has been held
   * for the bars since.
   */
  lemma {:induction false} HeldSinceEntry(bt: Backtester, bars: seq<Bar>, signals: seq<RawSignal>, i: nat)
    requires Runs(bt, bars, signals, |bars|) && i < |bars|
    requires After(bt, bars, signals, i).position.Open?
    ensures var e := EntryBar(bt, bars, signals, i);
            var now, opened' := After(bt, bars, signals, i), After(bt, bars, signals, e).position;
            && 1 <= e && opened'.Open? && now.block == None
            && now.position == Open(opened'.long, opened'.entry, opened'.size, i - e)
            && opened'.entry == Costed(bt.costs, bars[e].close, if opened'.long then Buy else Sell)
  {
    hide Step;
    hide Mark;
    hide Costed;
    if i > 0 {
      if After(bt, bars, signals, i - 1).position.Open? {
        HeldSinceEntry(bt, bars, signals, i - 1);
      }
      HeldBar(bt, bars, i, signals[i], After(bt, bars, signals, i - 1));
    }
  }

  /** What a bar adds to the trade log. */
  ghost function NewTrades(bt: Backtester, bars: seq<Bar>, signals: seq<RawSignal>, i: nat): seq<TradeRecord>
    requires 1 <= i < |bars| == |signals|
  {
    var before, after := Simulate(bt, bars, signals, i).trades, Simulate(bt, bars, signals, i + 1).trades;
    if |before| <= |after| then after[|before|..] else []
  }

  lemma NewTradesOfStep(bt: Backtester, bars: seq<Bar>, signals: seq<RawSignal>, i: nat)
    requires 1 <= i < |bars| == |signals|
    ensures var trade := Step(bt, bars, i, signals[i], Simulate(bt, bars, signals, i).book).1;
            NewTrades(bt, bars, signals, i) == if trade.Some? then [trade.value] else []
  {
    hide Step;
    hide Mark;
    SimulateNext(bt, bars, signals, i);
  }

  /** The one trade of a bar closes the position at that bar's costed close. */
  ghost predicate Closes(bt: Backtester, bar: Bar, position: Position, trade: TradeRecord)
    requires position.Open?
  {
    && trade.timestamp == bar.timestamp && trade.long == position.long
    && trade.entryPrice == position.entry && trade.size == position.size
    && trade.exitPrice == Costed(bt.costs, bar.close, if position.long then Sell else Buy)
  }

  ghost predicate Leaves(signal: real, long: bool) {
    if long then signal <= 0.0 else signal >= 0.0
  }

  lemma StopStep(bt: Backtester, bars: seq<Bar>, i: nat, raw: RawSignal, book: Book, e: nat)
    requires e < i < |bars| && book.position.Open? && book.block == None && book.position.held == i - 1 - e
    ensures var position := book.position;
            var (after, trade) := Step(bt, bars, i, raw, book);
            var forced := i < |bars| - 1 && Forces(bt, bars, i, position.long, position.entry, e);
            && (trade.Some? <==> i == |bars| - 1 || forced || Leaves(Normalize(raw), position.long))
            && (trade.None? ==> after.position.Open?)
            && (trade.Some? ==> after.position == Flat && Closes(bt, bars[i], position, trade.value))
            && (trade.Some? ==> trade.value.reason == GivenIf(forced, bt, bars, i, position, e))
            && after.block == if forced then Some(position.long) else None
  {
    hide Costed;
    hide Compound;
    hide TradeReturn;
    hide Normalize;
    assert book.position.held + 1 == i - e;
  }

  // ---------- exits over runs ----------

  /**
   * A held position is closed on bar `i` exactly when the bar is the last, when the risk manager, asked about the
   * position on the bars so far and the bars since its entry, forces it, or when the signal leaves its side. A forced
   * exit before the last bar, and nothing else, gives the trade its reason and blocks the side.
   */
  lemma {:induction false} ExitsExactlyWhen(bt: Backtester, bars: seq<Bar>, signals: seq<RawSignal>, i: nat)
    requires Runs(bt, bars, signals, |bars|) && 1 <= i < |bars|
    requires After(bt, bars, signals, i - 1).position.Open?
    ensures var held, e := After(bt, bars, signals, i - 1).position, EntryBar(bt, bars, signals, i - 1);
            var after, trades := After(bt, bars, signals, i), NewTrades(bt, bars, signals, i);
            var forced := i < |bars| - 1 && Forces(bt, bars, i, held.long, held.entry, e);
            && (trades == [] || |trades| == 1)
            && (trades != [] <==> i == |bars| - 1 || forced || Leaves(Normalize(signals[i]), held.long))
            && (trades == [] ==> after.position.Open?)
            && (trades != [] ==> after.position == Flat && Closes(bt, bars[i], held, trades[0]))
            && (trades != [] ==> trades[0].reason == GivenIf(forced, bt, bars, i, held, e))
            && after.block == if forced then Some(held.long) else None
  {
    hide Simulate;
    hide Step;
    hide Costed;
    hide Closes;
    hide Normalize;
    HeldSinceEntry(bt, bars, signals, i - 1);
    NewTradesOfStep(bt, bars, signals, i);
    SimulateNext(bt, bars, signals, i);
    StopStep(bt, bars, i, signals[i], After(bt, bars, signals, i - 1), EntryBar(bt, bars, signals, i - 1));
  }

  /** So a side counts as stopped on exactly the bars before the last on which the risk manager forces its exit. */
  lemma {:induction false} StoppedExactlyWhen(
    bt: Backtester, bars: seq<Bar>, signals: seq<RawSignal>, i: nat, long: bool)
    requires Runs(bt, bars, signals, |bars|) && 1 <= i < |bars|
    ensures var held := After(bt, bars, signals, i - 1).position;
            Stopped(bt, bars, signals, i, long)
            <==> (&& held.Open? && held.long == long && i < |bars| - 1
                  && Forces(bt, bars, i, long, held.entry, EntryBar(bt, bars, signals, i - 1)))
  {
    hide Simulate;
    hide Costed;
    hide Normalize;
    hide Step;
    var book := After(bt, bars, signals, i - 1);
    if book.position.Open? {
      HeldSinceEntry(bt, bars, signals, i - 1);
      StopStep(bt, bars, i, signals[i], book, EntryBar(bt, bars, signals, i - 1));
    } else {
      FlatStep(bt, bars, i, signals[i], book);
    }
  }

  // ---------- entries over runs ----------

  /** The side of a signal, as the risk manager is told it; a missing signal has none. */
  ghost predicate IsSideOf(side: Option<Side>, raw: RawSignal) {
    match side
    case None => Normalize(raw) == 0.0
    case Some(Buy) => Normalize(raw) > 0.0
    case Some(Sell) => Normalize(raw) < 0.0
  }

  /** Without a risk manager every entry is admitted at size 1; with one, its answer for the signal's side counts. */
  ghost predicate Admitted(bt: Backtester, bars: seq<Bar>, i: nat, raw: RawSignal, book: Book, size: real)
    requires i < |bars|
  {
    match bt.risk
    case None => size == 1.0
    case Some(risk) =>
      forall side :: IsSideOf(side, raw) ==>
        risk.evaluate(bars[..i + 1], book.equity, book.peak, i, side) == RiskDecision(true, size)
  }

  lemma AdmittedExactlyWhen(bt: Backtester, bars: seq<Bar>, i: nat, raw: RawSignal, book: Book, size: real)
    requires i < |bars|
    ensures Admitted(bt, bars, i, raw, book, size)
       <==> Admission(bt, bars[..i + 1], book.equity, book.peak, i, raw) == RiskDecision(true, size)
  {
    hide Normalize;
    var side := if Normalize(raw) > 0.0 then Some(Buy) else if Normalize(raw) < 0.0 then Some(Sell) else None;
    assert IsSideOf(side, raw);
    assert raw.Missing? ==> Normalize(raw) == 0.0 by {
      MissingIsZero();
    }
  }

  lemma MissingIsZero()
    ensures Normalize(Missing) == 0.0
  {
  }

  lemma FlatStep(bt: Backtester, bars: seq<Bar>, i: nat, raw: RawSignal, book: Book)
    requires i < |bars| && book.position == Flat
    ensures var (after, trade) := Step(bt, bars, i, raw, book);
            && trade == None && after.equity == book.equity
            && (after.position.Open? ==>
                 && Admitted(bt, bars, i, raw, book, after.position.size)
                 && OnSide(raw, after.position.long) && book.block != Some(after.position.long)
                 && after.position.entry == Costed(bt.costs, bars[i].close, if after.position.long then Buy else Sell))
            && forall long, size ::
                 Admitted(bt, bars, i, raw, book, size) && OnSide(raw, long) && book.block != Some(long)
                 ==> after.position.Open? && after.position.long == long
  {
    hide Costed;
    hide Normalize;
    hide Admitted;
    hide Admission;
    forall size
      ensures Admitted(bt, bars, i, raw, book, size)
         <==> Admission(bt, bars[..i + 1], book.equity, book.peak, i, raw) == RiskDecision(true, size)
    {
      AdmittedExactlyWhen(bt, bars, i, raw, book, size);
    }
  }

  /**
   * A flat book opens a position on bar `i` exactly when the signal is on a side that is not blocked and the risk
   * manager, asked about that side on the bars so far with the run's equity and its peak, admits it, at the size it
   * answers and at that bar's costed close.
   */
  lemma {:induction false} EntersExactlyWhen(bt: Backtester, bars: seq<Bar>, signals: seq<RawSignal>, i: nat)
    requires Runs(bt, bars, signals, |bars|) && 1 <= i < |bars|
    requires After(bt, bars, signals, i - 1).position == Flat
    ensures var before, after := After(bt, bars, signals, i - 1), After(bt, bars, signals, i);
            && NewTrades(bt, bars, signals, i) == []
            && (after.position.Open? ==>
                 && Admitted(bt, bars, i, signals[i], before, after.position.size)
                 && OnSide(signals[i], after.position.long) && before.block != Some(after.position.long)
                 && after.position.entry == Costed(bt.costs, bars[i].close, if after.position.long then Buy else Sell))
            && forall long, size ::
                 Admitted(bt, bars, i, signals[i], before, size) && OnSide(signals[i], long)
                 && before.block != Some(long)
                 ==> after.position.Open? && after.position.long == long
  {
    hide Simulate;
    hide Step;
    hide Costed;
    hide Normalize;
    hide Admitted;
    NewTradesOfStep(bt, bars, signals, i);
    SimulateNext(bt, bars, signals, i);
    FlatStep(bt, bars, i, signals[i], After(bt, bars, signals, i - 1));
  }
}
