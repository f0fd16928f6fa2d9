/**
 * The backtester's fast path, a strategy's one-pass signals, against the slow path, one strategy call per bar on
 * growing history: for latched strategies over causal rules the whole result is the same.
 */
module FastPath {
  import opened Market
  import opened Latch
  import opened Strategies
  import opened Backtest
  import opened BacktestRuns
  import EmaVwap

  lemma {:induction false} SimulateIgnoresStrategy(
    bt: Backtester, strategy: Strategy, bars: seq<Bar>, signals: seq<RawSignal>, n: nat)
    requires Runs(bt, bars, signals, n)
    ensures Simulate(bt.(strategy := strategy), bars, signals, n) == Simulate(bt, bars, signals, n)
  {
    hide Step;
    hide Mark;
    if n > 1 {
      SimulateIgnoresStrategy(bt, strategy, bars, signals, n - 1);
      StepIgnoresStrategy(bt, strategy, bars, n - 1, signals[n - 1], Simulate(bt, bars, signals, n - 1).book);
    }
  }

  lemma StepIgnoresStrategy(bt: Backtester, strategy: Strategy, bars: seq<Bar>, i: nat, raw: RawSignal, book: Book)
    requires i < |bars|
    ensures Step(bt.(strategy := strategy), bars, i, raw, book) == Step(bt, bars, i, raw, book)
  {
  }

  lemma {:induction false} CompletesIgnoresStrategy(
    bt: Backtester, strategy: Strategy, bars: seq<Bar>, signals: seq<RawSignal>, n: nat)
    requires Runs(bt, bars, signals, n)
    ensures Completes(bt.(strategy := strategy), bars, signals, n) == Completes(bt, bars, signals, n)
  {
    hide Simulate;
    SimulateIgnoresStrategy(bt, strategy, bars, signals, n);
    if n > 1 {
      CompletesIgnoresStrategy(bt, strategy, bars, signals, n - 1);
    }
  }

  lemma ReportIgnoresStrategy(bt: Backtester, strategy: Strategy, bars: seq<Bar>, t: Trace)
    requires t.equities != [] && bt.initialEquity != 0.0
    ensures Report(bt.(strategy := strategy), bars, t) == Report(bt, bars, t)
  {
  }

  ghost function SlowPath(bt: Backtester): Backtester {
    bt.(strategy := PerBarOnly(bt.strategy))
  }

  /** Every trade, equity figure and position is the same with and without the one-pass form, and so is any error. */
  ghost predicate PathsAgree(bt: Backtester, bars: seq<Bar>) {
    bt.Accepts(bars) && SlowPath(bt).Accepts(bars) && Outcome(bt, bars) == Outcome(SlowPath(bt), bars)
  }

  /** When a strategy's two forms agree on the bars, the two paths agree. */
  lemma FastPathIsSlowPath(bt: Backtester, bars: seq<Bar>)
    requires 0.0 < bt.initialEquity && FormsAgree(bt.strategy, bars)
    ensures PathsAgree(bt, bars)
  {
    hide Simulate;
    hide Completes;
    hide Report;
    var signals := SignalsOf(bt.strategy, bars);
    if |bars| >= 2 {
      SimulateIgnoresStrategy(bt, PerBarOnly(bt.strategy), bars, signals, |bars|);
      CompletesIgnoresStrategy(bt, PerBarOnly(bt.strategy), bars, signals, |bars|);
      ReportIgnoresStrategy(bt, PerBarOnly(bt.strategy), bars, Simulate(bt, bars, signals, |bars|));
    }
  }

  /** Any latched strategy over rules that are causal on the bars, whatever the costs and the risk manager. */
  lemma LatchedBacktest(bt: Backtester, rules: seq<Bar> -> Rules, warmup: int, bars: seq<Bar>)
    requires CausalOn(rules, warmup, bars)
    requires 0.0 < bt.initialEquity
    ensures PathsAgree(bt.(strategy := Latched(rules, warmup)), bars)
  {
    hide PathsAgree;
    hide Latched;
    hide FormsAgree;
    LatchedFormsAgree(rules, warmup, bars);
    FastPathIsSlowPath(bt.(strategy := Latched(rules, warmup)), bars);
  }

  lemma DonchianBacktest(bt: Backtester, entryWindow: nat, exitWindow: nat, allowShort: bool, bars: seq<Bar>)
    requires entryWindow > 0 && exitWindow > 0
    requires 0.0 < bt.initialEquity
    ensures PathsAgree(bt.(strategy := Donchian(entryWindow, exitWindow, allowShort)), bars)
  {
    hide PathsAgree;
    hide Donchian;
    hide FormsAgree;
    DonchianFormsAgree(entryWindow, exitWindow, allowShort, bars);
    FastPathIsSlowPath(bt.(strategy := Donchian(entryWindow, exitWindow, allowShort)), bars);
  }

  lemma KeltnerBacktest(bt: Backtester, window: nat, atrMultiplier: real, allowShort: bool, bars: seq<Bar>)
    requires window > 0
    requires 0.0 < bt.initialEquity
    ensures PathsAgree(bt.(strategy := Keltner(window, atrMultiplier, allowShort)), bars)
  {
    hide PathsAgree;
    hide Keltner;
    hide FormsAgree;
    KeltnerFormsAgree(window, atrMultiplier, allowShort, bars);
    FastPathIsSlowPath(bt.(strategy := Keltner(window, atrMultiplier, allowShort)), bars);
  }

  lemma EmaVwapBacktest(bt: Backtester, p: EmaVwap.Params, bars: seq<Bar>)
    requires p.emaWindow >= 1
    requires !p.sessionExit || p.emaWindow == 1 || EmaVwap.DayEndsSettled(EmaVwap.Epochs(bars), EmaVwap.Warmup(p))
    requires 0.0 < bt.initialEquity
    ensures PathsAgree(bt.(strategy := EmaVwap.EmaVwapStrategy(p)), bars)
  {
    hide PathsAgree;
    hide EmaVwap.EmaVwapStrategy;
    hide FormsAgree;
    EmaVwap.FormsAgreeWhen(p, bars);
    FastPathIsSlowPath(bt.(strategy := EmaVwap.EmaVwapStrategy(p)), bars);
  }
}
