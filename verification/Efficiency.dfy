/**
 * Kaufman's efficiency ratio and the regime gate built on it: `src/signals/regime.py` computes it directly from
 * the last closes, `_efficiency_ratio_series` and `make_regime_gated` in `src/backtest/strategies.py` for all bars
 * at once from one running sum.
 */
module Efficiency {
  import opened Numbers
  import opened Market
  import opened Indicators
  import opened Strategies
  import opened VolumeWeighted

  datatype Regime = Trending | Ranging

  function Move(from: real, to: real): real {
    Abs(to - from)
  }

  function AbsoluteMoves(closes: seq<real>): (r: seq<real>)
    ensures |r| == if |closes| == 0 then 0 else |closes| - 1
  {
    if |closes| == 0 then [] else seq(|closes| - 1, i requires 0 <= i < |closes| - 1 => Move(closes[i], closes[i + 1]))
  }

  function NetOverPath(net: real, path: real): real {
    if path > 0.0 then net / path else 0.0
  }

  /** The ratio of one stretch of closes. */
  function EfficiencyRatio(closes: seq<real>): real {
    if |closes| < 2 then 0.0
    else NetOverPath(Move(closes[0], closes[|closes| - 1]), Sum(AbsoluteMoves(closes)))
  }

  /** The ratio at every bar over the last `window` closes, fewer at the start. */
  function EfficiencySeries(close: seq<real>, window: nat): (r: seq<real>)
    requires window > 0
    ensures |r| == |close|
  {
    var moves := [0.0] + RunningSum(AbsoluteMoves(close));
    seq(|close|, i requires 0 <= i < |close| =>
      var start := WindowStart(i, window);
      if i == 0 then 0.0 else NetOverPath(Move(close[start], close[i]), moves[i] - moves[start]))
  }

  lemma MoveAt(closes: seq<real>, k: nat)
    requires k + 1 < |closes|
    ensures AbsoluteMoves(closes)[k] == Move(closes[k], closes[k + 1])
  {
  }

  lemma MovesOfSlice(close: seq<real>, lo: nat, hi: nat)
    requires lo < hi <= |close|
    ensures AbsoluteMoves(close[lo..hi]) == AbsoluteMoves(close)[lo..hi - 1]
  {
    hide Move;
    hide AbsoluteMoves;
    var slice := close[lo..hi];
    forall k | 0 <= k < hi - 1 - lo
      ensures AbsoluteMoves(slice)[k] == AbsoluteMoves(close)[lo + k]
    {
      MoveAt(slice, k);
      MoveAt(close, lo + k);
    }
  }

  lemma RunningMoves(close: seq<real>, i: nat)
    requires i < |close|
    ensures ([0.0] + RunningSum(AbsoluteMoves(close)))[i] == Sum(AbsoluteMoves(close)[..i])
  {
    hide RunningSum;
    hide Sum;
    if i > 0 {
      RunningSumAt(AbsoluteMoves(close), i - 1);
    } else {
      SumEmpty();
      assert AbsoluteMoves(close)[..0] == [];
    }
  }

  /** The vectorised ratio at each bar is the direct ratio of the last `window` closes. */
  lemma SeriesIsDirectRatio(close: seq<real>, window: nat, i: nat)
    requires window > 0 && i < |close|
    ensures EfficiencySeries(close, window)[i] == EfficiencyRatio(close[WindowStart(i, window)..i + 1])
  {
    hide Sum;
    hide RunningSum;
    hide AbsoluteMoves;
    hide Move;
    hide NetOverPath;
    var start, moves := WindowStart(i, window), AbsoluteMoves(close);
    RunningMoves(close, i);
    RunningMoves(close, start);
    SumOfSlice(moves, start, i);
    MovesOfSlice(close, start, i + 1);
    assert moves[start..i] == AbsoluteMoves(close[start..i + 1]);
    if start == i {
      SumEmpty();
      NoPath(close[i]);
      assert moves[i..i] == [];
    }
  }

  lemma NoPath(close: real)
    ensures NetOverPath(Move(close, close), 0.0) == 0.0
  {
  }

  lemma {:induction false} TriangleInequality(closes: seq<real>)
    requires closes != []
    ensures Move(closes[0], closes[|closes| - 1]) <= Sum(AbsoluteMoves(closes))
  {
    hide Move;
    hide Sum;
    hide AbsoluteMoves;
    var n := |closes|;
    if n > 1 {
      TriangleInequality(closes[..n - 1]);
      MovesAppend(closes);
      SumAppend(AbsoluteMoves(closes[..n - 1]), Move(closes[n - 2], closes[n - 1]));
      Detour(closes[0], closes[n - 2], closes[n - 1]);
    } else {
      SumEmpty();
      Stay(closes[0]);
      assert AbsoluteMoves(closes) == [];
    }
  }

  lemma MovesAppend(closes: seq<real>)
    requires |closes| > 1
    ensures AbsoluteMoves(closes)
        == AbsoluteMoves(closes[..|closes| - 1]) + [Move(closes[|closes| - 2], closes[|closes| - 1])]
  {
    hide Move;
  }

  lemma Detour(from: real, via: real, to: real)
    ensures Move(from, to) <= Move(from, via) + Move(via, to)
  {
  }

  lemma Stay(close: real)
    ensures Move(close, close) == 0.0
  {
  }

  lemma RatioInUnit(net: real, path: real)
    requires net <= path && 0.0 <= net
    ensures 0.0 <= NetOverPath(net, path) <= 1.0
  {
    if path > 0.0 {
      var ratio := net / path;
      assert ratio * path == net;
    }
  }

  /** The ratio is between 0 and 1 at every bar: no path is shorter than its net move. */
  lemma EfficiencyBetween(close: seq<real>, window: nat, i: nat)
    requires window > 0 && i < |close|
    ensures 0.0 <= EfficiencySeries(close, window)[i] <= 1.0
  {
    hide EfficiencySeries;
    hide NetOverPath;
    hide Sum;
    var closes := close[WindowStart(i, window)..i + 1];
    SeriesIsDirectRatio(close, window, i);
    TriangleInequality(closes);
    RatioInUnit(Move(closes[0], closes[|closes| - 1]), Sum(AbsoluteMoves(closes)));
  }

  // ---------- gating a strategy on the regime ----------

  function ClassifyRegime(history: seq<Bar>, window: nat, threshold: real): Regime
    requires window > 0
  {
    if |history| < 2 then Ranging
    else
      var recent := if window <= |history| then history[|history| - window..] else history;
      if EfficiencyRatio(SeriesOf(recent, Close)) >= threshold then Trending else Ranging
  }

  function GateAt(required: Regime, ratio: real, threshold: real, signal: RawSignal): RawSignal {
    if (ratio >= threshold) == required.Trending? then signal else Number(0.0)
  }

  function GatedSeries(
    signals: seq<RawSignal>, required: Regime, window: nat, threshold: real, bars: seq<Bar>): (r: seq<RawSignal>)
    requires window > 0 && |signals| == |bars|
    ensures |r| == |bars|
  {
    var ratios := EfficiencySeries(SeriesOf(bars, Close), window);
    seq(|bars|, i requires 0 <= i < |bars| => GateAt(required, ratios[i], threshold, signals[i]))
  }

  function GatedSignal(strategy: Strategy, required: Regime, window: nat, threshold: real, history: seq<Bar>): RawSignal
    requires window > 0
  {
    if ClassifyRegime(history, window, threshold) == required then strategy.perBar(history) else Number(0.0)
  }

  lemma ClassifyByRatio(bars: seq<Bar>, window: nat, threshold: real, i: nat)
    requires window > 0 && 0 < i < |bars|
    ensures ClassifyRegime(bars[..i + 1], window, threshold)
         == if EfficiencySeries(SeriesOf(bars, Close), window)[i] >= threshold then Trending else Ranging
  {
    hide EfficiencySeries;
    hide EfficiencyRatio;
    SeriesIsDirectRatio(SeriesOf(bars, Close), window, i);
    var history := bars[..i + 1];
    var recent := if window <= |history| then history[|history| - window..] else history;
    assert SeriesOf(recent, Close) == SeriesOf(bars, Close)[WindowStart(i, window)..i + 1];
  }

  ghost predicate GateFormsAgree(strategy: Strategy, required: Regime, window: nat, threshold: real, bars: seq<Bar>)
    requires window > 0 && |SignalsOf(strategy, bars)| == |bars|
  {
    var gated := GatedSeries(SignalsOf(strategy, bars), required, window, threshold, bars);
    forall i :: 0 <= i < |bars| ==> gated[i] == GatedSignal(strategy, required, window, threshold, bars[..i + 1])
  }

  /**
   * Around a strategy whose own forms agree, the gate's two forms give the same signal on every bar but the first.
   * There one bar is always "ranging" per bar and an efficiency of 0 in the series, so they agree if and only if
   * the threshold is positive or the strategy's first signal is 0 anyway.
   */
  lemma RegimeGateFormsAgree(strategy: Strategy, required: Regime, window: nat, threshold: real, bars: seq<Bar>)
    requires window > 0 && bars != []
    requires |SignalsOf(strategy, bars)| == |bars| && FormsAgree(strategy, bars)
    ensures GateFormsAgree(strategy, required, window, threshold, bars)
       <==> threshold > 0.0 || SignalsOf(strategy, bars)[0] == Number(0.0)
  {
    hide ClassifyRegime;
    hide EfficiencySeries;
    var signals := SignalsOf(strategy, bars);
    var gated := GatedSeries(signals, required, window, threshold, bars);
    assert signals == SignalsOf(PerBarOnly(strategy), bars);
    forall i | 0 < i < |bars|
      ensures gated[i] == GatedSignal(strategy, required, window, threshold, bars[..i + 1])
    {
      ClassifyByRatio(bars, window, threshold, i);
      assert signals[i] == strategy.perBar(bars[..i + 1]);
    }
    FirstBarRegime(bars, window, threshold);
    assert signals[0] == strategy.perBar(bars[..0 + 1]);
    assert gated[0] == GatedSignal(strategy, required, window, threshold, bars[..0 + 1])
      <==> threshold > 0.0 || signals[0] == Number(0.0);
  }

  lemma FirstBarRegime(bars: seq<Bar>, window: nat, threshold: real)
    requires window > 0 && bars != []
    ensures ClassifyRegime(bars[..1], window, threshold) == Ranging
    ensures EfficiencySeries(SeriesOf(bars, Close), window)[0] == 0.0
  {
  }

  // ---------- a concrete case ----------

  const ALWAYS_LONG: Strategy :=
    Strategy(history => Number(1.0), Some((bars: seq<Bar>) => seq(|bars|, i => Number(1.0))))

  /** With a threshold of 0 a strategy that is always long is held back on the first bar in one form only. */
  lemma GateFormsDiffer()
    ensures var bars := [Bar(0.0, None, None, 100.0, None)];
            && |SignalsOf(ALWAYS_LONG, bars)| == |bars| && FormsAgree(ALWAYS_LONG, bars)
            && !GateFormsAgree(ALWAYS_LONG, Trending, 20, 0.0, bars)
  {
    hide GateFormsAgree;
    var bars := [Bar(0.0, None, None, 100.0, None)];
    assert SignalsOf(ALWAYS_LONG, bars) == [Number(1.0)] == SignalsOf(PerBarOnly(ALWAYS_LONG), bars);
    RegimeGateFormsAgree(ALWAYS_LONG, Trending, 20, 0.0, bars);
  }
}
