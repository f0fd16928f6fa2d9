/**
 * Strategies of `src/backtest/strategies.py` that come in two forms: a per-bar call on growing history, which the
 * runtime uses, and one pass over all bars, which backtests use. The forms are proved to give the same signals.
 */
module Strategies {
  import opened Numbers
  import opened Market
  import opened Latch
  import opened Indicators

  // ---------- latched strategies ----------

  /** The first `count` signals are 0, the rest are the latch's. */
  function AfterWarmup(signals: seq<int>, count: int): seq<RawSignal> {
    seq(|signals|, i requires 0 <= i < |signals| => if i < count then Number(0.0) else Number(signals[i] as real))
  }

  function LatchedSignal(rules: seq<Bar> -> Rules, warmup: int, history: seq<Bar>): RawSignal {
    if |history| < warmup then Number(0.0) else Number(LatchPosition(rules(history)) as real)
  }

  function LatchedSeries(rules: seq<Bar> -> Rules, warmup: int, bars: seq<Bar>): seq<RawSignal> {
    AfterWarmup(LatchSeries(rules(bars)), warmup - 1)
  }

  function Latched(rules: seq<Bar> -> Rules, warmup: int): Strategy {
    Strategy(history => LatchedSignal(rules, warmup, history), Some(bars => LatchedSeries(rules, warmup, bars)))
  }

  /** The same strategy without its one-pass form. */
  function PerBarOnly(strategy: Strategy): Strategy {
    strategy.(signalSeries := None)
  }

  /** On these bars the rules never look ahead: after warm-up, the rules over a prefix are a prefix of the rules. */
  ghost predicate CausalOn(rules: seq<Bar> -> Rules, warmup: int, bars: seq<Bar>) {
    && |rules(bars).longEntry| == |bars|
    && forall n :: 0 < n <= |bars| && warmup <= n ==> rules(bars[..n]) == rules(bars).Take(n)
  }

  ghost predicate FormsAgree(strategy: Strategy, bars: seq<Bar>) {
    SignalsOf(strategy, bars) == SignalsOf(PerBarOnly(strategy), bars)
  }

  /** A latched strategy over causal rules gives the same signal at every bar in either form. */
  lemma LatchedFormsAgree(rules: seq<Bar> -> Rules, warmup: int, bars: seq<Bar>)
    requires CausalOn(rules, warmup, bars)
    ensures FormsAgree(Latched(rules, warmup), bars)
  {
    hide LatchPosition;
    hide LatchSeries;
    var series := LatchedSeries(rules, warmup, bars);
    forall i | 0 <= i < |bars|
      ensures series[i] == LatchedSignal(rules, warmup, bars[..i + 1])
    {
      if warmup <= i + 1 {
        FourForms(rules(bars), i);
        assert rules(bars[..i + 1]) == rules(bars).Take(i + 1);
      }
    }
  }

  // ---------- channel breakouts ----------

  function DonchianAt(bars: seq<Bar>, entryWindow: nat, exitWindow: nat, allowShort: bool): (r: Rules)
    requires entryWindow > 0 && exitWindow > 0
    ensures |r.longEntry| == |bars|
  {
    var close, high, low := Known(SeriesOf(bars, Close)), Known(SeriesOf(bars, High)), Known(SeriesOf(bars, Low));
    RuleArrays(
      Greater(close, Shifted(Rolled(high, entryWindow, MaxOf), 1)),
      Greater(Shifted(Rolled(low, exitWindow, MinOf), 1), close),
      if allowShort then Some(Greater(Shifted(Rolled(low, entryWindow, MinOf), 1), close)) else None,
      if allowShort then Some(Greater(close, Shifted(Rolled(high, exitWindow, MaxOf), 1))) else None)
  }

  function DonchianRules(entryWindow: nat, exitWindow: nat, allowShort: bool): seq<Bar> -> Rules
    requires entryWindow > 0 && exitWindow > 0
  {
    bars => DonchianAt(bars, entryWindow, exitWindow, allowShort)
  }

  function Larger(a: nat, b: nat): nat {
    if a < b then b else a
  }

  function Donchian(entryWindow: nat, exitWindow: nat, allowShort: bool): Strategy
    requires entryWindow > 0 && exitWindow > 0
  {
    Latched(DonchianRules(entryWindow, exitWindow, allowShort), Larger(entryWindow, exitWindow) + 1)
  }

  function KeltnerAt(bars: seq<Bar>, window: nat, atrMultiplier: real, allowShort: bool): (r: Rules)
    requires window > 0
    ensures |r.longEntry| == |bars|
  {
    var closes, high, low := SeriesOf(bars, Close), SeriesOf(bars, High), SeriesOf(bars, Low);
    var close := Known(closes);
    var middle := Shifted(Rolled(close, window, MeanOf), 1);
    var band := ScaledBy(atrMultiplier, Shifted(Atr(high, low, closes, window), 1));
    RuleArrays(
      Greater(close, Plus(middle, band)),
      Greater(middle, close),
      if allowShort then Some(Greater(Minus(middle, band), close)) else None,
      if allowShort then Some(Greater(close, middle)) else None)
  }

  function KeltnerRules(window: nat, atrMultiplier: real, allowShort: bool): seq<Bar> -> Rules
    requires window > 0
  {
    bars => KeltnerAt(bars, window, atrMultiplier, allowShort)
  }

  function Keltner(window: nat, atrMultiplier: real, allowShort: bool): Strategy
    requires window > 0
  {
    Latched(KeltnerRules(window, atrMultiplier, allowShort), window + 2)
  }

  /** A shifted rolling reduction of a bar field, the building block of the channels. */
  lemma ChannelCausal(bars: seq<Bar>, field: Field, window: nat, reducer: seq<Num> -> Num, n: nat)
    requires n <= |bars| && window > 0
    ensures Shifted(Rolled(Known(SeriesOf(bars[..n], field)), window, reducer), 1)
         == Shifted(Rolled(Known(SeriesOf(bars, field)), window, reducer), 1)[..n]
  {
    SeriesCausal(bars, field, n);
    RolledCausal(Known(SeriesOf(bars, field)), window, reducer, n);
    ShiftedCausal(Rolled(Known(SeriesOf(bars, field)), window, reducer), 1, n);
  }

  lemma DonchianIsCausal(bars: seq<Bar>, entryWindow: nat, exitWindow: nat, allowShort: bool, n: nat)
    requires entryWindow > 0 && exitWindow > 0 && n <= |bars|
    ensures DonchianAt(bars[..n], entryWindow, exitWindow, allowShort)
        == DonchianAt(bars, entryWindow, exitWindow, allowShort).Take(n)
  {
    hide Rolled;
    hide Greater;
    SeriesCausal(bars, Close, n);
    ChannelCausal(bars, High, entryWindow, MaxOf, n);
    ChannelCausal(bars, Low, exitWindow, MinOf, n);
    ChannelCausal(bars, Low, entryWindow, MinOf, n);
    ChannelCausal(bars, High, exitWindow, MaxOf, n);
    var close := Known(SeriesOf(bars, Close));
    ComparisonCausal(close, Shifted(Rolled(Known(SeriesOf(bars, High)), entryWindow, MaxOf), 1), n);
    ComparisonCausal(Shifted(Rolled(Known(SeriesOf(bars, Low)), exitWindow, MinOf), 1), close, n);
    ComparisonCausal(Shifted(Rolled(Known(SeriesOf(bars, Low)), entryWindow, MinOf), 1), close, n);
    ComparisonCausal(close, Shifted(Rolled(Known(SeriesOf(bars, High)), exitWindow, MaxOf), 1), n);
  }

  lemma DonchianFormsAgree(entryWindow: nat, exitWindow: nat, allowShort: bool, bars: seq<Bar>)
    requires entryWindow > 0 && exitWindow > 0
    ensures FormsAgree(Donchian(entryWindow, exitWindow, allowShort), bars)
  {
    hide DonchianAt;
    hide FormsAgree;
    forall n | 0 < n <= |bars|
      ensures DonchianRules(entryWindow, exitWindow, allowShort)(bars[..n])
          == DonchianRules(entryWindow, exitWindow, allowShort)(bars).Take(n)
    {
      DonchianIsCausal(bars, entryWindow, exitWindow, allowShort, n);
    }
    LatchedFormsAgree(DonchianRules(entryWindow, exitWindow, allowShort), Larger(entryWindow, exitWindow) + 1, bars);
  }

  lemma KeltnerIsCausal(bars: seq<Bar>, window: nat, atrMultiplier: real, allowShort: bool, n: nat)
    requires window > 0 && n <= |bars|
    ensures KeltnerAt(bars[..n], window, atrMultiplier, allowShort)
        == KeltnerAt(bars, window, atrMultiplier, allowShort).Take(n)
  {
    hide Rolled;
    hide Greater;
    hide Plus;
    hide Minus;
    hide ScaledBy;
    var closes, high, low := SeriesOf(bars, Close), SeriesOf(bars, High), SeriesOf(bars, Low);
    var close, range := Known(closes), Atr(high, low, closes, window);
    var middle, shifted := Shifted(Rolled(close, window, MeanOf), 1), Shifted(range, 1);
    var band := ScaledBy(atrMultiplier, shifted);
    SeriesCausal(bars, Close, n);
    SeriesCausal(bars, High, n);
    SeriesCausal(bars, Low, n);
    ChannelCausal(bars, Close, window, MeanOf, n);
    AtrCausal(high, low, closes, window, n);
    ShiftedCausal(range, 1, n);
    PointwiseCausal(middle, shifted, atrMultiplier, n);
    PointwiseCausal(shifted, shifted, atrMultiplier, n);
    PointwiseCausal(middle, band, atrMultiplier, n);
    ComparisonCausal(close, Plus(middle, band), n);
    ComparisonCausal(middle, close, n);
    ComparisonCausal(Minus(middle, band), close, n);
    ComparisonCausal(close, middle, n);
  }

  lemma KeltnerFormsAgree(window: nat, atrMultiplier: real, allowShort: bool, bars: seq<Bar>)
    requires window > 0
    ensures FormsAgree(Keltner(window, atrMultiplier, allowShort), bars)
  {
    hide KeltnerAt;
    hide FormsAgree;
    forall n | 0 < n <= |bars|
      ensures KeltnerRules(window, atrMultiplier, allowShort)(bars[..n])
          == KeltnerRules(window, atrMultiplier, allowShort)(bars).Take(n)
    {
      KeltnerIsCausal(bars, window, atrMultiplier, allowShort, n);
    }
    LatchedFormsAgree(KeltnerRules(window, atrMultiplier, allowShort), window + 2, bars);
  }

  // ---------- suppressing shorts ----------

  function LongPart(raw: RawSignal): RawSignal {
    if Normalize(raw) > 0.0 then Number(Normalize(raw)) else Number(0.0)
  }

  function LongParts(signals: seq<RawSignal>): (r: seq<RawSignal>)
    ensures |r| == |signals|
  {
    seq(|signals|, i requires 0 <= i < |signals| => LongPart(signals[i]))
  }

  function MakeLongOnly(strategy: Strategy): Strategy {
    Strategy(history => LongPart(strategy.perBar(history)),
             if strategy.signalSeries.Some? then Some(bars => LongParts(strategy.signalSeries.value(bars))) else None)
  }

  /** The wrapper keeps the two forms in agreement, never asks for a short and leaves every long signal as it was. */
  lemma LongOnlyKeepsForms(strategy: Strategy, bars: seq<Bar>)
    requires FormsAgree(strategy, bars)
    ensures FormsAgree(MakeLongOnly(strategy), bars)
    ensures var signals, inner := SignalsOf(MakeLongOnly(strategy), bars), SignalsOf(strategy, bars);
            && |signals| == |inner|
            && forall i :: 0 <= i < |signals| ==> Normalize(signals[i]) == Max(Normalize(inner[i]), 0.0)
  {
    hide Normalize;
    LongPartNormalizes();
    var signals, inner := SignalsOf(MakeLongOnly(strategy), bars), SignalsOf(strategy, bars);
    assert signals == LongParts(inner);
    assert SignalsOf(PerBarOnly(MakeLongOnly(strategy)), bars) == LongParts(SignalsOf(PerBarOnly(strategy), bars));
  }

  lemma LongPartNormalizes()
    ensures forall raw :: Normalize(LongPart(raw)) == Max(Normalize(raw), 0.0)
  {
  }
}
