/**
 * What the channel breakouts of `src/backtest/strategies.py` ask of the bars themselves: closes against the highs, lows
 * and true ranges of the bars before, and the position that follows from them.
 */
module Channels {
  import opened Numbers
  import opened Market
  import opened Latch
  import opened Indicators
  import opened Strategies

  // ---------- what a bar offers ----------

  /** The high of a bar, or its close where it has none. */
  ghost function Top(bar: Bar): real {
    match bar.high
    case Some(high) => high
    case None => bar.close
  }

  ghost function Bottom(bar: Bar): real {
    match bar.low
    case Some(low) => low
    case None => bar.close
  }

  /** Bar `t` closes above everything the `window` bars before it reached; there must be that many. */
  ghost predicate AboveAll(bars: seq<Bar>, t: nat, window: nat)
    requires t < |bars|
  {
    window <= t && forall j :: t - window <= j < t ==> bars[t].close > Top(bars[j])
  }

  ghost predicate BelowAll(bars: seq<Bar>, t: nat, window: nat)
    requires t < |bars|
  {
    window <= t && forall j :: t - window <= j < t ==> bars[t].close < Bottom(bars[j])
  }

  // ---------- extremes of a window ----------

  lemma {:induction false} AboveHighest(window: seq<Num>, x: real)
    requires AllKnown(window) && window != []
    ensures x > Highest(window) <==> forall k :: 0 <= k < |window| ==> x > window[k].value
  {
    if |window| > 1 {
      AboveHighest(window[..|window| - 1], x);
    }
  }

  lemma {:induction false} BelowLowest(window: seq<Num>, x: real)
    requires AllKnown(window) && window != []
    ensures x < Lowest(window) <==> forall k :: 0 <= k < |window| ==> x < window[k].value
  {
    if |window| > 1 {
      BelowLowest(window[..|window| - 1], x);
    }
  }

  /** A rolling reduction of a bar field, one bar late, at bar `t`. */
  lemma PriorWindow(bars: seq<Bar>, field: Field, window: nat, reducer: seq<Num> -> Num, t: nat)
    requires window > 0 && t < |bars|
    ensures Shifted(Rolled(Known(SeriesOf(bars, field)), window, reducer), 1)[t]
         == if t < window then None else reducer(Known(SeriesOf(bars, field))[t - window..t])
  {
  }

  lemma FieldsMean(bars: seq<Bar>, j: nat)
    requires j < |bars|
    ensures Known(SeriesOf(bars, Close))[j] == Some(bars[j].close)
    ensures Known(SeriesOf(bars, High))[j] == Some(Top(bars[j]))
    ensures Known(SeriesOf(bars, Low))[j] == Some(Bottom(bars[j]))
  {
  }

  lemma CloseAboveHighs(bars: seq<Bar>, window: nat, t: nat)
    requires window > 0 && t < |bars|
    ensures Above(Known(SeriesOf(bars, Close))[t], Shifted(Rolled(Known(SeriesOf(bars, High)), window, MaxOf), 1)[t])
       <==> AboveAll(bars, t, window)
  {
    hide Highest;
    hide SeriesOf;
    FieldsMean(bars, t);
    PriorWindow(bars, High, window, MaxOf, t);
    if window <= t {
      var highs := Known(SeriesOf(bars, High))[t - window..t];
      AboveHighest(highs, bars[t].close);
      forall k | 0 <= k < |highs|
        ensures highs[k] == Some(Top(bars[t - window + k]))
      {
        FieldsMean(bars, t - window + k);
      }
      if AboveAll(bars, t, window) {
        assert forall k :: 0 <= k < |highs| ==> bars[t].close > highs[k].value;
      } else {
        var j :| t - window <= j < t && bars[t].close <= Top(bars[j]);
        assert highs[j - (t - window)] == Some(Top(bars[j]));
      }
    }
  }

  lemma CloseBelowLows(bars: seq<Bar>, window: nat, t: nat)
    requires window > 0 && t < |bars|
    ensures Above(Shifted(Rolled(Known(SeriesOf(bars, Low)), window, MinOf), 1)[t], Known(SeriesOf(bars, Close))[t])
       <==> BelowAll(bars, t, window)
  {
    hide Lowest;
    hide SeriesOf;
    FieldsMean(bars, t);
    PriorWindow(bars, Low, window, MinOf, t);
    if window <= t {
      var lows := Known(SeriesOf(bars, Low))[t - window..t];
      BelowLowest(lows, bars[t].close);
      forall k | 0 <= k < |lows|
        ensures lows[k] == Some(Bottom(bars[t - window + k]))
      {
        FieldsMean(bars, t - window + k);
      }
      if BelowAll(bars, t, window) {
        assert forall k :: 0 <= k < |lows| ==> bars[t].close < lows[k].value;
      } else {
        var j :| t - window <= j < t && bars[t].close >= Bottom(bars[j]);
        assert lows[j - (t - window)] == Some(Bottom(bars[j]));
      }
    }
  }

  // ---------- the rules of the Donchian breakout ----------

  /** Enter on a close beyond all prices of the last `entryWindow` bars, leave on one beyond the other side's exits. */
  lemma DonchianMeans(bars: seq<Bar>, entryWindow: nat, exitWindow: nat, allowShort: bool, t: nat)
    requires entryWindow > 0 && exitWindow > 0 && t < |bars|
    ensures var r := DonchianAt(bars, entryWindow, exitWindow, allowShort);
            && (r.longEntry[t] <==> AboveAll(bars, t, entryWindow))
            && (r.longExit[t] <==> BelowAll(bars, t, exitWindow))
            && (r.shortEntry.Some? <==> allowShort) && (r.shortExit.Some? <==> allowShort)
            && (allowShort ==> (r.shortEntry.value[t] <==> BelowAll(bars, t, entryWindow)))
            && (allowShort ==> (r.shortExit.value[t] <==> AboveAll(bars, t, exitWindow)))
  {
    hide Rolled;
    hide Shifted;
    hide SeriesOf;
    hide AboveAll;
    hide BelowAll;
    hide Above;
    CloseAboveHighs(bars, entryWindow, t);
    CloseAboveHighs(bars, exitWindow, t);
    CloseBelowLows(bars, entryWindow, t);
    CloseBelowLows(bars, exitWindow, t);
  }

  // ---------- the position that follows ----------

  /** What a latched strategy signals on bar `t`, from its masks: a side entered and, since then, not left. */
  ghost predicate SignalIs(signal: RawSignal, long: bool, short: bool) {
    && (signal == Number(1.0) <==> long)
    && (signal == Number(-1.0) <==> short)
    && (signal == Number(0.0) <==> !long && !short)
  }

  lemma LatchedSignals(rules: seq<Bar> -> Rules, warmup: nat, bars: seq<Bar>, t: nat)
    requires t < |bars| == |rules(bars).longEntry|
    ensures var signals := SignalsOf(Latched(rules, warmup), bars);
            var warm := t + 1 >= warmup;
            && |signals| == |bars|
            && SignalIs(signals[t], warm && LongHeld(rules(bars), t), warm && ShortHeld(rules(bars), t))
  {
    hide LatchSeries;
    hide LatchPosition;
    hide LongHeld;
    hide ShortHeld;
    FourForms(rules(bars), t);
  }

  /** Bar `e` broke upwards, and no bar since has broken down through the exit channel or into a short. */
  ghost predicate LongSince(bars: seq<Bar>, entryWindow: nat, exitWindow: nat, allowShort: bool, e: nat, t: nat)
    requires e <= t < |bars|
  {
    && AboveAll(bars, e, entryWindow)
    && forall j :: e <= j <= t ==>
         !BelowAll(bars, j, exitWindow) && !(allowShort && BelowAll(bars, j, entryWindow))
  }

  ghost predicate ShortSince(bars: seq<Bar>, entryWindow: nat, exitWindow: nat, e: nat, t: nat)
    requires e <= t < |bars|
  {
    && BelowAll(bars, e, entryWindow)
    && forall j :: e <= j <= t ==> !AboveAll(bars, j, exitWindow) && !AboveAll(bars, j, entryWindow)
  }

  lemma DonchianHeld(bars: seq<Bar>, entryWindow: nat, exitWindow: nat, allowShort: bool, t: nat)
    requires entryWindow > 0 && exitWindow > 0 && t < |bars|
    ensures var r := DonchianAt(bars, entryWindow, exitWindow, allowShort);
            && (LongHeld(r, t) <==>
                exists e :: 0 <= e <= t && LongSince(bars, entryWindow, exitWindow, allowShort, e, t))
            && (ShortHeld(r, t) <==>
                allowShort && exists e :: 0 <= e <= t && ShortSince(bars, entryWindow, exitWindow, e, t))
  {
    hide DonchianAt;
    hide AboveAll;
    hide BelowAll;
    var r := DonchianAt(bars, entryWindow, exitWindow, allowShort);
    DonchianMeans(bars, entryWindow, exitWindow, allowShort, t);
    forall j | 0 <= j <= t
      ensures r.longEntry[j] <==> AboveAll(bars, j, entryWindow)
      ensures r.EffectiveLongExit()[j]
         <==> BelowAll(bars, j, exitWindow) || (allowShort && BelowAll(bars, j, entryWindow))
      ensures allowShort ==>
                && (r.shortEntry.value[j] <==> BelowAll(bars, j, entryWindow))
                && (r.EffectiveShortExit()[j] <==> AboveAll(bars, j, exitWindow) || AboveAll(bars, j, entryWindow))
    {
      DonchianMeans(bars, entryWindow, exitWindow, allowShort, j);
    }
    if LongHeld(r, t) {
      var e :| 0 <= e <= t && r.longEntry[e] && forall j :: e <= j <= t ==> !r.EffectiveLongExit()[j];
      assert LongSince(bars, entryWindow, exitWindow, allowShort, e, t);
    }
    if allowShort && ShortHeld(r, t) {
      var e :| 0 <= e <= t && r.shortEntry.value[e] && forall j :: e <= j <= t ==> !r.EffectiveShortExit()[j];
      assert ShortSince(bars, entryWindow, exitWindow, e, t);
    }
  }

  /**
   * The Donchian breakout is long after bar `t` exactly when some bar up to it closed above the highs of the
   * `entryWindow` bars before it and none since has closed below the lows of the `exitWindow` bars before, or gone
   * short; it is short in the mirror case, and flat while the wider channel is not yet filled.
   */
  lemma DonchianSignals(bars: seq<Bar>, entryWindow: nat, exitWindow: nat, allowShort: bool, t: nat)
    requires entryWindow > 0 && exitWindow > 0 && t < |bars|
    ensures var signals := SignalsOf(Donchian(entryWindow, exitWindow, allowShort), bars);
            var warm := entryWindow <= t && exitWindow <= t;
            && |signals| == |bars|
            && SignalIs(signals[t],
                 warm && exists e :: 0 <= e <= t && LongSince(bars, entryWindow, exitWindow, allowShort, e, t),
                 warm && allowShort && exists e :: 0 <= e <= t && ShortSince(bars, entryWindow, exitWindow, e, t))
  {
    hide DonchianAt;
    hide LongSince;
    hide ShortSince;
    hide LongHeld;
    hide ShortHeld;
    hide SignalsOf;
    hide Latched;
    var rules := DonchianRules(entryWindow, exitWindow, allowShort);
    LatchedSignals(rules, Larger(entryWindow, exitWindow) + 1, bars, t);
    DonchianHeld(bars, entryWindow, exitWindow, allowShort, t);
  }

  // ---------- the rules of the Keltner breakout ----------

  /** `x` is the largest of the bar's own range and, after the first bar, its reach from the close before. */
  ghost predicate IsTrueRange(bars: seq<Bar>, i: nat, x: real)
    requires i < |bars|
  {
    var own := Top(bars[i]) - Bottom(bars[i]);
    if i == 0 then x == own
    else
      var up, down := Abs(Top(bars[i]) - bars[i - 1].close), Abs(Bottom(bars[i]) - bars[i - 1].close);
      own <= x && up <= x && down <= x && (x == own || x == up || x == down)
  }

  lemma TrueRangeMeans(bars: seq<Bar>, i: nat)
    requires i < |bars|
    ensures var range := TrueRange(SeriesOf(bars, High), SeriesOf(bars, Low), SeriesOf(bars, Close))[i];
            range.Some? && forall x :: IsTrueRange(bars, i, x) <==> x == range.value
  {
    FieldsMean(bars, i);
    if i > 0 {
      FieldsMean(bars, i - 1);
    }
  }

  lemma {:induction false} TotalIsSum(window: seq<Num>, xs: seq<real>)
    requires |window| == |xs| && forall k :: 0 <= k < |xs| ==> window[k] == Some(xs[k])
    ensures AllKnown(window) && Total(window) == Sum(xs)
  {
    if xs != [] {
      TotalIsSum(window[..|xs| - 1], xs[..|xs| - 1]);
    }
  }

  /** The closes of the `window` bars before bar `t`, and their true ranges. */
  ghost predicate PriorBars(bars: seq<Bar>, t: nat, window: nat, closes: seq<real>, ranges: seq<real>)
    requires t < |bars|
  {
    && window <= t && |closes| == |ranges| == window
    && (forall k :: 0 <= k < window ==> closes[k] == bars[t - window + k].close)
    && (forall k :: 0 <= k < window ==> IsTrueRange(bars, t - window + k, ranges[k]))
  }

  lemma PriorBarsExist(bars: seq<Bar>, t: nat, window: nat) returns (closes: seq<real>, ranges: seq<real>)
    requires window <= t < |bars|
    ensures PriorBars(bars, t, window, closes, ranges)
  {
    hide TrueRange;
    hide IsTrueRange;
    var spans := TrueRange(SeriesOf(bars, High), SeriesOf(bars, Low), SeriesOf(bars, Close));
    forall i | 0 <= i < |bars|
      ensures spans[i].Some? && IsTrueRange(bars, i, spans[i].value)
    {
      TrueRangeMeans(bars, i);
    }
    closes := seq(window, k requires 0 <= k < window => bars[t - window + k].close);
    ranges := seq(window, k requires 0 <= k < window => spans[t - window + k].value);
  }

  lemma PriorMean(bars: seq<Bar>, t: nat, window: nat, closes: seq<real>, ranges: seq<real>)
    requires 0 < window && t < |bars| && PriorBars(bars, t, window, closes, ranges)
    ensures var high, low, close := SeriesOf(bars, High), SeriesOf(bars, Low), SeriesOf(bars, Close);
            && Shifted(Rolled(Known(close), window, MeanOf), 1)[t] == Some(Average(Sum(closes), window))
            && Shifted(Atr(high, low, close, window), 1)[t] == Some(Average(Sum(ranges), window))
  {
    hide Average;
    hide Sum;
    hide SeriesOf;
    hide Total;
    hide IsTrueRange;
    hide TrueRange;
    var high, low, close := SeriesOf(bars, High), SeriesOf(bars, Low), SeriesOf(bars, Close);
    var span := TrueRange(high, low, close)[t - window..t];
    var known := Known(close)[t - window..t];
    forall k | 0 <= k < window
      ensures known[k] == Some(closes[k]) && span[k] == Some(ranges[k])
    {
      FieldsMean(bars, t - window + k);
      TrueRangeMeans(bars, t - window + k);
    }
    TotalIsSum(known, closes);
    TotalIsSum(span, ranges);
    assert |known| == |span| == window && known != [] && span != [];
    assert MeanOf(known) == Some(Average(Sum(closes), window)) && MeanOf(span) == Some(Average(Sum(ranges), window));
  }

  lemma AverageTimes(total: real, count: nat)
    requires count > 0
    ensures Times(Average(total, count), count as real) == total
  {
  }

  lemma TimesCompare(x: real, y: real, count: real)
    requires 0.0 < count
    ensures x > y <==> Times(x, count) > Times(y, count)
  {
    if x > y {
      TimesPositive(x - y, count);
      assert (x - y) * count == x * count - y * count;
    } else {
      TimesScales(x, y, count);
    }
  }

  lemma TimesTogether(factor: real, x: real, y: real, count: real)
    ensures Times(x + Times(factor, y), count) == Times(x, count) + Times(factor, Times(y, count))
    ensures Times(x - Times(factor, y), count) == Times(x, count) - Times(factor, Times(y, count))
  {
  }

  /** How `window` times a close compares with the sum of the closes before, and that sum widened by the true ranges. */
  lemma ChannelCompares(close: real, window: nat, closes: real, ranges: real, factor: real)
    requires window > 0
    ensures var middle, band := Average(closes, window), Times(factor, Average(ranges, window));
            && (close > middle + band <==> Times(close, window as real) > closes + Times(factor, ranges))
            && (middle - band > close <==> closes - Times(factor, ranges) > Times(close, window as real))
            && (close > middle <==> Times(close, window as real) > closes)
            && (middle > close <==> closes > Times(close, window as real))
  {
    hide Times;
    hide Average;
    var middle, share, n := Average(closes, window), Average(ranges, window), window as real;
    AverageTimes(closes, window);
    AverageTimes(ranges, window);
    TimesTogether(factor, middle, share, n);
    TimesCompare(close, middle + Times(factor, share), n);
    TimesCompare(middle - Times(factor, share), close, n);
    TimesCompare(close, middle, n);
    TimesCompare(middle, close, n);
  }

  /**
   * With `closes` and `ranges` those of the `window` bars before bar `t`: enter long when the close exceeds their mean
   * by `atrMultiplier` mean true ranges, short when it falls as far below, and leave on the far side of the mean.
   */
  lemma KeltnerMeans(
    bars: seq<Bar>, window: nat, atrMultiplier: real, allowShort: bool, t: nat, closes: seq<real>, ranges: seq<real>)
    requires window > 0 && t < |bars| && PriorBars(bars, t, window, closes, ranges)
    ensures var r := KeltnerAt(bars, window, atrMultiplier, allowShort);
            var scaled, sum := Times(bars[t].close, window as real), Sum(closes);
            var width := Times(atrMultiplier, Sum(ranges));
            && (r.longEntry[t] <==> scaled > sum + width) && (r.longExit[t] <==> scaled < sum)
            && (r.shortEntry.Some? <==> allowShort) && (r.shortExit.Some? <==> allowShort)
            && (allowShort ==> (r.shortEntry.value[t] <==> scaled < sum - width))
            && (allowShort ==> (r.shortExit.value[t] <==> scaled > sum))
  {
    hide Rolled;
    hide Shifted;
    hide SeriesOf;
    hide Sum;
    hide Times;
    hide Average;
    hide Atr;
    hide PriorBars;
    FieldsMean(bars, t);
    PriorMean(bars, t, window, closes, ranges);
    ChannelCompares(bars[t].close, window, Sum(closes), Sum(ranges), atrMultiplier);
  }

  /** Before that many bars nothing enters and nothing leaves. */
  lemma KeltnerWaits(bars: seq<Bar>, window: nat, atrMultiplier: real, allowShort: bool, t: nat)
    requires window > 0 && t < |bars| && t < window
    ensures var r := KeltnerAt(bars, window, atrMultiplier, allowShort);
            && !r.longEntry[t] && !r.longExit[t]
            && (allowShort ==> !r.shortEntry.value[t] && !r.shortExit.value[t])
  {
    hide MeanOf;
    hide SeriesOf;
    hide TrueRange;
  }

  /** The Keltner breakout signals what these rules latch, from the second bar with a full window before it on. */
  lemma KeltnerSignals(bars: seq<Bar>, window: nat, atrMultiplier: real, allowShort: bool, t: nat)
    requires window > 0 && t < |bars|
    ensures var signals := SignalsOf(Keltner(window, atrMultiplier, allowShort), bars);
            var r := KeltnerAt(bars, window, atrMultiplier, allowShort);
            && |signals| == |bars|
            && SignalIs(signals[t], window < t && LongHeld(r, t), window < t && ShortHeld(r, t))
  {
    hide KeltnerAt;
    hide LongHeld;
    hide ShortHeld;
    hide SignalsOf;
    hide Latched;
    LatchedSignals(KeltnerRules(window, atrMultiplier, allowShort), window + 2, bars, t);
  }
}
