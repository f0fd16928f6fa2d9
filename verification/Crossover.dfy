/** The moving-average crossover and threshold-momentum signals of `src/backtest/strategies.py`, in both forms. */
module Crossover {
  import opened Numbers
  import opened Market
  import opened Indicators
  import opened Strategies

  /** The last `count` elements, all of them when there are fewer. */
  function LastOf<T>(xs: seq<T>, count: nat): seq<T> {
    if count <= |xs| then xs[|xs| - count..] else xs
  }

  function Compare(shortMa: real, longMa: real): int {
    if shortMa > longMa then 1 else if shortMa < longMa then -1 else 0
  }

  function CrossoverSignal(short: nat, long: nat, history: seq<Bar>): RawSignal
    requires short > 0 && long > 0
  {
    if |history| < Larger(short, long) then Number(0.0)
    else
      var closes := SeriesOf(history[|history| - long..], Close);
      Number(Compare(Average(Sum(LastOf(closes, short)), short), Average(Sum(closes), long)) as real)
  }

  function RollingMean(values: seq<real>, window: nat): (r: seq<Num>)
    requires window > 0
    ensures |r| == |values|
  {
    Rolled(Known(values), window, MeanOf)
  }

  function SignOf(difference: Num): int {
    if difference.None? then 0 else if difference.value > 0.0 then 1 else if difference.value < 0.0 then -1 else 0
  }

  function CrossoverSeries(short: nat, long: nat, bars: seq<Bar>): seq<RawSignal>
    requires short > 0 && long > 0
  {
    var close := SeriesOf(bars, Close);
    var difference := Minus(RollingMean(close, short), RollingMean(close, long));
    AfterWarmup(seq(|bars|, i requires 0 <= i < |bars| => SignOf(difference[i])), Larger(short, long) - 1)
  }

  function CrossoverStrategy(short: nat, long: nat): Strategy
    requires short > 0 && long > 0
  {
    Strategy(history => CrossoverSignal(short, long, history), Some(bars => CrossoverSeries(short, long, bars)))
  }

  lemma {:induction false} TotalOfKnown(xs: seq<real>)
    ensures AllKnown(Known(xs)) && Total(Known(xs)) == Sum(xs)
  {
    if xs != [] {
      var init := xs[..|xs| - 1];
      TotalOfKnown(init);
      assert Known(xs)[..|xs| - 1] == Known(init);
    }
  }

  lemma RollingMeanAt(values: seq<real>, window: nat, i: nat)
    requires window > 0 && window - 1 <= i < |values|
    ensures RollingMean(values, window)[i] == Some(Average(Sum(values[i + 1 - window..i + 1]), window))
  {
    hide Average;
    var slice := values[i + 1 - window..i + 1];
    assert Known(values)[i + 1 - window..i + 1] == Known(slice);
    TotalOfKnown(slice);
    assert RollingMean(values, window)[i] == MeanOf(Known(slice));
    assert |Known(slice)| == window;
  }

  lemma ClosesSlice(bars: seq<Bar>, i: nat, long: nat)
    requires long <= i + 1 <= |bars|
    ensures SeriesOf(bars[..i + 1][i + 1 - long..], Close) == SeriesOf(bars, Close)[i + 1 - long..i + 1]
  {
  }

  lemma CrossoverAt(short: nat, long: nat, bars: seq<Bar>, i: nat)
    requires 0 < short <= long && i < |bars|
    ensures CrossoverSeries(short, long, bars)[i] == CrossoverSignal(short, long, bars[..i + 1])
  {
    hide Average;
    hide Sum;
    hide RollingMean;
    var close := SeriesOf(bars, Close);
    if long <= i + 1 {
      RollingMeanAt(close, short, i);
      RollingMeanAt(close, long, i);
      ClosesSlice(bars, i, long);
      assert LastOf(close[i + 1 - long..i + 1], short) == close[i + 1 - short..i + 1];
    }
  }

  // ---------- a short window longer than the long one ----------

  lemma {:induction false} SumOfOnes(xs: seq<real>)
    requires forall i :: 0 <= i < |xs| ==> xs[i] == 1.0
    ensures Sum(xs) == |xs| as real
  {
    if xs != [] {
      SumOfOnes(xs[..|xs| - 1]);
    }
  }

  function FlatMarket(count: nat): seq<Bar> {
    seq(count, i => Bar(i as real, None, None, 1.0, None))
  }

  lemma AveragesOfOnes(short: nat, long: nat)
    requires 0 < long < short
    ensures Average(long as real, short) < 1.0 && Average(long as real, long) == 1.0
        && Average(short as real, short) == 1.0
  {
    hide Average;
    PartOfWhole(long, short);
    WholeOfWhole(long);
    WholeOfWhole(short);
  }

  lemma WholeOfWhole(count: nat)
    requires 0 < count
    ensures Average(count as real, count) == 1.0
  {
  }

  lemma PartOfWhole(part: nat, count: nat)
    requires part < count
    ensures Average(part as real, count) < 1.0
  {
    var share, whole := Average(part as real, count), count as real;
    assert Times(share, whole) == part as real && Times(1.0, whole) == whole;
    if 1.0 <= share {
      TimesScales(1.0, share, whole);
    }
  }

  lemma FlatSeries(short: nat, long: nat)
    requires 0 < long < short
    ensures CrossoverSeries(short, long, FlatMarket(short))[short - 1] == Number(0.0)
  {
    hide Average;
    hide Rolled;
    var close := SeriesOf(FlatMarket(short), Close);
    RollingMeanAt(close, short, short - 1);
    RollingMeanAt(close, long, short - 1);
    SumOfOnes(close[0..short]);
    SumOfOnes(close[short - long..short]);
    AveragesOfOnes(short, long);
  }

  /** On a flat market the per-bar form divides a sum of only `long` closes by `short`, and goes short. */
  lemma FlatSignal(short: nat, long: nat)
    requires 0 < long < short
    ensures CrossoverSignal(short, long, FlatMarket(short)[..short]) == Number(-1.0)
  {
    hide Average;
    var bars := FlatMarket(short);
    var closes := SeriesOf(bars[..short][short - long..], Close);
    SumOfOnes(closes);
    AveragesOfOnes(short, long);
    assert LastOf(closes, short) == closes;
  }

  /** The crossover's forms agree on every market if and only if the short window is no longer than the long one. */
  lemma CrossoverFormsAgree(short: nat, long: nat)
    requires short > 0 && long > 0
    ensures (forall bars :: FormsAgree(CrossoverStrategy(short, long), bars)) <==> short <= long
  {
    hide CrossoverSeries;
    hide CrossoverSignal;
    if short <= long {
      forall bars
        ensures FormsAgree(CrossoverStrategy(short, long), bars)
      {
        hide CrossoverSeries;
        hide CrossoverSignal;
        CrossoverSize(short, long, bars);
        forall i | 0 <= i < |bars|
          ensures CrossoverSeries(short, long, bars)[i] == CrossoverSignal(short, long, bars[..i + 1])
        {
          CrossoverAt(short, long, bars, i);
        }
      }
    } else {
      var bars := FlatMarket(short);
      CrossoverSize(short, long, bars);
      FlatSeries(short, long);
      FlatSignal(short, long);
      assert SignalsOf(CrossoverStrategy(short, long), bars)[short - 1] == Number(0.0);
      assert SignalsOf(PerBarOnly(CrossoverStrategy(short, long)), bars)[short - 1] == Number(-1.0);
      assert !FormsAgree(CrossoverStrategy(short, long), bars);
    }
  }

  lemma CrossoverSize(short: nat, long: nat, bars: seq<Bar>)
    requires short > 0 && long > 0
    ensures |CrossoverSeries(short, long, bars)| == |bars|
  {
  }

  // ---------- threshold momentum ----------

  function PriceReturn(current: real, baseline: real): real
    requires baseline > 0.0
  {
    (current - baseline) / baseline
  }

  function MomentumOf(current: real, baseline: real, threshold: real): int {
    if baseline <= 0.0 then 0
    else if PriceReturn(current, baseline) > threshold then 1
    else if PriceReturn(current, baseline) < -threshold then -1
    else 0
  }

  function MomentumSignal(lookback: nat, threshold: real, history: seq<Bar>): RawSignal {
    if |history| < lookback + 1 then Number(0.0)
    else Number(MomentumOf(history[|history| - 1].close, history[|history| - lookback - 1].close, threshold) as real)
  }

  function MomentumSeries(lookback: nat, threshold: real, bars: seq<Bar>): seq<RawSignal> {
    var close := SeriesOf(bars, Close);
    var baseline := Shifted(Known(close), lookback);
    AfterWarmup(
      seq(|bars|, i requires 0 <= i < |bars| =>
        if baseline[i].None? then 0 else MomentumOf(close[i], baseline[i].value, threshold)),
      lookback)
  }

  function Momentum(lookback: nat, threshold: real): Strategy {
    Strategy(history => MomentumSignal(lookback, threshold, history),
      Some(bars => MomentumSeries(lookback, threshold, bars)))
  }

  lemma MomentumAt(lookback: nat, threshold: real, bars: seq<Bar>, i: nat)
    requires i < |bars|
    ensures MomentumSeries(lookback, threshold, bars)[i] == MomentumSignal(lookback, threshold, bars[..i + 1])
  {
    hide MomentumOf;
  }

  lemma MomentumFormsAgree(lookback: nat, threshold: real, bars: seq<Bar>)
    ensures FormsAgree(Momentum(lookback, threshold), bars)
  {
    hide MomentumSignal;
    hide MomentumOf;
    forall i | 0 <= i < |bars|
      ensures MomentumSeries(lookback, threshold, bars)[i] == MomentumSignal(lookback, threshold, bars[..i + 1])
    {
      MomentumAt(lookback, threshold, bars, i);
    }
  }
}
