/**
 * What the moving-average, momentum, efficiency and VWAP rules of `src/backtest/strategies.py` and
 * `src/signals/regime.py` ask of the bars themselves.
 */
module TrendRules {
  import opened Numbers
  import opened Market
  import opened Latch
  import opened Indicators
  import opened Strategies
  import opened Crossover
  import opened Efficiency
  import opened VolumeWeighted
  import opened EmaVwap
  import opened Channels

  // ---------- momentum ----------

  lemma ReturnAbove(current: real, baseline: real, threshold: real)
    requires baseline > 0.0
    ensures PriceReturn(current, baseline) > threshold <==> current - baseline > Times(threshold, baseline)
    ensures PriceReturn(current, baseline) < -threshold <==> baseline - current > Times(threshold, baseline)
  {
    var move := PriceReturn(current, baseline);
    assert Times(move, baseline) == current - baseline;
    TimesCompare(move, threshold, baseline);
    TimesCompare(-threshold, move, baseline);
    assert Times(-threshold, baseline) == -Times(threshold, baseline);
  }

  /**
   * The momentum signal after bar `t` is up when the close has risen over the last `lookback` bars by more than the
   * threshold's share of a positive baseline, else down when it has fallen by more than that, and 0 otherwise.
   */
  lemma MomentumMeans(lookback: nat, threshold: real, bars: seq<Bar>, t: nat)
    requires t < |bars|
    ensures var signals := SignalsOf(Momentum(lookback, threshold), bars);
            var base := if lookback <= t then bars[t - lookback].close else 0.0;
            var up := base > 0.0 && bars[t].close - base > Times(threshold, base);
            var down := base > 0.0 && base - bars[t].close > Times(threshold, base);
            |signals| == |bars| && SignalIs(signals[t], up, !up && down)
  {
    hide PriceReturn;
    hide SignalsOf;
    MomentumFormsAgree(lookback, threshold, bars);
    MomentumPerBar(lookback, threshold, bars, t);
    if lookback <= t && bars[t - lookback].close > 0.0 {
      ReturnAbove(bars[t].close, bars[t - lookback].close, threshold);
    }
  }

  lemma MomentumPerBar(lookback: nat, threshold: real, bars: seq<Bar>, t: nat)
    requires t < |bars| && FormsAgree(Momentum(lookback, threshold), bars)
    ensures var signals := SignalsOf(Momentum(lookback, threshold), bars);
            |signals| == |bars| && signals[t] == MomentumSignal(lookback, threshold, bars[..t + 1])
  {
    hide MomentumSignal;
    hide MomentumSeries;
    assert SignalsOf(PerBarOnly(Momentum(lookback, threshold)), bars)[t]
        == MomentumSignal(lookback, threshold, bars[..t + 1]);
  }

  // ---------- crossing averages ----------

  /** The closes of the last `count` bars up to and including bar `t`. */
  ghost function LastCloses(bars: seq<Bar>, t: nat, count: nat): (closes: seq<real>)
    requires count <= t + 1 <= |bars|
    ensures |closes| == count
  {
    seq(count, k requires 0 <= k < count => bars[t + 1 - count + k].close)
  }

  lemma AveragesCompare(a: real, m: nat, b: real, n: nat)
    requires 0 < m && 0 < n
    ensures Average(a, m) > Average(b, n) <==> Times(a, n as real) > Times(b, m as real)
  {
    hide Times;
    hide Average;
    var x, y, p, q := Average(a, m), Average(b, n), m as real, n as real;
    AverageTimes(a, m);
    AverageTimes(b, n);
    TimesPositive(p, q);
    TimesCompare(x, y, Times(p, q));
    Regroup(x, p, q);
    Regroup(y, q, p);
    Commute(p, q);
  }

  lemma Regroup(x: real, p: real, q: real)
    ensures Times(x, Times(p, q)) == Times(Times(x, p), q)
  {
  }

  lemma Commute(p: real, q: real)
    ensures Times(p, q) == Times(q, p)
  {
  }

  lemma CrossoverOnCloses(short: nat, long: nat, bars: seq<Bar>, t: nat)
    requires 0 < short <= long <= t + 1 <= |bars|
    ensures CrossoverSignal(short, long, bars[..t + 1])
         == Number(Compare(Average(Sum(LastCloses(bars, t, short)), short),
                           Average(Sum(LastCloses(bars, t, long)), long)) as real)
  {
    hide Sum;
    hide Average;
    hide Compare;
    var history := bars[..t + 1];
    var closes := SeriesOf(history[|history| - long..], Close);
    assert closes == LastCloses(bars, t, long);
    assert LastOf(closes, short) == LastCloses(bars, t, short);
  }

  lemma CompareSignal(x: real, y: real)
    ensures SignalIs(Number(Compare(x, y) as real), x > y, x < y)
  {
  }

  /** The crossover is up when the mean of the last `short` closes exceeds that of the last `long`, down when below. */
  lemma CrossoverMeans(short: nat, long: nat, bars: seq<Bar>, t: nat)
    requires 0 < short <= long && t < |bars|
    ensures var signals := SignalsOf(CrossoverStrategy(short, long), bars);
            && |signals| == |bars|
            && (t + 1 < long ==> signals[t] == Number(0.0))
            && (long <= t + 1 ==>
                  var near, far := Sum(LastCloses(bars, t, short)), Sum(LastCloses(bars, t, long));
                  SignalIs(signals[t], Times(near, long as real) > Times(far, short as real),
                           Times(near, long as real) < Times(far, short as real)))
  {
    hide Sum;
    hide Average;
    hide Times;
    hide CrossoverSeries;
    hide LastCloses;
    hide SignalIs;
    CrossoverSize(short, long, bars);
    CrossoverAt(short, long, bars, t);
    if long <= t + 1 {
      var near, far := Sum(LastCloses(bars, t, short)), Sum(LastCloses(bars, t, long));
      CrossoverOnCloses(short, long, bars, t);
      CompareSignal(Average(near, short), Average(far, long));
      AveragesCompare(near, short, far, long);
      AveragesCompare(far, long, near, short);
    }
  }

  // ---------- the regime ----------

  /** The way the last `count` closes up to bar `t` went, from one to the next. */
  ghost function PathOf(bars: seq<Bar>, t: nat, count: nat): real
    requires 0 < count <= t + 1 <= |bars|
  {
    if count == 1 then 0.0
    else PathOf(bars, t, count - 1) + Abs(bars[t + 2 - count].close - bars[t + 1 - count].close)
  }

  lemma {:induction false} PathIsSum(bars: seq<Bar>, t: nat, count: nat)
    requires 0 < count <= t + 1 <= |bars|
    ensures PathOf(bars, t, count) == Sum(AbsoluteMoves(LastCloses(bars, t, count)))
  {
    hide Sum;
    hide Move;
    if count == 1 {
      SumEmpty();
      assert AbsoluteMoves(LastCloses(bars, t, 1)) == [];
    } else {
      PathIsSum(bars, t, count - 1);
      var more, fewer := AbsoluteMoves(LastCloses(bars, t, count)), AbsoluteMoves(LastCloses(bars, t, count - 1));
      var step := Move(bars[t + 1 - count].close, bars[t + 2 - count].close);
      MovesFromFront(bars, t, count);
      SumConcat([step], fewer);
      SumOne(step);
      MoveIsDistance(bars[t + 1 - count].close, bars[t + 2 - count].close);
    }
  }

  lemma MovesFromFront(bars: seq<Bar>, t: nat, count: nat)
    requires 1 < count <= t + 1 <= |bars|
    ensures AbsoluteMoves(LastCloses(bars, t, count))
         == [Move(bars[t + 1 - count].close, bars[t + 2 - count].close)]
            + AbsoluteMoves(LastCloses(bars, t, count - 1))
  {
    hide Move;
    hide LastCloses;
    hide AbsoluteMoves;
    var more, fewer := LastCloses(bars, t, count), LastCloses(bars, t, count - 1);
    LastClosesTail(bars, t, count);
    forall k | 0 <= k < count - 2
      ensures AbsoluteMoves(more)[1 + k] == AbsoluteMoves(fewer)[k]
    {
      MoveAt(more, 1 + k);
      MoveAt(fewer, k);
    }
    MoveAt(more, 0);
  }

  lemma LastClosesTail(bars: seq<Bar>, t: nat, count: nat)
    requires 1 < count <= t + 1 <= |bars|
    ensures var more, fewer := LastCloses(bars, t, count), LastCloses(bars, t, count - 1);
            && more[0] == bars[t + 1 - count].close && more[1] == bars[t + 2 - count].close
            && forall k :: 0 <= k < count - 1 ==> more[1 + k] == fewer[k]
  {
  }

  lemma MoveIsDistance(from: real, to: real)
    ensures Move(from, to) == Abs(to - from)
  {
  }

  lemma SumOne(x: real)
    ensures Sum([x]) == x
  {
    SumAppend([], x);
    SumEmpty();
    assert [] + [x] == [x];
  }

  lemma RatioReaches(net: real, path: real, threshold: real)
    requires path > 0.0
    ensures NetOverPath(net, path) >= threshold <==> net >= Times(threshold, path)
  {
    var ratio := net / path;
    assert Times(ratio, path) == net;
    TimesCompare(threshold, ratio, path);
  }

  /**
   * From the second bar on the market is trending exactly when, over the last `window` closes, the net move is at least
   * the threshold's share of the way gone; where nothing moved, when the threshold is not positive.
   */
  lemma RegimeMeans(bars: seq<Bar>, window: nat, threshold: real, t: nat)
    requires 0 < window && 0 < t < |bars|
    ensures var count := if window <= t + 1 then window else t + 1;
            var net, path := Abs(bars[t].close - bars[t + 1 - count].close), PathOf(bars, t, count);
            ClassifyRegime(bars[..t + 1], window, threshold).Trending?
            <==> if path > 0.0 then net >= Times(threshold, path) else threshold <= 0.0
  {
    hide ClassifyRegime;
    hide EfficiencyRatio;
    hide NetOverPath;
    hide PathOf;
    hide Times;
    var count := if window <= t + 1 then window else t + 1;
    var net, path := Abs(bars[t].close - bars[t + 1 - count].close), PathOf(bars, t, count);
    RegimeByRatio(bars, window, threshold, t);
    RatioOfPath(bars, t, count);
    if path > 0.0 {
      RatioReaches(net, path, threshold);
    } else {
      NoWay(net, path);
    }
  }

  /** The gate lets a signal through, from the second bar on, exactly when that regime is the one it requires. */
  lemma GateMeans(signals: seq<RawSignal>, required: Regime, window: nat, threshold: real, bars: seq<Bar>, t: nat)
    requires 0 < window && |signals| == |bars| && 0 < t < |bars|
    ensures var count := if window <= t + 1 then window else t + 1;
            var net, path := Abs(bars[t].close - bars[t + 1 - count].close), PathOf(bars, t, count);
            var trending := if path > 0.0 then net >= Times(threshold, path) else threshold <= 0.0;
            GatedSeries(signals, required, window, threshold, bars)[t]
            == if trending == required.Trending? then signals[t] else Number(0.0)
  {
    hide ClassifyRegime;
    hide EfficiencySeries;
    hide PathOf;
    hide Times;
    RegimeMeans(bars, window, threshold, t);
    ClassifyByRatio(bars, window, threshold, t);
  }

  lemma RegimeByRatio(bars: seq<Bar>, window: nat, threshold: real, t: nat)
    requires 0 < window && 0 < t < |bars|
    ensures var count := if window <= t + 1 then window else t + 1;
            ClassifyRegime(bars[..t + 1], window, threshold).Trending?
            <==> EfficiencyRatio(LastCloses(bars, t, count)) >= threshold
  {
    hide EfficiencyRatio;
    hide LastCloses;
    hide SeriesOf;
    RecentCloses(bars, window, t);
  }

  lemma RatioOfPath(bars: seq<Bar>, t: nat, count: nat)
    requires 0 < count <= t + 1 <= |bars|
    ensures EfficiencyRatio(LastCloses(bars, t, count))
         == NetOverPath(Abs(bars[t].close - bars[t + 1 - count].close), PathOf(bars, t, count))
  {
    hide NetOverPath;
    hide Sum;
    hide AbsoluteMoves;
    hide Move;
    hide PathOf;
    PathIsSum(bars, t, count);
    MoveIsDistance(bars[t + 1 - count].close, bars[t].close);
    if count == 1 {
      OneClose(bars, t);
      NoWay(Abs(bars[t].close - bars[t].close), 0.0);
    }
  }

  lemma RecentCloses(bars: seq<Bar>, window: nat, t: nat)
    requires 0 < window && t < |bars|
    ensures var count, history := if window <= t + 1 then window else t + 1, bars[..t + 1];
            SeriesOf(if window <= |history| then history[|history| - window..] else history, Close)
            == LastCloses(bars, t, count)
  {
    if window <= t + 1 {
      assert SeriesOf(bars[..t + 1][t + 1 - window..], Close) == LastCloses(bars, t, window);
    } else {
      assert SeriesOf(bars[..t + 1], Close) == LastCloses(bars, t, t + 1);
    }
  }

  lemma NoWay(net: real, path: real)
    ensures path <= 0.0 ==> NetOverPath(net, path) == 0.0
  {
  }

  lemma OneClose(bars: seq<Bar>, t: nat)
    requires t < |bars|
    ensures PathOf(bars, t, 1) == 0.0
  {
  }

  // ---------- the exponential average ----------

  /** The weight of value `k` in the average of `n` values: each bar keeps the share `1 - alpha` of those before. */
  ghost function Weight(alpha: real, k: nat, n: nat): real
    requires k < n
  {
    if k == 0 then Pow(1.0 - alpha, n - 1) else Times(alpha, Pow(1.0 - alpha, n - 1 - k))
  }

  ghost function WeightedValues(values: seq<real>, alpha: real): (r: seq<real>)
    ensures |r| == |values|
  {
    seq(|values|, k requires 0 <= k < |values| => Times(Weight(alpha, k, |values|), values[k]))
  }

  lemma {:induction false} SumScaled(xs: seq<real>, ys: seq<real>, factor: real)
    requires |xs| == |ys| && forall k :: 0 <= k < |xs| ==> ys[k] == Times(factor, xs[k])
    ensures Sum(ys) == Times(factor, Sum(xs))
  {
    hide Times;
    if xs == [] {
      SumEmpty();
      EmaVwapZero(factor);
    } else {
      var n := |xs| - 1;
      SumScaled(xs[..n], ys[..n], factor);
      SumAppend(xs[..n], xs[n]);
      SumAppend(ys[..n], ys[n]);
      assert xs == xs[..n] + [xs[n]] && ys == ys[..n] + [ys[n]];
      Distribute(factor, Sum(xs[..n]), xs[n]);
    }
  }

  lemma EmaVwapZero(factor: real)
    ensures Times(factor, 0.0) == 0.0
  {
  }

  lemma Distribute(factor: real, x: real, y: real)
    ensures Times(factor, x + y) == Times(factor, x) + Times(factor, y)
  {
  }

  lemma WeightsShrink(alpha: real, k: nat, n: nat, value: real)
    requires k < n
    ensures Times(Weight(alpha, k, n + 1), value) == Times(1.0 - alpha, Times(Weight(alpha, k, n), value))
  {
    var rest := 1.0 - alpha;
    if k == 0 {
      Regroup(rest, Pow(rest, n - 1), value);
    } else {
      var p := Pow(rest, n - 1 - k);
      assert Pow(rest, n - k) == Times(rest, p);
      Regroup(alpha, rest, p);
      Commute(alpha, rest);
      Regroup(rest, alpha, p);
      Regroup(rest, Times(alpha, p), value);
    }
  }

  lemma BlendWeighs(last: real, value: real, alpha: real)
    ensures Blend(last, value, alpha) == Times(1.0 - alpha, last) + Times(alpha, value)
  {
  }

  lemma NewestWeight(alpha: real, n: nat, value: real)
    requires n > 0
    ensures Times(Weight(alpha, n, n + 1), value) == Times(alpha, value)
    ensures Times(Weight(alpha, 0, 1), value) == value
  {
    assert Pow(1.0 - alpha, 0) == 1.0;
  }

  /** The exponential average is an average of all values so far, each weighing `2 / (span + 1)` when it comes in. */
  lemma {:induction false} EmaMeans(values: seq<real>, span: nat, alpha: real)
    requires values != [] && span >= 1 && Times(alpha, span as real + 1.0) == 2.0
    ensures EmaOf(values, span)[|values| - 1] == Sum(WeightedValues(values, alpha))
  {
    hide Times;
    hide Blend;
    hide Weight;
    hide Sum;
    var n := |values| - 1;
    AlphaIs(alpha, span);
    if n == 0 {
      NewestWeight(alpha, 1, values[0]);
      SumOne(values[0]);
      assert WeightedValues(values, alpha) == [values[0]];
    } else {
      var init := values[..n];
      EmaMeans(init, span, alpha);
      var few, all := WeightedValues(init, alpha), WeightedValues(values, alpha);
      forall k | 0 <= k < n
        ensures all[..n][k] == Times(1.0 - alpha, few[k])
      {
        WeightsShrink(alpha, k, n, values[k]);
      }
      SumScaled(few, all[..n], 1.0 - alpha);
      NewestWeight(alpha, n, values[n]);
      SumAppend(all[..n], all[n]);
      assert all == all[..n] + [all[n]];
      BlendWeighs(Sum(few), values[n], alpha);
    }
  }

  lemma AlphaIs(alpha: real, span: nat)
    requires span >= 1 && Times(alpha, span as real + 1.0) == 2.0
    ensures Alpha(span) == alpha
  {
    var n := span as real + 1.0;
    assert Times(Alpha(span), n) == 2.0;
    TimesCompare(alpha, Alpha(span), n);
    TimesCompare(Alpha(span), alpha, n);
  }

  // ---------- the VWAP ----------

  /** The bars `lo` to `t` are the last `window` up to `t`, or, when `window` is 0, those of its UTC day so far. */
  ghost predicate VwapCovers(bars: seq<Bar>, window: nat, lo: nat, t: nat)
    requires lo <= t < |bars|
  {
    if window > 0 then lo == (if window <= t + 1 then t + 1 - window else 0)
    else
      && (forall j :: lo <= j <= t ==> DayOf(bars[j]) == DayOf(bars[t]))
      && (lo > 0 ==> DayOf(bars[lo - 1]) != DayOf(bars[t]))
  }

  ghost function DayOf(bar: Bar): int {
    (bar.timestamp / 86400.0).Floor
  }

  ghost function VolumeOf(bar: Bar): real {
    match bar.volume
    case Some(volume) => volume
    case None => 0.0
  }

  /** Three times the typical price. */
  ghost function PricesOf(bar: Bar): real {
    Top(bar) + Bottom(bar) + bar.close
  }

  ghost function Traded(bars: seq<Bar>, lo: nat, hi: nat): real
    requires lo <= hi <= |bars|
  {
    if lo == hi then 0.0 else Traded(bars, lo, hi - 1) + VolumeOf(bars[hi - 1])
  }

  ghost function TradedValue(bars: seq<Bar>, lo: nat, hi: nat): real
    requires lo <= hi <= |bars|
  {
    if lo == hi then 0.0 else TradedValue(bars, lo, hi - 1) + Times(PricesOf(bars[hi - 1]), VolumeOf(bars[hi - 1]))
  }

  ghost function TypicalOf(bars: seq<Bar>): (r: seq<real>)
    ensures |r| == |bars|
  {
    Typical(SeriesOf(bars, High), SeriesOf(bars, Low), SeriesOf(bars, Close))
  }

  lemma BarMeans(bars: seq<Bar>, j: nat)
    requires j < |bars|
    ensures 3.0 * TypicalOf(bars)[j] == PricesOf(bars[j]) && SeriesOf(bars, Volume)[j] == VolumeOf(bars[j])
    ensures 3.0 * Weighted(TypicalOf(bars), SeriesOf(bars, Volume))[j] == Times(PricesOf(bars[j]), VolumeOf(bars[j]))
  {
    var typical := TypicalOf(bars)[j];
    assert 3.0 * typical == PricesOf(bars[j]);
    Thrice(typical, VolumeOf(bars[j]));
  }

  lemma Thrice(x: real, y: real)
    ensures 3.0 * Times(x, y) == Times(3.0 * x, y)
  {
  }

  lemma {:induction false} TradedSums(bars: seq<Bar>, lo: nat, hi: nat)
    requires lo <= hi <= |bars|
    ensures Sum(SeriesOf(bars, Volume)[lo..hi]) == Traded(bars, lo, hi)
    ensures 3.0 * Sum(Weighted(TypicalOf(bars), SeriesOf(bars, Volume))[lo..hi]) == TradedValue(bars, lo, hi)
  {
    hide Sum;
    hide Times;
    hide SeriesOf;
    hide TypicalOf;
    hide Weighted;
    var volume, weighted := SeriesOf(bars, Volume), Weighted(TypicalOf(bars), SeriesOf(bars, Volume));
    if lo == hi {
      SumEmpty();
      assert volume[lo..hi] == [] && weighted[lo..hi] == [];
    } else {
      TradedSums(bars, lo, hi - 1);
      BarMeans(bars, hi - 1);
      assert volume[lo..hi] == volume[lo..hi - 1] + [volume[hi - 1]];
      assert weighted[lo..hi] == weighted[lo..hi - 1] + [weighted[hi - 1]];
      SumAppend(volume[lo..hi - 1], volume[hi - 1]);
      SumAppend(weighted[lo..hi - 1], weighted[hi - 1]);
    }
  }

  lemma {:induction false} VwapStart(bars: seq<Bar>, window: nat, lo: nat, t: nat)
    requires lo <= t < |bars| && VwapCovers(bars, window, lo, t)
    ensures lo == AverageStart(Epochs(bars), window, t)
  {
    var session := Sessions(Epochs(bars));
    assert forall j :: 0 <= j < |bars| ==> session[j] == DayOf(bars[j]);
    if window == 0 {
      var start := SessionStart(session, t);
      assert start > 0 ==> session[start - 1] != session[t];
    }
  }

  lemma AverageMeans(value: real, volume: real, typical: real)
    ensures volume > 0.0 ==> Times(3.0 * Ratio(value, volume, typical), volume) == 3.0 * value
    ensures volume <= 0.0 ==> Ratio(value, volume, typical) == typical
  {
    if volume > 0.0 {
      Thrice(value / volume, volume);
    }
  }

  /** The VWAP level is traded value over traded volume of the bars it covers, the bar's own typical price if none. */
  lemma LevelMeans(bars: seq<Bar>, window: nat, lo: nat, t: nat)
    requires lo <= t < |bars| && VwapCovers(bars, window, lo, t)
    ensures var level := Level(bars, window)[t];
            && level.Some?
            && var volume := Traded(bars, lo, t + 1);
               if volume > 0.0 then Times(3.0 * level.value, volume) == TradedValue(bars, lo, t + 1)
               else 3.0 * level.value == PricesOf(bars[t])
  {
    hide Vwap;
    hide AverageStart;
    hide Sum;
    hide Times;
    hide SeriesOf;
    hide Ratio;
    hide Weighted;
    hide Typical;
    hide VwapCovers;
    var high, low, close := SeriesOf(bars, High), SeriesOf(bars, Low), SeriesOf(bars, Close);
    var volume, epoch := SeriesOf(bars, Volume), Epochs(bars);
    VwapStart(bars, window, lo, t);
    VwapAt(high, low, close, volume, epoch, window, t);
    TradedSums(bars, lo, t + 1);
    BarMeans(bars, t);
    AverageMeans(Sum(Weighted(TypicalOf(bars), volume)[lo..t + 1]), Sum(volume[lo..t + 1]), TypicalOf(bars)[t]);
  }

  // ---------- the EMA and VWAP rule ----------

  /**
   * Enter long when a close breaks above the VWAP, not having been above it, and lies above the EMA, which with the
   * trend filter must lie above the VWAP itself; leave when a close lies below the EMA. The short side mirrors it.
   */
  lemma CrossingsMean(bars: seq<Bar>, p: Params, t: nat)
    requires p.emaWindow >= 1 && t < |bars|
    ensures var c, level, trail := Crossed(bars, p), Level(bars, p.vwapWindow), Trail(bars, p.emaWindow);
            var close, now, ema := bars[t].close, level[t].value, trail[t].value;
            && (c.longEntry[t] <==>
                && t > 0 && bars[t - 1].close <= level[t - 1].value && close > now && close > ema
                && (p.trendFilter ==> ema > now))
            && (c.longExit[t] <==> close < ema)
            && (c.shortEntry[t] <==>
                && t > 0 && bars[t - 1].close >= level[t - 1].value && close < now && close < ema
                && (p.trendFilter ==> ema < now))
            && (c.shortExit[t] <==> close > ema)
  {
    hide SeriesOf;
    hide Vwap;
    hide EmaOf;
    FieldsMean(bars, t);
    if t > 0 {
      FieldsMean(bars, t - 1);
    }
  }

  /** The time is the start of the UTC day, to a millionth of a second. */
  ghost predicate Midnight(time: real, day: int) {
    0.0 <= time - Times(day as real, 86400.0) < 0.000001
  }

  ghost predicate AtMidnight(time: real) {
    exists day :: Midnight(time, day)
  }

  /** A bar is marked as a day's last exactly when the bar after it would open at midnight UTC. */
  lemma LastOfDayMeans(epoch: seq<real>, step: real, i: nat)
    requires i < |epoch|
    ensures LastOfDay(epoch, step)[i] <==> AtMidnight(epoch[i] + step)
  {
    var time := epoch[i] + step;
    var day := (time / DAY).Floor;
    WholeDays(time, day);
    assert LastOfDay(epoch, step)[i] <==> Midnight(time, day);
    if other :| Midnight(time, other) {
      SameDay(time, day, other);
    }
  }

  lemma WholeDays(x: real, day: int)
    requires day == (x / DAY).Floor
    ensures Remainder(x, DAY) == x - Times(day as real, 86400.0)
    ensures 0.0 <= x - Times(day as real, 86400.0) < 86400.0
  {
    assert x / DAY * DAY == x;
    assert day as real <= x / DAY < day as real + 1.0;
  }

  lemma SameDay(x: real, day: int, other: int)
    requires 0.0 <= x - Times(day as real, 86400.0) < 86400.0
    requires 0.0 <= x - Times(other as real, 86400.0) < 86400.0
    ensures day == other
  {
  }

  /** With the session exit nothing is held after a marked bar. */
  lemma FlatAtMark(c: Crossings, last: seq<bool>, allowShort: bool)
    requires c.Sized(|last|) && last != [] && last[|last| - 1]
    ensures LatchPosition(FlatAtDayEnd(c, last, allowShort)) == 0
  {
    hide LatchPosition;
    PositionAfterMark(c, last, allowShort);
  }

  /** With the session exit, entries are dropped and exits added on marked bars; without it, the rules stay. */
  lemma SessionRulesMean(bars: seq<Bar>, p: Params, t: nat)
    requires p.emaWindow >= 1 && t < |bars|
    ensures var r, c := RulesAt(bars, p), Crossed(bars, p);
            var marked := p.sessionExit && |bars| > 1 && DayEnds(Epochs(bars))[t];
            && (r.longEntry[t] <==> c.longEntry[t] && !marked) && (r.longExit[t] <==> c.longExit[t] || marked)
            && (r.shortEntry.Some? <==> p.allowShort) && (r.shortExit.Some? <==> p.allowShort)
            && (p.allowShort ==> (r.shortEntry.value[t] <==> c.shortEntry[t] && !marked))
            && (p.allowShort ==> (r.shortExit.value[t] <==> c.shortExit[t] || marked))
  {
    hide Crossed;
    hide DayEnds;
  }

  /** The rule signals what these masks latch, once there are three EMA spans of bars and a VWAP window and one more. */
  lemma EmaVwapSignals(bars: seq<Bar>, p: Params, t: nat)
    requires p.emaWindow >= 1 && t < |bars|
    ensures var signals, r := SignalsOf(EmaVwapStrategy(p), bars), RulesAt(bars, p);
            var warm := 3 * p.emaWindow <= t + 1 && p.vwapWindow <= t && 1 <= t;
            && |signals| == |bars|
            && SignalIs(signals[t], warm && LongHeld(r, t), warm && ShortHeld(r, t))
  {
    hide RulesAt;
    hide LongHeld;
    hide ShortHeld;
    hide SignalsOf;
    hide Latched;
    LatchedSignals(RulesOf(p), Warmup(p), bars, t);
  }
}
