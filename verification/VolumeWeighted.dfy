/**
 * The volume-weighted average price of `src/backtest/indicators.py`: convolutions for the rolling form, running
 * sums minus per-session offsets for the session form. Both are proved to be the plain average over their window.
 */
module VolumeWeighted {
  import opened Numbers

  const SESSION_SECONDS := 86400.0

  function Typical(high: seq<real>, low: seq<real>, close: seq<real>): (r: seq<real>)
    requires |high| == |low| == |close|
    ensures |r| == |close|
  {
    seq(|close|, i requires 0 <= i < |close| => (high[i] + low[i] + close[i]) / 3.0)
  }

  function Weighted(typical: seq<real>, volume: seq<real>): (r: seq<real>)
    requires |typical| == |volume|
    ensures |r| == |volume|
  {
    seq(|volume|, i requires 0 <= i < |volume| => Times(typical[i], volume[i]))
  }

  function Ratio(priceVolume: real, totalVolume: real, typical: real): real {
    if totalVolume > 0.0 then priceVolume / totalVolume else typical
  }

  function Ratios(priceVolume: seq<real>, totalVolume: seq<real>, typical: seq<real>): (r: seq<real>)
    requires |priceVolume| == |totalVolume| == |typical|
    ensures |r| == |typical|
  {
    seq(|typical|, i requires 0 <= i < |typical| => Ratio(priceVolume[i], totalVolume[i], typical[i]))
  }

  // ---------- rolling: convolution with a kernel of ones ----------

  /** The terms `a[i - k]` of the convolution at `i`, for the first `count` kernel positions that stay in range. */
  function ConvolvedAt(a: seq<real>, i: nat, count: nat): real
    requires i < |a|
  {
    if count == 0 then 0.0
    else ConvolvedAt(a, i, count - 1) + if count - 1 <= i then a[i - (count - 1)] else 0.0
  }

  function Convolved(a: seq<real>, window: nat): (r: seq<real>)
    ensures |r| == |a|
  {
    seq(|a|, i requires 0 <= i < |a| => ConvolvedAt(a, i, window))
  }

  function WindowStart(i: nat, window: nat): nat {
    if i + 1 < window then 0 else i + 1 - window
  }

  // ---------- session: running sums minus the sum before the session ----------

  function Sessions(epoch: seq<real>): (r: seq<int>)
    ensures |r| == |epoch|
  {
    seq(|epoch|, i requires 0 <= i < |epoch| => (epoch[i] / SESSION_SECONDS).Floor)
  }

  function Starts(session: seq<int>): (r: seq<bool>)
    ensures |r| == |session|
  {
    seq(|session|, i requires 0 <= i < |session| => i == 0 || session[i] != session[i - 1])
  }

  function RunningSum(values: seq<real>): (r: seq<real>)
    ensures |r| == |values|
  {
    if values == [] then []
    else
      var before := RunningSum(values[..|values| - 1]);
      before + [(if before == [] then 0.0 else before[|before| - 1]) + values[|values| - 1]]
  }

  /** How many entries of a mask are true. */
  function CountTrue(mask: seq<bool>): nat {
    if mask == [] then 0 else CountTrue(mask[..|mask| - 1]) + if mask[|mask| - 1] then 1 else 0
  }

  function FlatNonzero(mask: seq<bool>): (r: seq<nat>)
    ensures |r| == CountTrue(mask)
    ensures forall k :: 0 <= k < |r| ==> r[k] < |mask|
  {
    if mask == [] then []
    else FlatNonzero(mask[..|mask| - 1]) + if mask[|mask| - 1] then [|mask| - 1] else []
  }

  /** Each bar's group: the number of session starts up to it, less one. */
  function Groups(starts: seq<bool>): (r: seq<int>)
    ensures |r| == |starts|
  {
    seq(|starts|, i requires 0 <= i < |starts| => CountTrue(starts[..i + 1]) - 1)
  }

  /** The running sums less what had accumulated before each bar's session. */
  function SinceSessionStart(values: seq<real>, starts: seq<bool>): (r: seq<real>)
    requires |values| == |starts| && (starts != [] ==> starts[0])
    ensures |r| == |values|
  {
    var running, first, group := RunningSum(values), FlatNonzero(starts), Groups(starts);
    seq(|values|, i requires 0 <= i < |values| =>
      GroupInRange(starts, i);
      running[i] - ([0.0] + running)[first[group[i]]])
  }

  function Vwap(
    high: seq<real>, low: seq<real>, close: seq<real>, volume: seq<real>, epoch: Option<seq<real>>,
    window: int): Result<seq<real>>
    requires |high| == |low| == |close| == |volume|
    requires epoch.Some? ==> |epoch.value| == |close|
  {
    var typical := Typical(high, low, close);
    var weighted := Weighted(typical, volume);
    if window > 0 then
      Ok(Ratios(Convolved(weighted, window), Convolved(volume, window), typical))
    else if epoch == None then
      Err("a session VWAP needs each bar's time (epoch_seconds)")
    else
      var starts := Starts(Sessions(epoch.value));
      Ok(Ratios(SinceSessionStart(weighted, starts), SinceSessionStart(volume, starts), typical))
  }

  // ---------- the plain definition ----------

  /** Traded value over traded volume in bars `lo` up to, not including, `hi`; the last typical price if none traded. */
  function AverageOver(typical: seq<real>, volume: seq<real>, lo: nat, hi: nat): real
    requires |typical| == |volume| && lo < hi <= |volume|
  {
    Ratio(Sum(Weighted(typical, volume)[lo..hi]), Sum(volume[lo..hi]), typical[hi - 1])
  }

  /** The first bar of the run of equal sessions that contains bar `i`. */
  function SessionStart(session: seq<int>, i: nat): (s: nat)
    requires i < |session|
    ensures s <= i && forall j :: s <= j <= i ==> session[j] == session[i]
    ensures s == 0 || session[s - 1] != session[s]
  {
    if i == 0 || session[i] != session[i - 1] then i else SessionStart(session, i - 1)
  }

  // ---------- proofs ----------

  lemma {:induction false} CountTrueGrows(mask: seq<bool>, i: nat)
    requires i <= |mask|
    ensures CountTrue(mask[..i]) <= CountTrue(mask)
    ensures FlatNonzero(mask[..i]) <= FlatNonzero(mask)
  {
    if i < |mask| {
      var init := mask[..|mask| - 1];
      CountTrueGrows(init, i);
      assert init[..i] == mask[..i];
    } else {
      assert mask[..i] == mask;
    }
  }

  lemma GroupInRange(starts: seq<bool>, i: nat)
    requires i < |starts| && starts[0]
    ensures 0 <= Groups(starts)[i] < |FlatNonzero(starts)|
  {
    CountTrueGrows(starts[..i + 1], 1);
    assert starts[..i + 1][..1] == [true];
    assert CountTrue([true]) == 1;
    CountTrueGrows(starts, i + 1);
  }

  /** Indexing the list of session starts by a bar's group gives the start of that bar's own session. */
  lemma {:induction false} FirstOfGroup(session: seq<int>, i: nat)
    requires i < |session|
    ensures Starts(session)[0]
    ensures var starts := Starts(session);
            && 0 <= Groups(starts)[i] < |FlatNonzero(starts)|
            && FlatNonzero(starts)[Groups(starts)[i]] == SessionStart(session, i)
  {
    var starts := Starts(session);
    GroupInRange(starts, i);
    CountTrueGrows(starts, i + 1);
    var upTo := starts[..i + 1];
    assert upTo[..i] == starts[..i];
    if starts[i] {
      assert FlatNonzero(upTo) == FlatNonzero(starts[..i]) + [i];
    } else {
      FirstOfGroup(session, i - 1);
      assert FlatNonzero(upTo) == FlatNonzero(starts[..i]);
    }
  }

  lemma {:induction false} RunningSumAt(values: seq<real>, i: nat)
    requires i < |values|
    ensures RunningSum(values)[i] == Sum(values[..i + 1])
  {
    if i < |values| - 1 {
      var init := values[..|values| - 1];
      RunningSumAt(init, i);
      assert init[..i + 1] == values[..i + 1];
    } else {
      assert values[..i + 1] == values;
      if i > 0 {
        var init := values[..i];
        RunningSumAt(init, i - 1);
        assert init[..i] == init;
      }
    }
  }

  lemma OffsetIsPrefixSum(values: seq<real>, start: nat)
    requires start < |values|
    ensures ([0.0] + RunningSum(values))[start] == Sum(values[..start])
  {
    hide RunningSum;
    hide Sum;
    if start > 0 {
      RunningSumAt(values, start - 1);
    } else {
      SumEmpty();
      assert values[..0] == [];
    }
  }

  lemma SumOfSlice(values: seq<real>, lo: nat, hi: nat)
    requires lo <= hi <= |values|
    ensures Sum(values[lo..hi]) == Sum(values[..hi]) - Sum(values[..lo])
  {
    assert values[..lo] + values[lo..hi] == values[..hi];
    SumConcat(values[..lo], values[lo..hi]);
  }

  /** The running sum less the session's offset is the sum over the session so far. */
  lemma SessionSum(values: seq<real>, session: seq<int>, i: nat)
    requires i < |values| == |session|
    ensures Starts(session)[0]
    ensures SinceSessionStart(values, Starts(session))[i] == Sum(values[SessionStart(session, i)..i + 1])
  {
    FirstOfGroup(session, i);
    var start := SessionStart(session, i);
    RunningSumAt(values, i);
    OffsetIsPrefixSum(values, start);
    SumOfSlice(values, start, i + 1);
  }

  lemma {:induction false} ConvolvedSum(a: seq<real>, i: nat, count: nat)
    requires i < |a|
    ensures ConvolvedAt(a, i, count) == Sum(a[WindowStart(i, count)..i + 1])
  {
    if count == 0 {
      assert a[i + 1..i + 1] == [];
    } else {
      ConvolvedSum(a, i, count - 1);
      if count - 1 <= i {
        SumFromFront(a, i + 1 - count, i + 1);
      }
    }
  }

  lemma SumFromFront(a: seq<real>, lo: nat, hi: nat)
    requires lo < hi <= |a|
    ensures Sum(a[lo..hi]) == a[lo] + Sum(a[lo + 1..hi])
  {
    assert a[lo..hi] == [a[lo]] + a[lo + 1..hi];
    SumConcat([a[lo]], a[lo + 1..hi]);
    SumAppend([], a[lo]);
    SumEmpty();
    assert [] + [a[lo]] == [a[lo]];
  }

  /** The rolling form is the plain average over the last `window` bars, fewer at the start. */
  lemma RollingIsAverage(
    high: seq<real>, low: seq<real>, close: seq<real>, volume: seq<real>, epoch: Option<seq<real>>, window: nat,
    i: nat)
    requires |high| == |low| == |close| == |volume| && (epoch.Some? ==> |epoch.value| == |close|)
    requires window > 0 && i < |close|
    ensures Vwap(high, low, close, volume, epoch, window).Ok?
    ensures Vwap(high, low, close, volume, epoch, window).value[i]
         == AverageOver(Typical(high, low, close), volume, WindowStart(i, window), i + 1)
  {
    ConvolvedSum(Weighted(Typical(high, low, close), volume), i, window);
    ConvolvedSum(volume, i, window);
  }

  /** The session form is the plain average over the bars since that bar's session began. */
  lemma SessionIsAverage(high: seq<real>, low: seq<real>, close: seq<real>, volume: seq<real>, epoch: seq<real>, i: nat)
    requires |high| == |low| == |close| == |volume| == |epoch| && i < |close|
    ensures Vwap(high, low, close, volume, Some(epoch), 0).Ok?
    ensures Vwap(high, low, close, volume, Some(epoch), 0).value[i]
         == AverageOver(Typical(high, low, close), volume, SessionStart(Sessions(epoch), i), i + 1)
  {
    SessionSum(Weighted(Typical(high, low, close), volume), Sessions(epoch), i);
    SessionSum(volume, Sessions(epoch), i);
  }

  // ---------- bounds ----------

  ghost predicate Within(typical: seq<real>, lo: nat, hi: nat, low: real, high: real)
    requires hi <= |typical|
  {
    forall j :: lo <= j < hi ==> low <= typical[j] <= high
  }

  lemma WeightBetween(price: real, volume: real, low: real, high: real)
    requires 0.0 <= volume && low <= price <= high
    ensures Times(low, volume) <= Times(price, volume) <= Times(high, volume)
  {
  }

  lemma TimesDistributes(factor: real, x: real, y: real)
    ensures Times(factor, x + y) == Times(factor, x) + Times(factor, y)
  {
  }

  lemma {:induction false} WeightedSumBetween(
    typical: seq<real>, volume: seq<real>, lo: nat, hi: nat, low: real, high: real)
    requires |typical| == |volume| && lo <= hi <= |volume|
    requires Within(typical, lo, hi, low, high) && forall j :: 0 <= j < |volume| ==> 0.0 <= volume[j]
    ensures Times(low, Sum(volume[lo..hi])) <= Sum(Weighted(typical, volume)[lo..hi])
    ensures Sum(Weighted(typical, volume)[lo..hi]) <= Times(high, Sum(volume[lo..hi]))
  {
    hide Times;
    hide Sum;
    if lo == hi {
      SumEmpty();
      TimesZero(low);
      TimesZero(high);
      assert volume[lo..hi] == [] && Weighted(typical, volume)[lo..hi] == [];
    } else {
      WeightedSumBetween(typical, volume, lo, hi - 1, low, high);
      WeightBetween(typical[hi - 1], volume[hi - 1], low, high);
      assert volume[lo..hi] == volume[lo..hi - 1] + [volume[hi - 1]];
      assert Weighted(typical, volume)[lo..hi]
        == Weighted(typical, volume)[lo..hi - 1] + [Weighted(typical, volume)[hi - 1]];
      SumAppend(volume[lo..hi - 1], volume[hi - 1]);
      SumAppend(Weighted(typical, volume)[lo..hi - 1], Weighted(typical, volume)[hi - 1]);
      TimesDistributes(low, Sum(volume[lo..hi - 1]), volume[hi - 1]);
      TimesDistributes(high, Sum(volume[lo..hi - 1]), volume[hi - 1]);
    }
  }

  lemma TimesZero(factor: real)
    ensures Times(factor, 0.0) == 0.0
  {
  }

  lemma RatioBetween(priceVolume: real, totalVolume: real, low: real, high: real)
    requires 0.0 < totalVolume && Times(low, totalVolume) <= priceVolume <= Times(high, totalVolume)
    ensures low <= priceVolume / totalVolume <= high
  {
    var ratio := priceVolume / totalVolume;
    assert ratio * totalVolume == priceVolume;
    assert (ratio - low) * totalVolume >= 0.0;
    assert (high - ratio) * totalVolume >= 0.0;
  }

  /** With non-negative volumes the average lies between the lowest and the highest typical price it covers. */
  lemma AverageBetween(typical: seq<real>, volume: seq<real>, lo: nat, hi: nat, low: real, high: real)
    requires |typical| == |volume| && lo < hi <= |volume|
    requires Within(typical, lo, hi, low, high) && forall j :: 0 <= j < |volume| ==> 0.0 <= volume[j]
    ensures low <= AverageOver(typical, volume, lo, hi) <= high
  {
    hide Times;
    WeightedSumBetween(typical, volume, lo, hi, low, high);
    if Sum(volume[lo..hi]) > 0.0 {
      RatioBetween(Sum(Weighted(typical, volume)[lo..hi]), Sum(volume[lo..hi]), low, high);
    }
  }

  // ---------- causality ----------

  lemma AverageCausal(typical: seq<real>, volume: seq<real>, lo: nat, hi: nat, n: nat)
    requires |typical| == |volume| && lo < hi <= n <= |volume|
    ensures AverageOver(typical[..n], volume[..n], lo, hi) == AverageOver(typical, volume, lo, hi)
  {
    SliceOfPrefix(volume, n, lo, hi);
    assert Weighted(typical[..n], volume[..n]) == Weighted(typical, volume)[..n];
    SliceOfPrefix(Weighted(typical, volume), n, lo, hi);
  }

  lemma {:induction false} SessionStartCausal(session: seq<int>, i: nat, n: nat)
    requires i < n <= |session|
    ensures SessionStart(session[..n], i) == SessionStart(session, i)
  {
    if i > 0 {
      SessionStartCausal(session, i - 1, n);
    }
  }

  /** Where the average at bar `i` begins: the last `window` bars, or the session when `window` is 0. */
  function AverageStart(epoch: seq<real>, window: nat, i: nat): (s: nat)
    requires i < |epoch|
    ensures s <= i
  {
    if window > 0 then WindowStart(i, window) else SessionStart(Sessions(epoch), i)
  }

  lemma VwapAt(
    high: seq<real>, low: seq<real>, close: seq<real>, volume: seq<real>, epoch: seq<real>, window: nat, i: nat)
    requires |high| == |low| == |close| == |volume| == |epoch| && i < |close|
    ensures Vwap(high, low, close, volume, Some(epoch), window).Ok?
    ensures |Vwap(high, low, close, volume, Some(epoch), window).value| == |close|
    ensures Vwap(high, low, close, volume, Some(epoch), window).value[i]
         == AverageOver(Typical(high, low, close), volume, AverageStart(epoch, window, i), i + 1)
  {
    hide AverageOver;
    if window > 0 {
      RollingIsAverage(high, low, close, volume, Some(epoch), window, i);
    } else {
      SessionIsAverage(high, low, close, volume, epoch, i);
    }
  }

  lemma VwapAtCausal(
    high: seq<real>, low: seq<real>, close: seq<real>, volume: seq<real>, epoch: seq<real>, window: nat, n: nat,
    i: nat)
    requires |high| == |low| == |close| == |volume| == |epoch| && i < n <= |close|
    ensures AverageOver(Typical(high[..n], low[..n], close[..n]), volume[..n], AverageStart(epoch[..n], window, i),
        i + 1)
         == AverageOver(Typical(high, low, close), volume, AverageStart(epoch, window, i), i + 1)
  {
    hide AverageOver;
    assert Typical(high[..n], low[..n], close[..n]) == Typical(high, low, close)[..n];
    assert Sessions(epoch[..n]) == Sessions(epoch)[..n];
    if window == 0 {
      SessionStartCausal(Sessions(epoch), i, n);
    }
    AverageCausal(Typical(high, low, close), volume, AverageStart(epoch, window, i), i + 1, n);
  }

  /** Neither form looks ahead: over the first `n` bars it gives the first `n` values. */
  lemma VwapCausal(
    high: seq<real>, low: seq<real>, close: seq<real>, volume: seq<real>, epoch: seq<real>, window: nat, n: nat)
    requires |high| == |low| == |close| == |volume| == |epoch| && 0 < n <= |close|
    ensures var all, some := Vwap(high, low, close, volume, Some(epoch), window),
        Vwap(high[..n], low[..n], close[..n], volume[..n], Some(epoch[..n]), window);
            all.Ok? && some.Ok? && |all.value| == |close| && some.value == all.value[..n]
  {
    hide Vwap;
    hide AverageOver;
    hide AverageStart;
    hide Typical;
    var all, some := Vwap(high, low, close, volume, Some(epoch), window),
      Vwap(high[..n], low[..n], close[..n], volume[..n], Some(epoch[..n]), window);
    VwapAt(high, low, close, volume, epoch, window, 0);
    VwapAt(high[..n], low[..n], close[..n], volume[..n], epoch[..n], window, 0);
    forall i | 0 <= i < n
      ensures some.value[i] == all.value[i]
    {
      VwapAt(high, low, close, volume, epoch, window, i);
      VwapAt(high[..n], low[..n], close[..n], volume[..n], epoch[..n], window, i);
      VwapAtCausal(high, low, close, volume, epoch, window, n, i);
    }
  }

  /** Only a session VWAP without bar times fails. */
  lemma VwapFails(
    high: seq<real>, low: seq<real>, close: seq<real>, volume: seq<real>, epoch: Option<seq<real>>, window: int)
    requires |high| == |low| == |close| == |volume| && (epoch.Some? ==> |epoch.value| == |close|)
    ensures Vwap(high, low, close, volume, epoch, window).Err? <==> window <= 0 && epoch == None
    ensures window <= 0 && epoch.Some? ==>
              Vwap(high, low, close, volume, epoch, window) == Vwap(high, low, close, volume, epoch, 0)
  {
    hide Ratios;
  }
}
