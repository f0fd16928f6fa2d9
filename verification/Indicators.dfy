/**
 * Causal indicators, `src/backtest/indicators.py`.
 *
 * A value that may be missing (NaN) is an option; a comparison with a missing value is false. Each array-filling
 * routine is a method proved against a function of the input, and each function is proved causal: its values over
 * the first `n` bars are those of the first `n` inputs.
 */
module Indicators {
  import opened Numbers
  import opened Market

  type Num = Option<real>

  datatype Field = Close | High | Low | Volume

  function FieldOf(bar: Bar, field: Field): real {
    match field
    case Close => bar.close
    case High => if bar.high.Some? then bar.high.value else bar.close
    case Low => if bar.low.Some? then bar.low.value else bar.close
    case Volume => if bar.volume.Some? then bar.volume.value else 0.0
  }

  function SeriesOf(bars: seq<Bar>, field: Field): (r: seq<real>)
    ensures |r| == |bars|
  {
    seq(|bars|, i requires 0 <= i < |bars| => FieldOf(bars[i], field))
  }

  method Series(history: seq<Bar>, field: Field) returns (values: array<real>)
    ensures values[..] == SeriesOf(history, field)
  {
    values := new real[|history|];
    for position := 0 to |history|
      invariant values[..position] == SeriesOf(history, field)[..position]
    {
      values[position] := FieldOf(history[position], field);
    }
  }

  /** Values known at every bar, as values that might be missing. */
  function Known(values: seq<real>): (r: seq<Num>)
    ensures |r| == |values|
  {
    seq(|values|, i requires 0 <= i < |values| => Some(values[i]))
  }

  // ---------- shift and rolling windows ----------

  function Shifted(values: seq<Num>, periods: nat): (r: seq<Num>)
    ensures |r| == |values|
  {
    seq(|values|, i requires 0 <= i < |values| => if i < periods then None else values[i - periods])
  }

  method Shift(values: seq<Num>, periods: nat) returns (out: array<Num>)
    ensures out[..] == Shifted(values, periods)
  {
    out := new Num[|values|](_ => None);
    if periods < |values| {
      for i := periods to |values|
        invariant forall j :: 0 <= j < i ==> out[j] == Shifted(values, periods)[j]
        invariant forall j :: i <= j < out.Length ==> out[j] == None
      {
        out[i] := values[i - periods];
      }
    }
  }

  function Rolled(values: seq<Num>, window: nat, reducer: seq<Num> -> Num): (r: seq<Num>)
    requires window > 0
    ensures |r| == |values|
  {
    seq(|values|, i requires 0 <= i < |values| =>
      if i < window - 1 then None else reducer(values[i + 1 - window..i + 1]))
  }

  method Rolling(values: seq<Num>, window: int, reducer: seq<Num> -> Num) returns (r: Result<array<Num>>)
    ensures window <= 0 ==> r.Err?
    ensures window > 0 ==> r.Ok? && r.value[..] == Rolled(values, window, reducer)
  {
    if window <= 0 {
      return Err("window must be positive");
    }
    var out := new Num[|values|](_ => None);
    if |values| >= window {
      for i := window - 1 to |values|
        invariant forall j :: 0 <= j < i ==> out[j] == Rolled(values, window, reducer)[j]
        invariant forall j :: i <= j < out.Length ==> out[j] == None
      {
        out[i] := reducer(values[i + 1 - window..i + 1]);
      }
    }
    r := Ok(out);
  }

  predicate AllKnown(window: seq<Num>) {
    forall i :: 0 <= i < |window| ==> window[i].Some?
  }

  function Total(window: seq<Num>): real
    requires AllKnown(window)
  {
    if window == [] then 0.0 else Total(window[..|window| - 1]) + window[|window| - 1].value
  }

  function Highest(window: seq<Num>): real
    requires AllKnown(window) && window != []
  {
    var last := window[|window| - 1].value;
    if |window| == 1 then last else Max(Highest(window[..|window| - 1]), last)
  }

  function Lowest(window: seq<Num>): real
    requires AllKnown(window) && window != []
  {
    var last := window[|window| - 1].value;
    if |window| == 1 then last else Min(Lowest(window[..|window| - 1]), last)
  }

  function Average(total: real, count: nat): real
    requires count > 0
  {
    total / count as real
  }

  function MeanOf(window: seq<Num>): Num {
    if window != [] && AllKnown(window) then Some(Average(Total(window), |window|)) else None
  }

  function MaxOf(window: seq<Num>): Num {
    if window != [] && AllKnown(window) then Some(Highest(window)) else None
  }

  function MinOf(window: seq<Num>): Num {
    if window != [] && AllKnown(window) then Some(Lowest(window)) else None
  }

  // ---------- element by element ----------

  function Plus(a: seq<Num>, b: seq<Num>): (r: seq<Num>)
    requires |a| == |b|
    ensures |r| == |a|
  {
    seq(|a|, i requires 0 <= i < |a| => if a[i].Some? && b[i].Some? then Some(a[i].value + b[i].value) else None)
  }

  function Minus(a: seq<Num>, b: seq<Num>): (r: seq<Num>)
    requires |a| == |b|
    ensures |r| == |a|
  {
    seq(|a|, i requires 0 <= i < |a| => if a[i].Some? && b[i].Some? then Some(a[i].value - b[i].value) else None)
  }

  function ScaledBy(factor: real, a: seq<Num>): (r: seq<Num>)
    ensures |r| == |a|
  {
    seq(|a|, i requires 0 <= i < |a| => if a[i].Some? then Some(Times(factor, a[i].value)) else None)
  }

  predicate Above(a: Num, b: Num) {
    a.Some? && b.Some? && a.value > b.value
  }

  function Greater(a: seq<Num>, b: seq<Num>): (r: seq<bool>)
    requires |a| == |b|
    ensures |r| == |a|
  {
    seq(|a|, i requires 0 <= i < |a| => Above(a[i], b[i]))
  }

  function And(a: seq<bool>, b: seq<bool>): (r: seq<bool>)
    requires |a| == |b|
    ensures |r| == |a|
  {
    seq(|a|, i requires 0 <= i < |a| => a[i] && b[i])
  }

  function Not(a: seq<bool>): (r: seq<bool>)
    ensures |r| == |a|
  {
    seq(|a|, i requires 0 <= i < |a| => !a[i])
  }

  // ---------- true range, ATR, EMA ----------

  /** The bar's range, extended by any gap from the prior close when there is one. */
  function TrueRange(high: seq<real>, low: seq<real>, close: seq<real>): (r: seq<Num>)
    requires |high| == |low| == |close|
    ensures |r| == |close|
  {
    seq(|close|, i requires 0 <= i < |close| =>
      if i == 0 then Some(high[0] - low[0])
      else Some(Max(high[i] - low[i], Max(Abs(high[i] - close[i - 1]), Abs(low[i] - close[i - 1])))))
  }

  function Atr(high: seq<real>, low: seq<real>, close: seq<real>, window: nat): (r: seq<Num>)
    requires |high| == |low| == |close| && window > 0
    ensures |r| == |close|
  {
    Rolled(TrueRange(high, low, close), window, MeanOf)
  }

  function Alpha(span: nat): real
    requires span >= 1
  {
    2.0 / (span as real + 1.0)
  }

  function Blend(last: real, value: real, alpha: real): real {
    last + alpha * (value - last)
  }

  function EmaOf(values: seq<real>, span: nat): (r: seq<real>)
    requires span >= 1
    ensures |r| == |values|
  {
    if |values| <= 1 then values
    else
      var before := EmaOf(values[..|values| - 1], span);
      var last := before[|before| - 1];
      before + [Blend(last, values[|values| - 1], Alpha(span))]
  }

  method Ema(values: seq<real>, span: int) returns (r: Result<array<real>>)
    ensures span < 1 ==> r.Err?
    ensures span >= 1 ==> r.Ok? && r.value[..] == EmaOf(values, span)
  {
    hide Blend;
    hide Alpha;
    if span < 1 {
      return Err("span must be at least 1");
    }
    var out := new real[|values|];
    if |values| == 0 {
      return Ok(out);
    }
    var alpha := Alpha(span);
    out[0] := values[0];
    for index := 1 to |values|
      invariant out[..index] == EmaOf(values[..index], span)
    {
      assert values[..index + 1][..index] == values[..index];
      assert out[index - 1] == out[..index][index - 1];
      out[index] := Blend(out[index - 1], values[index], alpha);
    }
    assert values[..|values|] == values;
    r := Ok(out);
  }

  // ---------- causality ----------

  lemma SeriesCausal(bars: seq<Bar>, field: Field, n: nat)
    requires n <= |bars|
    ensures SeriesOf(bars[..n], field) == SeriesOf(bars, field)[..n]
    ensures Known(SeriesOf(bars[..n], field)) == Known(SeriesOf(bars, field))[..n]
  {
  }

  lemma ShiftedCausal(values: seq<Num>, periods: nat, n: nat)
    requires n <= |values|
    ensures Shifted(values[..n], periods) == Shifted(values, periods)[..n]
  {
  }

  lemma RolledCausal(values: seq<Num>, window: nat, reducer: seq<Num> -> Num, n: nat)
    requires n <= |values| && window > 0
    ensures Rolled(values[..n], window, reducer) == Rolled(values, window, reducer)[..n]
  {
    forall i | window - 1 <= i < n
      ensures Rolled(values[..n], window, reducer)[i] == Rolled(values, window, reducer)[i]
    {
      SliceOfPrefix(values, n, i + 1 - window, i + 1);
    }
  }

  lemma TrueRangeCausal(high: seq<real>, low: seq<real>, close: seq<real>, n: nat)
    requires |high| == |low| == |close| && n <= |close|
    ensures TrueRange(high[..n], low[..n], close[..n]) == TrueRange(high, low, close)[..n]
  {
  }

  lemma AtrCausal(high: seq<real>, low: seq<real>, close: seq<real>, window: nat, n: nat)
    requires |high| == |low| == |close| && n <= |close| && window > 0
    ensures Atr(high[..n], low[..n], close[..n], window) == Atr(high, low, close, window)[..n]
  {
    TrueRangeCausal(high, low, close, n);
    RolledCausal(TrueRange(high, low, close), window, MeanOf, n);
  }

  lemma {:induction false} EmaCausal(values: seq<real>, span: nat, n: nat)
    requires n <= |values| && span >= 1
    ensures EmaOf(values[..n], span) == EmaOf(values, span)[..n]
  {
    if n < |values| {
      var init := values[..|values| - 1];
      EmaCausal(init, span, n);
      assert init[..n] == values[..n];
    } else {
      assert values[..n] == values;
    }
  }

  lemma PointwiseCausal(a: seq<Num>, b: seq<Num>, factor: real, n: nat)
    requires n <= |a| == |b|
    ensures Plus(a[..n], b[..n]) == Plus(a, b)[..n]
    ensures Minus(a[..n], b[..n]) == Minus(a, b)[..n]
    ensures ScaledBy(factor, a[..n]) == ScaledBy(factor, a)[..n]
  {
  }

  lemma ComparisonCausal(a: seq<Num>, b: seq<Num>, n: nat)
    requires n <= |a| == |b|
    ensures Greater(a[..n], b[..n]) == Greater(a, b)[..n]
  {
  }

  // ---------- the reducers are what their names say ----------

  lemma {:induction false} ExtremesOf(window: seq<Num>, k: nat)
    requires AllKnown(window) && k < |window|
    ensures Lowest(window) <= window[k].value <= Highest(window)
    ensures Some(Lowest(window)) in window && Some(Highest(window)) in window
  {
    if |window| > 1 {
      var init := window[..|window| - 1];
      ExtremesOf(init, if k < |init| then k else 0);
      assert window == init + [window[|window| - 1]];
    } else {
      assert window[0] == Some(window[0].value);
    }
  }
}
