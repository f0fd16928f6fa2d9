/**
 * The EMA and VWAP day-trading rule of `src/backtest/strategies.py`: enter when a close breaks the VWAP, leave when
 * one falls back through the EMA, optionally flat on the last bar of each UTC day.
 *
 * The session exit finds the last bar of a day from the median bar spacing of everything it is given. That looks
 * ahead, so the per-bar and the one-pass form need not agree. Which bar times keep them together is proved exactly.
 */
module EmaVwap {
  import opened Numbers
  import opened Market
  import opened Latch
  import opened Indicators
  import opened Strategies
  import opened VolumeWeighted

  const DAY := 86400.0

  datatype Params = Params(emaWindow: nat, vwapWindow: nat, trendFilter: bool, sessionExit: bool, allowShort: bool)

  // ---------- bar times ----------

  function Epochs(bars: seq<Bar>): (r: seq<real>)
    ensures |r| == |bars|
  {
    seq(|bars|, i requires 0 <= i < |bars| => bars[i].timestamp)
  }

  function Differences(xs: seq<real>): (r: seq<real>)
    ensures |r| == if |xs| < 2 then 0 else |xs| - 1
  {
    if |xs| < 2 then [] else seq(|xs| - 1, i requires 0 <= i < |xs| - 1 => xs[i + 1] - xs[i])
  }

  function Remainder(x: real, m: real): real
    requires m > 0.0
  {
    x - (x / m).Floor as real * m
  }

  /** Marks the bars that close at midnight UTC when bars are `step` seconds apart. */
  function LastOfDay(epoch: seq<real>, step: real): (r: seq<bool>)
    ensures |r| == |epoch|
  {
    seq(|epoch|, i requires 0 <= i < |epoch| => Remainder(epoch[i] + step, DAY) < 0.000001)
  }

  // ---------- the rules ----------

  function AtMost(a: seq<Num>, b: seq<Num>): (r: seq<bool>)
    requires |a| == |b|
    ensures |r| == |a|
  {
    seq(|a|, i requires 0 <= i < |a| => a[i].Some? && b[i].Some? && a[i].value <= b[i].value)
  }

  function Level(bars: seq<Bar>, vwapWindow: nat): (r: seq<Num>)
    ensures |r| == |bars|
  {
    Known(Vwap(SeriesOf(bars, High), SeriesOf(bars, Low), SeriesOf(bars, Close), SeriesOf(bars, Volume),
      Some(Epochs(bars)), vwapWindow).value)
  }

  function Trail(bars: seq<Bar>, emaWindow: nat): (r: seq<Num>)
    requires emaWindow >= 1
    ensures |r| == |bars|
  {
    Known(EmaOf(SeriesOf(bars, Close), emaWindow))
  }

  /** Entries and exits before the session exit; the short pair is dropped later when shorts are not allowed. */
  datatype Crossings = Crossings(longEntry: seq<bool>, longExit: seq<bool>, shortEntry: seq<bool>,
    shortExit: seq<bool>) {

    predicate Sized(n: nat) {
      |longEntry| == |longExit| == |shortEntry| == |shortExit| == n
    }

    function Take(n: nat): (r: Crossings)
      requires n <= |longEntry| && Sized(|longEntry|)
      ensures r.Sized(n)
    {
      Crossings(longEntry[..n], longExit[..n], shortEntry[..n], shortExit[..n])
    }
  }

  function CrossingsOf(close: seq<Num>, level: seq<Num>, trail: seq<Num>, trendFilter: bool): (r: Crossings)
    requires |close| == |level| == |trail|
    ensures r.Sized(|close|)
  {
    var previousClose, previousLevel := Shifted(close, 1), Shifted(level, 1);
    var brokeUp := And(AtMost(previousClose, previousLevel), Greater(close, level));
    var brokeDown := And(AtMost(previousLevel, previousClose), Greater(level, close));
    var longEntry, shortEntry := And(brokeUp, Greater(close, trail)), And(brokeDown, Greater(trail, close));
    Crossings(
      if trendFilter then And(longEntry, Greater(trail, level)) else longEntry, Greater(trail, close),
      if trendFilter then And(shortEntry, Greater(level, trail)) else shortEntry, Greater(close, trail))
  }

  function Crossed(bars: seq<Bar>, p: Params): (r: Crossings)
    requires p.emaWindow >= 1
    ensures r.Sized(|bars|)
  {
    CrossingsOf(Known(SeriesOf(bars, Close)), Level(bars, p.vwapWindow), Trail(bars, p.emaWindow), p.trendFilter)
  }

  /** No entry on the last bar of a day, and out of everything on it. */
  function FlatAtDayEnd(c: Crossings, last: seq<bool>, allowShort: bool): (r: Rules)
    requires c.Sized(|last|)
    ensures |r.longEntry| == |last|
  {
    RuleArrays(And(c.longEntry, Not(last)), Or(c.longExit, last),
               if allowShort then Some(And(c.shortEntry, Not(last))) else None,
               if allowShort then Some(Or(c.shortExit, last)) else None)
  }

  /** The last bars of a day, as far as the median spacing of these bars tells. */
  function DayEnds(epoch: seq<real>): (r: seq<bool>)
    requires |epoch| > 1
    ensures |r| == |epoch|
  {
    LastOfDay(epoch, Median(Differences(epoch)))
  }

  function RulesAt(bars: seq<Bar>, p: Params): (r: Rules)
    requires p.emaWindow >= 1
    ensures |r.longEntry| == |bars|
  {
    var c := Crossed(bars, p);
    if p.sessionExit && |bars| > 1 then FlatAtDayEnd(c, DayEnds(Epochs(bars)), p.allowShort)
    else
      RuleArrays(c.longEntry, c.longExit,
                 if p.allowShort then Some(c.shortEntry) else None, if p.allowShort then Some(c.shortExit) else None)
  }

  function RulesOf(p: Params): seq<Bar> -> Rules
    requires p.emaWindow >= 1
  {
    bars => RulesAt(bars, p)
  }

  function Warmup(p: Params): nat {
    Larger(Larger(3 * p.emaWindow, p.vwapWindow + 1), 2)
  }

  function EmaVwapStrategy(p: Params): Strategy
    requires p.emaWindow >= 1
  {
    Latched(RulesOf(p), Warmup(p))
  }

  // ---------- causality ----------

  lemma LevelCausal(bars: seq<Bar>, vwapWindow: nat, n: nat)
    requires 0 < n <= |bars|
    ensures Level(bars[..n], vwapWindow) == Level(bars, vwapWindow)[..n]
  {
    hide SeriesOf;
    hide Vwap;
    SeriesCausal(bars, High, n);
    SeriesCausal(bars, Low, n);
    SeriesCausal(bars, Close, n);
    SeriesCausal(bars, Volume, n);
    EpochsCausal(bars, n);
    VwapCausal(SeriesOf(bars, High), SeriesOf(bars, Low), SeriesOf(bars, Close), SeriesOf(bars, Volume), Epochs(bars),
      vwapWindow, n);
  }

  lemma EpochsCausal(bars: seq<Bar>, n: nat)
    requires n <= |bars|
    ensures Epochs(bars[..n]) == Epochs(bars)[..n]
  {
  }

  lemma TrailCausal(bars: seq<Bar>, emaWindow: nat, n: nat)
    requires n <= |bars| && emaWindow >= 1
    ensures Trail(bars[..n], emaWindow) == Trail(bars, emaWindow)[..n]
  {
    SeriesCausal(bars, Close, n);
    EmaCausal(SeriesOf(bars, Close), emaWindow, n);
  }

  lemma MasksCausal(a: seq<bool>, b: seq<bool>, n: nat)
    requires n <= |a| == |b|
    ensures And(a[..n], b[..n]) == And(a, b)[..n]
    ensures Or(a[..n], b[..n]) == Or(a, b)[..n]
    ensures Not(b[..n]) == Not(b)[..n]
  {
  }

  lemma AtMostCausal(a: seq<Num>, b: seq<Num>, n: nat)
    requires n <= |a| == |b|
    ensures AtMost(a[..n], b[..n]) == AtMost(a, b)[..n]
  {
  }

  lemma CrossingsCausal(close: seq<Num>, level: seq<Num>, trail: seq<Num>, trendFilter: bool, n: nat)
    requires n <= |close| == |level| == |trail|
    ensures CrossingsOf(close[..n], level[..n], trail[..n], trendFilter)
        == CrossingsOf(close, level, trail, trendFilter).Take(n)
  {
    var previousClose, previousLevel := Shifted(close, 1), Shifted(level, 1);
    var up, down := AtMost(previousClose, previousLevel), AtMost(previousLevel, previousClose);
    var above, below, over, under := Greater(close, level), Greater(level, close), Greater(close, trail),
      Greater(trail, close);
    hide Shifted;
    hide AtMost;
    hide Greater;
    hide And;
    ShiftedCausal(close, 1, n);
    ShiftedCausal(level, 1, n);
    AtMostCausal(previousClose, previousLevel, n);
    AtMostCausal(previousLevel, previousClose, n);
    ComparisonCausal(close, level, n);
    ComparisonCausal(level, close, n);
    ComparisonCausal(close, trail, n);
    ComparisonCausal(trail, close, n);
    ComparisonCausal(trail, level, n);
    ComparisonCausal(level, trail, n);
    MasksCausal(up, above, n);
    MasksCausal(down, below, n);
    MasksCausal(And(up, above), over, n);
    MasksCausal(And(down, below), under, n);
    MasksCausal(And(And(up, above), over), Greater(trail, level), n);
    MasksCausal(And(And(down, below), under), Greater(level, trail), n);
  }

  lemma CrossedCausal(bars: seq<Bar>, p: Params, n: nat)
    requires p.emaWindow >= 1 && 0 < n <= |bars|
    ensures Crossed(bars[..n], p) == Crossed(bars, p).Take(n)
  {
    hide SeriesOf;
    hide Level;
    hide Trail;
    hide CrossingsOf;
    SeriesCausal(bars, Close, n);
    LevelCausal(bars, p.vwapWindow, n);
    TrailCausal(bars, p.emaWindow, n);
    CrossingsCausal(Known(SeriesOf(bars, Close)), Level(bars, p.vwapWindow), Trail(bars, p.emaWindow), p.trendFilter,
      n);
  }

  /** Without the session exit the rules never look ahead. */
  lemma RulesCausal(bars: seq<Bar>, p: Params, n: nat)
    requires p.emaWindow >= 1 && !p.sessionExit && 0 < n <= |bars|
    ensures RulesAt(bars[..n], p) == RulesAt(bars, p).Take(n)
  {
    hide Crossed;
    CrossedCausal(bars, p, n);
  }

  lemma AlwaysOpenFormsAgree(p: Params, bars: seq<Bar>)
    requires p.emaWindow >= 1 && !p.sessionExit
    ensures FormsAgree(EmaVwapStrategy(p), bars)
  {
    hide RulesAt;
    hide FormsAgree;
    forall n | 0 < n <= |bars| && Warmup(p) <= n
      ensures RulesOf(p)(bars[..n]) == RulesOf(p)(bars).Take(n)
    {
      RulesCausal(bars, p, n);
    }
    LatchedFormsAgree(RulesOf(p), Warmup(p), bars);
  }

  // ---------- what the session exit does to the latch ----------

  /** An entry after bar `floor` and no exit since. */
  ghost predicate HeldAfter(entry: seq<bool>, exit: seq<bool>, floor: int, t: nat)
    requires t < |entry| == |exit|
  {
    exists e :: floor < e <= t && 0 <= e && entry[e] && forall j :: e <= j <= t ==> !exit[j]
  }

  /** Exits on every marked bar, and no entries there, leave the entries after the last marked bar. */
  lemma HeldSinceMark(entry: seq<bool>, exit: seq<bool>, last: seq<bool>, masked: seq<bool>, t: nat)
    requires t + 1 == |entry| == |exit| == |last| == |masked|
    requires forall j :: 0 <= j <= t ==> masked[j] == (exit[j] || last[j])
    ensures Held(And(entry, Not(last)), masked, t) <==> HeldAfter(entry, exit, LastTrueIndex(last), t)
  {
    var floor := LastTrueIndex(last);
    assert floor >= 0 ==> masked[floor];
    if Held(And(entry, Not(last)), masked, t) {
      var e :| 0 <= e <= t && And(entry, Not(last))[e] && forall j :: e <= j <= t ==> !masked[j];
    }
    if HeldAfter(entry, exit, floor, t) {
      var e :| floor < e <= t && 0 <= e && entry[e] && forall j :: e <= j <= t ==> !exit[j];
      assert And(entry, Not(last))[e];
    }
  }

  ghost function LongExits(c: Crossings, allowShort: bool): (r: seq<bool>)
    requires c.Sized(|c.longEntry|)
    ensures |r| == |c.longEntry|
  {
    if allowShort then Or(c.longExit, c.shortEntry) else c.longExit
  }

  lemma TakeAll(r: Rules)
    ensures r.Take(|r.longEntry|) == r
  {
    WholeMask(r.longEntry);
    WholeMask(r.longExit);
    if r.shortEntry.Some? {
      WholeMask(r.shortEntry.value);
    }
    if r.shortExit.Some? {
      WholeMask(r.shortExit.value);
    }
  }

  lemma WholeMask(mask: seq<bool>)
    ensures mask[..|mask|] == mask
  {
  }

  lemma ExitsWithMarks(c: Crossings, last: seq<bool>, allowShort: bool)
    requires c.Sized(|last|)
    ensures var exits := FlatAtDayEnd(c, last, allowShort).EffectiveLongExit();
            forall j :: 0 <= j < |last| ==> exits[j] == (LongExits(c, allowShort)[j] || last[j])
    ensures allowShort ==>
              var exits := FlatAtDayEnd(c, last, allowShort).EffectiveShortExit();
              forall j :: 0 <= j < |last| ==> exits[j] == (Or(c.shortExit, c.longEntry)[j] || last[j])
  {
  }

  lemma SidesAfterMark(c: Crossings, last: seq<bool>, allowShort: bool)
    requires c.Sized(|last|) && last != []
    ensures var t, floor, r := |last| - 1, LastTrueIndex(last), FlatAtDayEnd(c, last, allowShort);
            && (LongHeld(r, t) <==> HeldAfter(c.longEntry, LongExits(c, allowShort), floor, t))
            && (ShortHeld(r, t) <==> allowShort && HeldAfter(c.shortEntry, Or(c.shortExit, c.longEntry), floor, t))
  {
    hide LastTrueIndex;
    hide Held;
    hide HeldAfter;
    hide LongExits;
    hide RuleArrays.EffectiveLongExit;
    hide RuleArrays.EffectiveShortExit;
    hide And;
    hide Not;
    var t, r := |last| - 1, FlatAtDayEnd(c, last, allowShort);
    ExitsWithMarks(c, last, allowShort);
    HeldSinceMark(c.longEntry, LongExits(c, allowShort), last, r.EffectiveLongExit(), t);
    if allowShort {
      HeldSinceMark(c.shortEntry, Or(c.shortExit, c.longEntry), last, r.EffectiveShortExit(), t);
    }
  }

  /** The position at the last bar depends on the marks only through the last of them. */
  lemma PositionAfterMark(c: Crossings, last: seq<bool>, allowShort: bool)
    requires c.Sized(|last|) && last != []
    ensures var t, floor := |last| - 1, LastTrueIndex(last);
            LatchPosition(FlatAtDayEnd(c, last, allowShort))
            == if HeldAfter(c.longEntry, LongExits(c, allowShort), floor, t) then 1
               else if allowShort && HeldAfter(c.shortEntry, Or(c.shortExit, c.longEntry), floor, t) then -1
               else 0
  {
    hide LastTrueIndex;
    hide LatchPosition;
    hide LatchSeries;
    hide HeldAfter;
    hide LongHeld;
    hide ShortHeld;
    hide FlatAtDayEnd;
    var t, r := |last| - 1, FlatAtDayEnd(c, last, allowShort);
    FourForms(r, t);
    TakeAll(r);
    SidesAfterMark(c, last, allowShort);
  }

  /** Nothing can be entered on the first bar, so a mark there is as good as none. */
  lemma NoEntryAtFirst(bars: seq<Bar>, p: Params)
    requires p.emaWindow >= 1 && bars != []
    ensures !Crossed(bars, p).longEntry[0] && !Crossed(bars, p).shortEntry[0]
  {
  }

  ghost predicate SameFloor(a: int, b: int) {
    a == b || (a <= 0 && b <= 0)
  }

  lemma SameFloorSamePosition(c: Crossings, last: seq<bool>, last': seq<bool>, allowShort: bool)
    requires c.Sized(|last|) && |last| == |last'| > 0 && SameFloor(LastTrueIndex(last), LastTrueIndex(last'))
    requires !c.longEntry[0] && !c.shortEntry[0]
    ensures LatchPosition(FlatAtDayEnd(c, last, allowShort)) == LatchPosition(FlatAtDayEnd(c, last', allowShort))
  {
    hide LastTrueIndex;
    hide LatchPosition;
    hide FlatAtDayEnd;
    PositionAfterMark(c, last, allowShort);
    PositionAfterMark(c, last', allowShort);
  }

  // ---------- the two forms with the session exit ----------

  lemma DayEndRulesTake(c: Crossings, last: seq<bool>, allowShort: bool, n: nat)
    requires c.Sized(|last|) && n <= |last|
    ensures FlatAtDayEnd(c, last, allowShort).Take(n) == FlatAtDayEnd(c.Take(n), last[..n], allowShort)
  {
    MasksCausal(c.longEntry, Not(last), n);
    MasksCausal(c.longExit, last, n);
    MasksCausal(c.shortEntry, Not(last), n);
    MasksCausal(c.shortExit, last, n);
  }

  /**
   * The signals of the two forms at bar `n - 1`: the same crossings, but the day ends of all bars against those of the
   * first `n`.
   */
  lemma SignalsAt(p: Params, bars: seq<Bar>, n: nat)
    requires p.emaWindow >= 1 && p.sessionExit && Warmup(p) <= n <= |bars|
    ensures var c, epoch := Crossed(bars[..n], p), Epochs(bars);
            && |SignalsOf(EmaVwapStrategy(p), bars)| == |bars|
            && SignalsOf(EmaVwapStrategy(p), bars)[n - 1]
                == Number(LatchPosition(FlatAtDayEnd(c, DayEnds(epoch)[..n], p.allowShort)) as real)
            && SignalsOf(PerBarOnly(EmaVwapStrategy(p)), bars)[n - 1]
                == Number(LatchPosition(FlatAtDayEnd(c, DayEnds(epoch[..n]), p.allowShort)) as real)
  {
    hide LatchPosition;
    hide LatchSeries;
    hide Crossed;
    hide FlatAtDayEnd;
    hide DayEnds;
    FourForms(RulesAt(bars, p), n - 1);
    CrossedCausal(bars, p, n);
    DayEndRulesTake(Crossed(bars, p), DayEnds(Epochs(bars)), p.allowShort, n);
    EpochsCausal(bars, n);
  }

  lemma WarmupIsFlat(p: Params, bars: seq<Bar>, n: nat)
    requires p.emaWindow >= 1 && 0 < n < Warmup(p) && n <= |bars|
    ensures |SignalsOf(EmaVwapStrategy(p), bars)| == |bars|
    ensures SignalsOf(EmaVwapStrategy(p), bars)[n - 1] == Number(0.0)
        == SignalsOf(PerBarOnly(EmaVwapStrategy(p)), bars)[n - 1]
  {
    hide LatchPosition;
    hide LatchSeries;
    hide RulesAt;
  }

  /** Whether, after `n` bars, the last day end so far is where it will be once all bars are known. */
  ghost predicate SameDayEnd(epoch: seq<real>, n: nat)
    requires 1 < n <= |epoch|
  {
    SameFloor(LastTrueIndex(DayEnds(epoch[..n])), LastTrueIndex(DayEnds(epoch)[..n]))
  }

  /**
   * From the `from`-th bar on, no later bar ever moves the last day end. Equally spaced bars, for one, are like this.
   */
  ghost predicate DayEndsSettled(epoch: seq<real>, from: nat)
    requires 1 < from
  {
    forall n :: from <= n <= |epoch| ==> SameDayEnd(epoch, n)
  }

  lemma SettledFormsAgree(p: Params, bars: seq<Bar>)
    requires p.emaWindow >= 1 && p.sessionExit && DayEndsSettled(Epochs(bars), Warmup(p))
    ensures FormsAgree(EmaVwapStrategy(p), bars)
  {
    hide EmaVwapStrategy;
    hide SameFloor;
    hide DayEnds;
    hide FlatAtDayEnd;
    hide Crossed;
    hide LatchPosition;
    hide LastTrueIndex;
    var epoch, fast, slow := Epochs(bars), SignalsOf(EmaVwapStrategy(p), bars),
      SignalsOf(PerBarOnly(EmaVwapStrategy(p)), bars);
    SignalsSized(p, bars);
    forall i | 0 <= i < |bars|
      ensures fast[i] == slow[i]
    {
      var n := i + 1;
      if n < Warmup(p) {
        WarmupIsFlat(p, bars, n);
      } else {
        SignalsAt(p, bars, n);
        NoEntryAtFirst(bars[..n], p);
        assert SameDayEnd(epoch, n);
        SameFloorSamePosition(Crossed(bars[..n], p), DayEnds(epoch[..n]), DayEnds(epoch)[..n], p.allowShort);
      }
    }
  }

  lemma SignalsSized(p: Params, bars: seq<Bar>)
    requires p.emaWindow >= 1
    ensures |SignalsOf(EmaVwapStrategy(p), bars)| == |bars| == |SignalsOf(PerBarOnly(EmaVwapStrategy(p)), bars)|
  {
    hide RulesAt;
  }

  // ---------- a span of 1 ----------

  lemma {:induction false} EmaOfOne(values: seq<real>)
    ensures EmaOf(values, 1) == values
  {
    hide Blend;
    hide Alpha;
    if |values| > 1 {
      var init, last := values[..|values| - 1], values[|values| - 1];
      EmaOfOne(init);
      WholeBlend(init[|init| - 1], last);
      assert values == init + [last];
    }
  }

  lemma WholeBlend(last: real, value: real)
    ensures Blend(last, value, Alpha(1)) == value
  {
    assert Alpha(1) == 1.0;
  }

  /** An EMA over one bar is the close itself, so no close is ever beyond it and nothing is ever entered. */
  lemma NoEntryWithSpanOne(bars: seq<Bar>, p: Params, i: nat)
    requires p.emaWindow == 1 && i < |bars|
    ensures !Crossed(bars, p).longEntry[i] && !Crossed(bars, p).shortEntry[i]
  {
    hide Level;
    hide EmaOf;
    EmaOfOne(SeriesOf(bars, Close));
  }

  lemma SpanOneFormsAgree(p: Params, bars: seq<Bar>)
    requires p.emaWindow == 1 && p.sessionExit
    ensures FormsAgree(EmaVwapStrategy(p), bars)
  {
    hide EmaVwapStrategy;
    hide DayEnds;
    hide FlatAtDayEnd;
    hide Crossed;
    hide LatchPosition;
    hide LastTrueIndex;
    var fast, slow := SignalsOf(EmaVwapStrategy(p), bars), SignalsOf(PerBarOnly(EmaVwapStrategy(p)), bars);
    SignalsSized(p, bars);
    forall i | 0 <= i < |bars|
      ensures fast[i] == slow[i]
    {
      var n := i + 1;
      if n < Warmup(p) {
        WarmupIsFlat(p, bars, n);
      } else {
        SignalsAt(p, bars, n);
        forall j | 0 <= j < n
          ensures !Crossed(bars[..n], p).longEntry[j] && !Crossed(bars[..n], p).shortEntry[j]
        {
          NoEntryWithSpanOne(bars[..n], p, j);
        }
        PositionAfterMark(Crossed(bars[..n], p), DayEnds(Epochs(bars)[..n]), p.allowShort);
        PositionAfterMark(Crossed(bars[..n], p), DayEnds(Epochs(bars))[..n], p.allowShort);
      }
    }
  }

  // ---------- times on which the forms come apart ----------

  /** A market without volume that closes through its VWAP once, on bar `e`, and then stays there. */
  function Breakout(epoch: seq<real>, e: nat): (r: seq<Bar>)
    ensures |r| == |epoch|
  {
    seq(|epoch|, i requires 0 <= i < |epoch| =>
      if i < e then Bar(epoch[i], None, None, 100.0, None)
      else Bar(epoch[i], None, if i == e then Some(10.0) else None, 101.0, None))
  }

  lemma {:induction false} SumOfZeros(xs: seq<real>)
    requires forall i :: 0 <= i < |xs| ==> xs[i] == 0.0
    ensures Sum(xs) == 0.0
  {
    if xs != [] {
      SumOfZeros(xs[..|xs| - 1]);
    }
  }

  /** Without volume the VWAP is the bar's own typical price. */
  lemma LevelWithoutVolume(bars: seq<Bar>, vwapWindow: nat, i: nat)
    requires i < |bars| && forall j :: 0 <= j < |bars| ==> bars[j].volume == None
    ensures Level(bars, vwapWindow)[i]
        == Some((FieldOf(bars[i], High) + FieldOf(bars[i], Low) + FieldOf(bars[i], Close)) / 3.0)
  {
    hide Vwap;
    hide AverageStart;
    hide Sum;
    var epoch, volume := Epochs(bars), SeriesOf(bars, Volume);
    VwapAt(SeriesOf(bars, High), SeriesOf(bars, Low), SeriesOf(bars, Close), volume, epoch, vwapWindow, i);
    SumOfZeros(volume[AverageStart(epoch, vwapWindow, i)..i + 1]);
  }

  lemma BlendStaysBelow(last: real, value: real, span: nat)
    requires span >= 2 && 100.0 <= last <= 101.0 && last < value <= 101.0
    ensures last < Blend(last, value, Alpha(span)) < value
  {
    var alpha, gap := Alpha(span), value - last;
    assert alpha * (span as real + 1.0) == 2.0;
    assert 0.0 < alpha < 1.0;
    TimesPositive(alpha, gap);
    TimesPositive(1.0 - alpha, gap);
    assert alpha * gap + (1.0 - alpha) * gap == gap;
  }

  lemma BlendOfEqual(x: real, alpha: real)
    ensures Blend(x, x, alpha) == x
  {
  }

  /** The EMA stays at the old close up to the breakout and strictly between the old and the new close from then on. */
  lemma {:induction false} EmaOfStep(values: seq<real>, span: nat, e: nat, i: nat)
    requires span >= 2 && 0 < e && i < |values|
    requires forall j :: 0 <= j < |values| ==> values[j] == if j < e then 100.0 else 101.0
    ensures if i < e then EmaOf(values, span)[i] == 100.0 else 100.0 < EmaOf(values, span)[i] < 101.0
  {
    hide Blend;
    hide Alpha;
    var n := |values|;
    if i < n - 1 {
      EmaOfStep(values[..n - 1], span, e, i);
    } else if n > 1 {
      EmaOfStep(values[..n - 1], span, e, n - 2);
      var last := EmaOf(values[..n - 1], span)[n - 2];
      if i < e {
        BlendOfEqual(100.0, Alpha(span));
      } else {
        BlendStaysBelow(last, 101.0, span);
      }
    }
  }

  /** The breakout enters long on bar `e` and nowhere else, and neither leaves nor turns short afterwards. */
  lemma BreakoutCrossings(epoch: seq<real>, e: nat, p: Params, i: nat)
    requires p.emaWindow >= 2 && 0 < e < |epoch| && e <= i < |epoch|
    ensures var c := Crossed(Breakout(epoch, e), p);
            && (c.longEntry[i] <==> i == e) && !c.longExit[i] && !c.shortEntry[i]
  {
    hide SeriesOf;
    hide Level;
    hide EmaOf;
    var bars := Breakout(epoch, e);
    BreakoutCloses(epoch, e);
    LevelWithoutVolume(bars, p.vwapWindow, i - 1);
    LevelWithoutVolume(bars, p.vwapWindow, i);
    EmaOfStep(SeriesOf(bars, Close), p.emaWindow, e, i);
  }

  lemma BreakoutCloses(epoch: seq<real>, e: nat)
    ensures forall j :: 0 <= j < |epoch| ==> SeriesOf(Breakout(epoch, e), Close)[j] == if j < e then 100.0 else 101.0
  {
  }

  /** After the breakout the position is long exactly when no day end is marked on or after it. */
  lemma BreakoutPosition(epoch: seq<real>, e: nat, p: Params, last: seq<bool>)
    requires p.emaWindow >= 2 && 0 < e < |epoch| == |last|
    ensures LatchPosition(FlatAtDayEnd(Crossed(Breakout(epoch, e), p), last, p.allowShort)) == 1
        <==> LastTrueIndex(last) < e
  {
    hide Crossed;
    hide Breakout;
    hide LatchPosition;
    hide FlatAtDayEnd;
    hide LastTrueIndex;
    var c, t, floor := Crossed(Breakout(epoch, e), p), |last| - 1, LastTrueIndex(last);
    PositionAfterMark(c, last, p.allowShort);
    forall i | e <= i < |epoch|
      ensures (c.longEntry[i] <==> i == e) && !LongExits(c, p.allowShort)[i]
    {
      BreakoutCrossings(epoch, e, p, i);
    }
    if floor < e {
      assert c.longEntry[e];
    }
  }

  lemma BreakoutPrefix(epoch: seq<real>, e: nat, n: nat)
    requires n <= |epoch|
    ensures Breakout(epoch, e)[..n] == Breakout(epoch[..n], e)
    ensures Epochs(Breakout(epoch, e)) == epoch
  {
  }

  /** When the last day end moves, some market with these times tells the two forms apart. */
  lemma UnsettledFormsDiffer(p: Params, epoch: seq<real>, n: nat) returns (e: nat)
    requires p.emaWindow >= 2 && p.sessionExit && Warmup(p) <= n <= |epoch| && !SameDayEnd(epoch, n)
    ensures Epochs(Breakout(epoch, e)) == epoch
    ensures !FormsAgree(EmaVwapStrategy(p), Breakout(epoch, e))
  {
    hide EmaVwapStrategy;
    hide Breakout;
    hide Crossed;
    hide LatchPosition;
    hide FlatAtDayEnd;
    hide LastTrueIndex;
    hide DayEnds;
    var soFar, known := LastTrueIndex(DayEnds(epoch[..n])), LastTrueIndex(DayEnds(epoch)[..n]);
    e := if soFar < known then known else soFar;
    BreakoutPrefix(epoch, e, n);
    SignalsAt(p, Breakout(epoch, e), n);
    BreakoutPosition(epoch[..n], e, p, DayEnds(epoch[..n]));
    BreakoutPosition(epoch[..n], e, p, DayEnds(epoch)[..n]);
  }

  /**
   * The two forms agree on every market with the given bar times if and only if there is no session exit, or the
   * EMA spans a single bar, or no later bar ever moves the last day end.
   */
  lemma EmaVwapFormsAgree(p: Params, epoch: seq<real>)
    requires p.emaWindow >= 1
    ensures (forall bars :: Epochs(bars) == epoch ==> FormsAgree(EmaVwapStrategy(p), bars))
       <==> !p.sessionExit || p.emaWindow == 1 || DayEndsSettled(epoch, Warmup(p))
  {
    hide EmaVwapStrategy;
    hide FormsAgree;
    hide SameDayEnd;
    if !p.sessionExit || p.emaWindow == 1 || DayEndsSettled(epoch, Warmup(p)) {
      forall bars | Epochs(bars) == epoch
        ensures FormsAgree(EmaVwapStrategy(p), bars)
      {
        FormsAgreeWhen(p, bars);
      }
    } else {
      var n :| Warmup(p) <= n <= |epoch| && !SameDayEnd(epoch, n);
      var e := UnsettledFormsDiffer(p, epoch, n);
    }
  }

  lemma FormsAgreeWhen(p: Params, bars: seq<Bar>)
    requires p.emaWindow >= 1
    requires !p.sessionExit || p.emaWindow == 1 || DayEndsSettled(Epochs(bars), Warmup(p))
    ensures FormsAgree(EmaVwapStrategy(p), bars)
  {
    hide FormsAgree;
    if !p.sessionExit {
      AlwaysOpenFormsAgree(p, bars);
    } else if p.emaWindow == 1 {
      SpanOneFormsAgree(p, bars);
    } else {
      SettledFormsAgree(p, bars);
    }
  }

  // ---------- equally spaced bars ----------

  ghost predicate EquallySpaced(epoch: seq<real>, step: real) {
    forall i :: 0 < i < |epoch| ==> epoch[i] - epoch[i - 1] == step
  }

  lemma {:induction false} SortedConstant(xs: seq<real>, x: real)
    requires forall i :: 0 <= i < |xs| ==> xs[i] == x
    ensures Sorted(xs) == xs
  {
    if xs != [] {
      SortedConstant(xs[1..], x);
      assert xs == [xs[0]] + xs[1..];
    }
  }

  lemma EqualDifferences(epoch: seq<real>, step: real)
    requires EquallySpaced(epoch, step)
    ensures forall i :: 0 <= i < |Differences(epoch)| ==> Differences(epoch)[i] == step
  {
    forall i | 0 <= i < |Differences(epoch)|
      ensures Differences(epoch)[i] == step
    {
      assert epoch[i + 1] - epoch[i + 1 - 1] == step;
    }
  }

  lemma MedianSpacing(epoch: seq<real>, step: real)
    requires |epoch| > 1 && EquallySpaced(epoch, step)
    ensures Median(Differences(epoch)) == step
  {
    hide Sorted;
    EqualDifferences(epoch, step);
    SortedConstant(Differences(epoch), step);
  }

  lemma LastOfDayCausal(epoch: seq<real>, step: real, n: nat)
    requires n <= |epoch|
    ensures LastOfDay(epoch[..n], step) == LastOfDay(epoch, step)[..n]
  {
  }

  /** On equally spaced bars no later bar moves a day end. */
  lemma EquallySpacedIsSettled(epoch: seq<real>, step: real, from: nat)
    requires EquallySpaced(epoch, step) && 1 < from
    ensures DayEndsSettled(epoch, from)
  {
    hide Median;
    hide Differences;
    hide LastOfDay;
    hide LastTrueIndex;
    forall n | from <= n <= |epoch|
      ensures SameDayEnd(epoch, n)
    {
      MedianSpacing(epoch, step);
      MedianSpacing(epoch[..n], step);
      LastOfDayCausal(epoch, step, n);
    }
  }

  // ---------- a concrete case ----------

  /** Bars one minute, then two minutes apart, around midnight. */
  const UNEVEN: seq<real> := [85920.0, 85980.0, 86040.0, 86100.0, 86220.0, 86340.0, 86460.0]

  const DAY_TRADER := Params(2, 1, false, true, false)

  lemma MedianOfUneven()
    ensures Median(Differences(UNEVEN[..6])) == 60.0
    ensures Median(Differences(UNEVEN)) == 90.0
  {
    var six, seven := Differences(UNEVEN[..6]), Differences(UNEVEN);
    assert six == [60.0, 60.0, 60.0, 120.0, 120.0];
    assert seven == [60.0, 60.0, 60.0, 120.0, 120.0, 120.0];
    SortedConstant([120.0, 120.0], 120.0);
    SortedConstant([120.0, 120.0, 120.0], 120.0);
    assert Sorted([60.0, 120.0, 120.0]) == [60.0, 120.0, 120.0];
    assert Sorted([60.0, 60.0, 120.0, 120.0]) == [60.0, 60.0, 120.0, 120.0];
    assert Sorted([60.0, 120.0, 120.0, 120.0]) == [60.0, 120.0, 120.0, 120.0];
    assert Sorted([60.0, 60.0, 120.0, 120.0, 120.0]) == [60.0, 60.0, 120.0, 120.0, 120.0];
  }

  lemma MidnightOfUneven()
    ensures LastOfDay(UNEVEN[..6], 60.0)[5] && !LastOfDay(UNEVEN, 90.0)[5]
  {
    assert (86400.0 / DAY).Floor == 1;
    assert (86430.0 / DAY).Floor == 1;
  }

  /**
   * On these seven bars the forms disagree about the sixth: the runtime, seeing one-minute spacing so far, takes it
   * for the last bar of the day and stays flat, while the backtest, with a wider median, is long.
   */
  lemma SessionExitLooksAhead()
    ensures !FormsAgree(EmaVwapStrategy(DAY_TRADER), Breakout(UNEVEN, 5))
  {
    hide Median;
    hide Differences;
    hide LastOfDay;
    hide Breakout;
    hide EmaVwapStrategy;
    hide Crossed;
    hide LatchPosition;
    hide FlatAtDayEnd;
    MedianOfUneven();
    MidnightOfUneven();
    BreakoutPrefix(UNEVEN, 5, 6);
    SignalsAt(DAY_TRADER, Breakout(UNEVEN, 5), 6);
    BreakoutPosition(UNEVEN[..6], 5, DAY_TRADER, DayEnds(UNEVEN[..6]));
    BreakoutPosition(UNEVEN[..6], 5, DAY_TRADER, DayEnds(UNEVEN)[..6]);
  }
}
