/** Entry and exit rules combined into a held position, the latch of `src/backtest/strategies.py`. */
module Latch {
  import opened Numbers

  /** Boolean arrays over the bars, oldest first; a strategy without a short side leaves out its pair. */
  datatype RuleArrays = RuleArrays(longEntry: seq<bool>, longExit: seq<bool>, shortEntry: Option<seq<bool>>,
    shortExit: Option<seq<bool>>) {

    predicate Aligned() {
      && |longEntry| == |longExit|
      && (shortEntry.Some? ==> |shortEntry.value| == |longEntry|)
      && (shortExit.Some? ==> |shortExit.value| == |longEntry|)
    }

    predicate HasShortSide() {
      shortEntry.Some? && shortExit.Some?
    }

    /** The rules over the first `n` bars. */
    function Take(n: nat): (r: RuleArrays)
      requires Aligned() && n <= |longEntry|
      ensures r.Aligned() && |r.longEntry| == n
    {
      RuleArrays(longEntry[..n], longExit[..n],
                 if shortEntry.Some? then Some(shortEntry.value[..n]) else None,
                 if shortExit.Some? then Some(shortExit.value[..n]) else None)
    }

    /** An entry on the short side also ends a long. */
    function EffectiveLongExit(): (r: seq<bool>)
      requires Aligned()
      ensures |r| == |longEntry|
    {
      if HasShortSide() then Or(longExit, shortEntry.value) else longExit
    }

    function EffectiveShortExit(): (r: seq<bool>)
      requires Aligned() && HasShortSide()
      ensures |r| == |longEntry|
    {
      Or(shortExit.value, longEntry)
    }
  }

  type Rules = r: RuleArrays | r.Aligned() witness RuleArrays([], [], None, None)

  function Or(a: seq<bool>, b: seq<bool>): (r: seq<bool>)
    requires |a| == |b|
    ensures |r| == |a| && forall i :: 0 <= i < |a| ==> r[i] == (a[i] || b[i])
  {
    seq(|a|, i requires 0 <= i < |a| => a[i] || b[i])
  }

  // ---------- the form that looks at the last indices, on the whole history ----------

  function LastTrueIndex(mask: seq<bool>): (last: int)
    ensures -1 <= last < |mask|
    ensures last >= 0 ==> mask[last]
    ensures forall j :: last < j < |mask| ==> !mask[j]
  {
    if mask == [] then -1
    else if mask[|mask| - 1] then |mask| - 1
    else LastTrueIndex(mask[..|mask| - 1])
  }

  function LatchPosition(r: Rules): int {
    var lastLongEntry := LastTrueIndex(r.longEntry);
    if lastLongEntry >= 0 && lastLongEntry > LastTrueIndex(r.EffectiveLongExit()) then 1
    else if r.HasShortSide() then
      var lastShortEntry := LastTrueIndex(r.shortEntry.value);
      if lastShortEntry >= 0 && lastShortEntry > LastTrueIndex(r.EffectiveShortExit()) then -1 else 0
    else 0
  }

  // ---------- the vectorised form, every bar at once ----------

  function IndexWhere(mask: seq<bool>): seq<int> {
    seq(|mask|, i requires 0 <= i < |mask| => if mask[i] then i else -1)
  }

  function RunningMaximum(xs: seq<int>): (r: seq<int>)
    ensures |r| == |xs|
  {
    if |xs| <= 1 then xs
    else
      var before := RunningMaximum(xs[..|xs| - 1]);
      var last := xs[|xs| - 1];
      before + [if last < before[|before| - 1] then before[|before| - 1] else last]
  }

  function LastTrueSeries(mask: seq<bool>): (r: seq<int>)
    ensures |r| == |mask|
  {
    RunningMaximum(IndexWhere(mask))
  }

  function LatchSeries(r: Rules): (s: seq<int>)
    ensures |s| == |r.longEntry|
  {
    var n := |r.longEntry|;
    var lastLongEntry, lastLongExit := LastTrueSeries(r.longEntry), LastTrueSeries(r.EffectiveLongExit());
    if !r.HasShortSide() then
      seq(n, i requires 0 <= i < n => if lastLongEntry[i] >= 0 && lastLongEntry[i] > lastLongExit[i] then 1 else 0)
    else
      var lastShortEntry, lastShortExit := LastTrueSeries(r.shortEntry.value), LastTrueSeries(r.EffectiveShortExit());
      seq(n, i requires 0 <= i < n =>
        if lastLongEntry[i] >= 0 && lastLongEntry[i] > lastLongExit[i] then 1
        else if lastShortEntry[i] >= 0 && lastShortEntry[i] > lastShortExit[i] then -1
        else 0)
  }

  // ---------- two independent readings ----------

  /** Some entry at or before `t` has had no exit since, its own bar included. */
  ghost predicate Held(entry: seq<bool>, exit: seq<bool>, t: nat)
    requires t < |entry| == |exit|
  {
    exists e :: 0 <= e <= t && entry[e] && forall j :: e <= j <= t ==> !exit[j]
  }

  ghost predicate LongHeld(r: Rules, t: nat)
    requires t < |r.longEntry|
  {
    Held(r.longEntry, r.EffectiveLongExit(), t)
  }

  ghost predicate ShortHeld(r: Rules, t: nat)
    requires t < |r.longEntry|
  {
    r.HasShortSide() && Held(r.shortEntry.value, r.EffectiveShortExit(), t)
  }

  /** One state carried from bar to bar: an exit beats an entry on the same bar, the other side's entry is an exit. */
  function Machine(r: Rules, t: nat): int
    requires t < |r.longEntry|
  {
    var before := if t == 0 then 0 else Machine(r, t - 1);
    if (r.longEntry[t] || before == 1) && !r.EffectiveLongExit()[t] then 1
    else if r.HasShortSide() && (r.shortEntry.value[t] || before == -1) && !r.EffectiveShortExit()[t] then -1
    else 0
  }

  // ---------- they agree on every bar ----------

  lemma {:induction false} LastTrueSeriesAt(mask: seq<bool>, t: nat)
    requires t < |mask|
    ensures LastTrueSeries(mask)[t] == LastTrueIndex(mask[..t + 1])
  {
    if t < |mask| - 1 {
      LastTrueSeriesAt(mask[..|mask| - 1], t);
      assert IndexWhere(mask)[..|mask| - 1] == IndexWhere(mask[..|mask| - 1]);
      assert mask[..|mask| - 1][..t + 1] == mask[..t + 1];
    } else {
      assert mask[..t + 1] == mask;
      if t > 0 {
        LastTrueSeriesAt(mask[..t], t - 1);
        assert IndexWhere(mask)[..t] == IndexWhere(mask[..t]);
        assert mask[..t][..t] == mask[..t];
      }
    }
  }

  lemma HeldByLastIndex(entry: seq<bool>, exit: seq<bool>, t: nat)
    requires t < |entry| == |exit|
    ensures var lastEntry, lastExit := LastTrueIndex(entry[..t + 1]), LastTrueIndex(exit[..t + 1]);
            Held(entry, exit, t) <==> lastEntry >= 0 && lastEntry > lastExit
  {
    var entries, exits := entry[..t + 1], exit[..t + 1];
    var lastEntry, lastExit := LastTrueIndex(entries), LastTrueIndex(exits);
    if Held(entry, exit, t) {
      var e :| 0 <= e <= t && entry[e] && forall j :: e <= j <= t ==> !exit[j];
      assert entries[e];
      assert lastExit >= 0 ==> exit[lastExit];
    }
    if lastEntry >= 0 && lastEntry > lastExit {
      assert entry[lastEntry];
      assert forall j :: lastEntry <= j <= t ==> exit[j] == exits[j];
    }
  }

  lemma HeldStep(entry: seq<bool>, exit: seq<bool>, t: nat)
    requires t < |entry| == |exit|
    ensures Held(entry, exit, t) <==> !exit[t] && (entry[t] || (t > 0 && Held(entry, exit, t - 1)))
  {
    if Held(entry, exit, t) {
      var e :| 0 <= e <= t && entry[e] && forall j :: e <= j <= t ==> !exit[j];
      if e < t {
        assert Held(entry, exit, t - 1);
      }
    }
    if !exit[t] && t > 0 && Held(entry, exit, t - 1) {
      var e :| 0 <= e <= t - 1 && entry[e] && forall j :: e <= j <= t - 1 ==> !exit[j];
      assert 0 <= e <= t && entry[e] && forall j :: e <= j <= t ==> !exit[j];
    }
  }

  ghost function Reading(r: Rules, t: nat): int
    requires t < |r.longEntry|
  {
    if LongHeld(r, t) then 1 else if ShortHeld(r, t) then -1 else 0
  }

  lemma {:induction false} MachineReads(r: Rules, t: nat)
    requires t < |r.longEntry|
    ensures Machine(r, t) == Reading(r, t)
    ensures !(LongHeld(r, t) && ShortHeld(r, t))
  {
    HeldStep(r.longEntry, r.EffectiveLongExit(), t);
    if r.HasShortSide() {
      HeldStep(r.shortEntry.value, r.EffectiveShortExit(), t);
    }
    if t > 0 {
      MachineReads(r, t - 1);
    }
  }

  lemma TakeExits(r: Rules, n: nat)
    requires n <= |r.longEntry|
    ensures r.Take(n).EffectiveLongExit() == r.EffectiveLongExit()[..n]
    ensures r.HasShortSide() ==> r.Take(n).EffectiveShortExit() == r.EffectiveShortExit()[..n]
  {
  }

  lemma PositionReads(r: Rules, t: nat)
    requires t < |r.longEntry|
    ensures LatchPosition(r.Take(t + 1)) == Reading(r, t)
  {
    TakeExits(r, t + 1);
    HeldByLastIndex(r.longEntry, r.EffectiveLongExit(), t);
    if r.HasShortSide() {
      HeldByLastIndex(r.shortEntry.value, r.EffectiveShortExit(), t);
    }
  }

  lemma SeriesIsPosition(r: Rules, t: nat)
    requires t < |r.longEntry|
    ensures LatchSeries(r)[t] == LatchPosition(r.Take(t + 1))
  {
    hide LastTrueSeries;
    hide LastTrueIndex;
    TakeExits(r, t + 1);
    LastTrueSeriesAt(r.longEntry, t);
    LastTrueSeriesAt(r.EffectiveLongExit(), t);
    if r.HasShortSide() {
      LastTrueSeriesAt(r.shortEntry.value, t);
      LastTrueSeriesAt(r.EffectiveShortExit(), t);
    }
  }

  /**
   * Four forms of the latch agree on every bar: the vectorised series, the last-index form on the history up to
   * that bar, the one-state machine, and "an entry not exited since"; and never are both sides held.
   */
  lemma FourForms(r: Rules, t: nat)
    requires t < |r.longEntry|
    ensures LatchSeries(r)[t] == LatchPosition(r.Take(t + 1)) == Machine(r, t) == Reading(r, t)
    ensures !(LongHeld(r, t) && ShortHeld(r, t))
  {
    SeriesIsPosition(r, t);
    PositionReads(r, t);
    MachineReads(r, t);
  }
}
