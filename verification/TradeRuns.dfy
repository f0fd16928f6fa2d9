/**
 * The H13 study's trades, `scripts/research/h13_study.py`: runs of days on which the position keeps one non-zero sign.
 */
module TradeRuns {
  import opened Numbers

  function Sign(x: real): int {
    if x > 0.0 then 1 else if x < 0.0 then -1 else 0
  }

  function Signs(earning: seq<real>): (r: seq<int>)
    ensures |r| == |earning|
  {
    seq(|earning|, i requires 0 <= i < |earning| => Sign(earning[i]))
  }

  /** Days `lo` up to, not including, `hi`. */
  datatype Run = Run(lo: nat, hi: nat)

  /** A non-empty stretch of one non-zero sign that cannot be extended to either side. */
  ghost predicate IsMaximalRun(side: seq<int>, run: Run) {
    && run.lo < run.hi <= |side|
    && side[run.lo] != 0
    && (forall i :: run.lo <= i < run.hi ==> side[i] == side[run.lo])
    && (run.lo > 0 ==> side[run.lo - 1] != side[run.lo])
    && (run.hi < |side| ==> side[run.hi] != side[run.lo])
  }

  /** The runs are maximal, in order without overlap, and cover every day with a position before day `n`. */
  ghost predicate Covers(side: seq<int>, runs: seq<Run>, n: nat)
    requires n <= |side|
  {
    && (forall k :: 0 <= k < |runs| ==> IsMaximalRun(side, runs[k]))
    && (forall k, l :: 0 <= k < l < |runs| ==> runs[k].hi <= runs[l].lo)
    && (forall i :: 0 <= i < n && side[i] != 0 ==> InSome(runs, i))
  }

  ghost predicate InSome(runs: seq<Run>, i: nat) {
    exists k :: 0 <= k < |runs| && runs[k].lo <= i < runs[k].hi
  }

  ghost function Slices(daily: seq<real>, runs: seq<Run>): (r: seq<seq<real>>)
    requires forall k :: 0 <= k < |runs| ==> runs[k].lo <= runs[k].hi <= |daily|
    ensures |r| == |runs|
  {
    seq(|runs|, k requires 0 <= k < |runs| => daily[runs[k].lo..runs[k].hi])
  }

  /** The run that is open before day `index`, when one is. */
  ghost predicate Opens(side: seq<int>, start: nat, index: nat) {
    && start < index <= |side| && side[start] != 0
    && (start > 0 ==> side[start - 1] != side[start])
    && forall i :: start <= i < index ==> side[i] == side[start]
  }

  /** What the loop of `Trades` has settled before it looks at day `index`. */
  ghost predicate Settled(side: seq<int>, runs: seq<Run>, start: Option<nat>, index: nat) {
    && index <= |side|
    && (start.Some? ==> Opens(side, start.value, index))
    && (start == None && index > 0 ==> side[index - 1] == 0)
    && Covers(side, runs, if start.Some? then start.value else index)
    && EndsBy(runs, if start.Some? then start.value else index)
  }

  ghost predicate EndsBy(runs: seq<Run>, day: nat) {
    forall k :: 0 <= k < |runs| ==> runs[k].hi <= day
  }

  /** One slice of the daily results for each maximal run, in order, and nothing else. */
  ghost predicate SlicesRuns(earning: seq<real>, daily: seq<real>, out: seq<seq<real>>) {
    exists runs :: Covers(Signs(earning), runs, |earning|) && SlicesOf(out, daily, runs)
  }

  method Trades(earning: seq<real>, daily: seq<real>) returns (out: seq<seq<real>>)
    requires |earning| == |daily|
    ensures SlicesRuns(earning, daily, out)
  {
    hide Covers;
    hide Opens;
    hide EndsBy;
    hide IsMaximalRun;
    hide Sign;
    var side := Signs(earning);
    var start: Option<nat> := None;
    ghost var runs: seq<Run> := [];
    out := [];
    NothingSettled(side);
    for index := 0 to |side| + 1
      invariant index <= |side| ==> Settled(side, runs, start, index)
      invariant index > |side| ==> start == None && Covers(side, runs, |side|)
      invariant SlicesOf(out, daily, runs)
    {
      var current := if index < |side| then side[index] else 0;
      if start.Some? {
        StartBefore(side, runs, start.value, index);
      }
      SettleDay(side, runs, start, index);
      if start.Some? && (index == |side| || current != side[start.value]) {
        SlicesMore(out, daily, runs, start.value, index);
        out := out + [daily[start.value..index]];
        runs := runs + [Run(start.value, index)];
        start := None;
      }
      if start == None && index < |side| && current != 0 {
        start := Some(index);
      }
    }
  }

  ghost predicate SlicesOf(out: seq<seq<real>>, daily: seq<real>, runs: seq<Run>) {
    && (forall k :: 0 <= k < |runs| ==> runs[k].lo <= runs[k].hi <= |daily|)
    && out == Slices(daily, runs)
  }

  lemma SlicesMore(out: seq<seq<real>>, daily: seq<real>, runs: seq<Run>, lo: nat, hi: nat)
    requires SlicesOf(out, daily, runs) && lo <= hi <= |daily|
    ensures SlicesOf(out + [daily[lo..hi]], daily, runs + [Run(lo, hi)])
  {
  }

  lemma NothingSettled(side: seq<int>)
    ensures Settled(side, [], None, 0)
  {
  }

  lemma StartBefore(side: seq<int>, runs: seq<Run>, start: nat, index: nat)
    requires index <= |side| && Settled(side, runs, Some(start), index)
    ensures start < index && side[start] != 0
  {
  }

  /** One turn of the loop, on whether a run ends, goes on or begins at day `index`; the last turn has no day. */
  lemma SettleDay(side: seq<int>, runs: seq<Run>, start: Option<nat>, index: nat)
    requires index <= |side| && Settled(side, runs, start, index)
    ensures start.Some? ==> start.value < index
    ensures var ends := start.Some? && (index == |side| || side[index] != side[start.value]);
            var runs' := if ends then runs + [Run(start.value, index)] else runs;
            if index == |side| then Covers(side, runs', |side|)
            else
              var kept := if ends then None else start;
              Settled(side, runs', if kept == None && side[index] != 0 then Some(index) else kept, index + 1)
  {
    hide Covers;
    if start.Some? && (index == |side| || side[index] != side[start.value]) {
      CoversMore(side, runs, start.value, index);
      if index < |side| && side[index] == 0 {
        CoversFlat(side, runs + [Run(start.value, index)], index);
      }
    } else if start == None && index < |side| && side[index] == 0 {
      CoversFlat(side, runs, index);
    }
  }

  lemma CoversFlat(side: seq<int>, runs: seq<Run>, n: nat)
    requires n < |side| && side[n] == 0 && Covers(side, runs, n)
    ensures Covers(side, runs, n + 1)
  {
  }

  lemma CoversMore(side: seq<int>, runs: seq<Run>, lo: nat, hi: nat)
    requires lo < hi <= |side| && Covers(side, runs, lo) && IsMaximalRun(side, Run(lo, hi))
    requires forall k :: 0 <= k < |runs| ==> runs[k].hi <= lo
    ensures Covers(side, runs + [Run(lo, hi)], hi)
  {
    var more := runs + [Run(lo, hi)];
    forall i | 0 <= i < hi && side[i] != 0
      ensures InSome(more, i)
    {
      if i < lo {
        var k :| 0 <= k < |runs| && runs[k].lo <= i < runs[k].hi;
        assert more[k] == runs[k];
      } else {
        assert more[|runs|] == Run(lo, hi);
      }
    }
  }

  // ---------- the runs are determined, and carry all the profit and loss ----------

  lemma SameRun(side: seq<int>, a: Run, b: Run, i: nat)
    requires IsMaximalRun(side, a) && IsMaximalRun(side, b)
    requires a.lo <= i < a.hi && b.lo <= i < b.hi
    ensures a == b
  {
    assert side[a.lo] == side[i] == side[b.lo];
  }

  /** Runs that cover the days are exactly the maximal runs, each once. */
  lemma RunsAreExactlyMaximal(side: seq<int>, runs: seq<Run>, run: Run)
    requires Covers(side, runs, |side|)
    ensures run in runs <==> IsMaximalRun(side, run)
    ensures forall k, l :: 0 <= k < l < |runs| ==> runs[k] != runs[l]
  {
    if IsMaximalRun(side, run) {
      assert InSome(runs, run.lo);
      var k :| 0 <= k < |runs| && runs[k].lo <= run.lo < runs[k].hi;
      SameRun(side, runs[k], run, run.lo);
    }
    forall k, l | 0 <= k < l < |runs|
      ensures runs[k] != runs[l]
    {
      assert IsMaximalRun(side, runs[k]);
    }
  }

  /** The daily results of the days with a position. */
  ghost function HeldDays(side: seq<int>, daily: seq<real>, n: nat): real
    requires n <= |side| == |daily|
  {
    if n == 0 then 0.0 else HeldDays(side, daily, n - 1) + if side[n - 1] != 0 then daily[n - 1] else 0.0
  }

  /** The results of the first `k` trades together. */
  ghost function TotalOf(trades: seq<seq<real>>, k: nat): real
    requires k <= |trades|
  {
    if k == 0 then 0.0 else TotalOf(trades, k - 1) + Sum(trades[k - 1])
  }

  lemma {:induction false} HeldDaysFlat(side: seq<int>, daily: seq<real>, lo: nat, hi: nat)
    requires lo <= hi <= |side| == |daily| && forall i :: lo <= i < hi ==> side[i] == 0
    ensures HeldDays(side, daily, hi) == HeldDays(side, daily, lo)
  {
    if lo < hi {
      HeldDaysFlat(side, daily, lo, hi - 1);
    }
  }

  lemma {:induction false} HeldDaysOfRun(side: seq<int>, daily: seq<real>, lo: nat, hi: nat)
    requires lo <= hi <= |side| == |daily| && forall i :: lo <= i < hi ==> side[i] != 0
    ensures HeldDays(side, daily, hi) == HeldDays(side, daily, lo) + Sum(daily[lo..hi])
  {
    if lo < hi {
      HeldDaysOfRun(side, daily, lo, hi - 1);
      assert daily[lo..hi] == daily[lo..hi - 1] + [daily[hi - 1]];
      SumAppend(daily[lo..hi - 1], daily[hi - 1]);
    } else {
      assert daily[lo..hi] == [];
    }
  }

  ghost function EndOf(runs: seq<Run>, k: nat): nat
    requires k <= |runs|
  {
    if k == 0 then 0 else runs[k - 1].hi
  }

  /** Between two runs, before the first and after the last, nothing is held. */
  lemma GapIsFlat(side: seq<int>, runs: seq<Run>, k: nat, i: nat)
    requires Covers(side, runs, |side|) && k <= |runs|
    requires EndOf(runs, k) <= i < if k < |runs| then runs[k].lo else |side|
    requires i < |side|
    ensures side[i] == 0
  {
    if side[i] != 0 {
      var l :| 0 <= l < |runs| && runs[l].lo <= i < runs[l].hi;
      RunsInOrder(side, runs, k, l);
    }
  }

  lemma RunsInOrder(side: seq<int>, runs: seq<Run>, k: nat, l: nat)
    requires Covers(side, runs, |side|) && k <= |runs| && l < |runs|
    ensures if l < k then runs[l].hi <= EndOf(runs, k) else k < |runs| && runs[k].lo <= runs[l].lo
  {
    hide IsMaximalRun;
    hide InSome;
    RunShape(side, runs, l);
    if k <= l {
      RunShape(side, runs, k);
    } else {
      RunShape(side, runs, k - 1);
    }
  }

  lemma RunShape(side: seq<int>, runs: seq<Run>, k: nat)
    requires Covers(side, runs, |side|) && k < |runs|
    ensures IsMaximalRun(side, runs[k]) && runs[k].lo < runs[k].hi <= |side|
    ensures EndOf(runs, k) <= runs[k].lo
    ensures forall i :: runs[k].lo <= i < runs[k].hi ==> side[i] != 0
  {
    hide InSome;
  }

  lemma {:induction false} TotalToEnd(side: seq<int>, daily: seq<real>, runs: seq<Run>, k: nat)
    requires |side| == |daily| && Covers(side, runs, |side|) && k <= |runs|
    requires forall j :: 0 <= j < |runs| ==> runs[j].lo <= runs[j].hi <= |daily|
    ensures EndOf(runs, k) <= |side|
    ensures TotalOf(Slices(daily, runs), k) == HeldDays(side, daily, EndOf(runs, k))
  {
    hide Sum;
    hide HeldDays;
    hide Covers;
    hide IsMaximalRun;
    if k > 0 {
      TotalToEnd(side, daily, runs, k - 1);
      var run := runs[k - 1];
      RunShape(side, runs, k - 1);
      forall i | EndOf(runs, k - 1) <= i < run.lo
        ensures side[i] == 0
      {
        GapIsFlat(side, runs, k - 1, i);
      }
      HeldDaysFlat(side, daily, EndOf(runs, k - 1), run.lo);
      HeldDaysOfRun(side, daily, run.lo, run.hi);
    } else {
      NoDays(side, daily);
    }
  }

  lemma NoDays(side: seq<int>, daily: seq<real>)
    requires |side| == |daily|
    ensures HeldDays(side, daily, 0) == 0.0
  {
  }

  /** The trades' results add up to the results of exactly the days with a position. */
  lemma TradesCarryAllResults(earning: seq<real>, daily: seq<real>, out: seq<seq<real>>)
    requires |earning| == |daily| && SlicesRuns(earning, daily, out)
    ensures TotalOf(out, |out|) == HeldDays(Signs(earning), daily, |earning|)
  {
    var runs :| Covers(Signs(earning), runs, |earning|) && SlicesOf(out, daily, runs);
    RunsCarryAllResults(Signs(earning), daily, runs);
  }

  lemma RunsCarryAllResults(side: seq<int>, daily: seq<real>, runs: seq<Run>)
    requires |side| == |daily| && Covers(side, runs, |side|)
    ensures TotalOf(Slices(daily, runs), |runs|) == HeldDays(side, daily, |side|)
  {
    hide HeldDays;
    hide Covers;
    hide Slices;
    forall j | 0 <= j < |runs|
      ensures runs[j].lo <= runs[j].hi <= |daily|
    {
      RunShape(side, runs, j);
    }
    TotalToEnd(side, daily, runs, |runs|);
    forall i | EndOf(runs, |runs|) <= i < |side|
      ensures side[i] == 0
    {
      GapIsFlat(side, runs, |runs|, i);
    }
    HeldDaysFlat(side, daily, EndOf(runs, |runs|), |side|);
  }
}
