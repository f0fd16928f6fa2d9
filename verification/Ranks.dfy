/** Sorting and the median, by what they mean for the values themselves. */
module Ranks {
  import opened Numbers

  ghost predicate Ascending(xs: seq<real>) {
    forall i, j :: 0 <= i < j < |xs| ==> xs[i] <= xs[j]
  }

  /** How many of the values are at most, or at least, `bound`. */
  ghost function AtMost(xs: seq<real>, bound: real): nat {
    if xs == [] then 0 else (if xs[0] <= bound then 1 else 0) + AtMost(xs[1..], bound)
  }

  ghost function AtLeast(xs: seq<real>, bound: real): nat {
    if xs == [] then 0 else (if xs[0] >= bound then 1 else 0) + AtLeast(xs[1..], bound)
  }

  // ---------- sorting ----------

  lemma {:induction false} InsertAdds(x: real, sorted: seq<real>)
    ensures multiset(Insert(x, sorted)) == multiset([x]) + multiset(sorted)
  {
    if sorted != [] && x > sorted[0] {
      InsertAdds(x, sorted[1..]);
      assert sorted == [sorted[0]] + sorted[1..];
    }
  }

  lemma {:induction false} InsertBounded(x: real, sorted: seq<real>, low: real)
    requires low <= x && forall i :: 0 <= i < |sorted| ==> low <= sorted[i]
    ensures forall i :: 0 <= i < |Insert(x, sorted)| ==> low <= Insert(x, sorted)[i]
  {
    if sorted != [] && x > sorted[0] {
      InsertBounded(x, sorted[1..], low);
    }
  }

  lemma {:induction false} InsertKeeps(x: real, sorted: seq<real>)
    requires Ascending(sorted)
    ensures Ascending(Insert(x, sorted))
  {
    if sorted != [] && x > sorted[0] {
      InsertKeeps(x, sorted[1..]);
      InsertBounded(x, sorted[1..], sorted[0]);
    }
  }

  /** Sorting puts the values in ascending order and loses, adds or changes none. */
  lemma {:induction false} SortedSorts(xs: seq<real>)
    ensures Ascending(Sorted(xs))
    ensures multiset(Sorted(xs)) == multiset(xs)
  {
    if xs != [] {
      SortedSorts(xs[1..]);
      InsertKeeps(xs[0], Sorted(xs[1..]));
      InsertAdds(xs[0], Sorted(xs[1..]));
      assert xs == [xs[0]] + xs[1..];
    }
  }

  lemma {:induction false} InsertCounts(x: real, sorted: seq<real>, bound: real)
    ensures AtMost(Insert(x, sorted), bound) == AtMost(sorted, bound) + if x <= bound then 1 else 0
    ensures AtLeast(Insert(x, sorted), bound) == AtLeast(sorted, bound) + if x >= bound then 1 else 0
  {
    if sorted != [] && x > sorted[0] {
      InsertCounts(x, sorted[1..], bound);
    }
  }

  lemma {:induction false} SortedCounts(xs: seq<real>, bound: real)
    ensures AtMost(Sorted(xs), bound) == AtMost(xs, bound)
    ensures AtLeast(Sorted(xs), bound) == AtLeast(xs, bound)
  {
    if xs != [] {
      SortedCounts(xs[1..], bound);
      InsertCounts(xs[0], Sorted(xs[1..]), bound);
    }
  }

  // ---------- ranks ----------

  lemma {:induction false} AllAtLeast(xs: seq<real>, bound: real)
    requires forall i :: 0 <= i < |xs| ==> bound <= xs[i]
    ensures AtLeast(xs, bound) == |xs|
  {
    if xs != [] {
      AllAtLeast(xs[1..], bound);
    }
  }

  /** In ascending order, the value at place `k` has at least `k + 1` values up to it and `n - k` from it on. */
  lemma {:induction false} PlaceRanks(xs: seq<real>, k: nat)
    requires Ascending(xs) && k < |xs|
    ensures AtMost(xs, xs[k]) >= k + 1 && AtLeast(xs, xs[k]) >= |xs| - k
  {
    if k > 0 {
      PlaceRanks(xs[1..], k - 1);
    } else {
      AllAtLeast(xs, xs[0]);
    }
  }

  lemma {:induction false} CountsGrow(xs: seq<real>, low: real, high: real)
    requires low <= high
    ensures AtMost(xs, low) <= AtMost(xs, high) && AtLeast(xs, high) <= AtLeast(xs, low)
  {
    if xs != [] {
      CountsGrow(xs[1..], low, high);
    }
  }

  /** A pair of values of `xs` between which, in ascending order, the middle of the list lies. */
  ghost predicate Middle(xs: seq<real>, low: real, high: real) {
    && low in xs && high in xs && low <= high
    && 2 * AtMost(xs, low) >= |xs| && 2 * AtLeast(xs, high) >= |xs|
    && (|xs| % 2 == 1 ==> low == high)
    && (|xs| % 2 == 0 ==> 2 * AtMost(xs, high) >= |xs| + 2 && 2 * AtLeast(xs, low) >= |xs| + 2)
  }

  /** The median is the middle value, or the mean of the two middle ones: at least half lie on either side of it. */
  lemma MedianRanks(xs: seq<real>)
    requires xs != []
    ensures exists low, high :: Middle(xs, low, high) && 2.0 * Median(xs) == low + high
    ensures 2 * AtMost(xs, Median(xs)) >= |xs| && 2 * AtLeast(xs, Median(xs)) >= |xs|
  {
    hide Sorted;
    var sorted, half := Sorted(xs), |xs| / 2;
    var low, high := sorted[if |xs| % 2 == 1 then half else half - 1], sorted[half];
    SortedSorts(xs);
    assert low in multiset(sorted) && high in multiset(sorted);
    PlaceRanks(sorted, half);
    PlaceRanks(sorted, if |xs| % 2 == 1 then half else half - 1);
    SortedCounts(xs, low);
    SortedCounts(xs, high);
    assert Middle(xs, low, high);
    CountsGrow(xs, low, Median(xs));
    CountsGrow(xs, Median(xs), high);
  }
}
