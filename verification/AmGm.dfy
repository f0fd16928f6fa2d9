/** The inequality between the arithmetic and the geometric mean, with its case of equality. */
module AmGm {
  import opened Numbers

  ghost predicate AllEqual(xs: seq<real>) {
    forall i :: 0 <= i < |xs| ==> xs[i] == xs[0]
  }

  ghost predicate NonNegative(xs: seq<real>) {
    forall i :: 0 <= i < |xs| ==> 0.0 <= xs[i]
  }

  function Mean(xs: seq<real>): real
    requires xs != []
  {
    Sum(xs) / |xs| as real
  }

  /** The tangent to `x^m` at `a`, evaluated at `b`, where `p` is `a^(m-1)`. */
  ghost function TangentAt(p: real, a: real, b: real, m: real): real {
    m * p * b - (m - 1.0) * (a * p)
  }

  lemma SquareGap(p: real, a: real, b: real, m: real)
    ensures b * (m * p * b - (m - 1.0) * (a * p))
        == (m + 1.0) * (a * p) * b - m * (a * (a * p)) + m * p * ((b - a) * (b - a))
  {
    var d := b - a;
    assert d * d == b * b - 2.0 * a * b + a * a;
    calc {
      b * (m * p * b - (m - 1.0) * (a * p));
      m * p * (b * b) - (m - 1.0) * p * (a * b);
      m * p * (b * b - 2.0 * a * b + a * a) + (m + 1.0) * p * (a * b) - m * p * (a * a);
    }
  }

  /** What the next tangent falls short of `b` times this one by. */
  ghost function Gap(p: real, a: real, b: real, m: real): real {
    Times(Times(m, p), Square(b - a))
  }

  ghost function Square(d: real): real {
    d * d
  }

  lemma SquareSign(d: real)
    ensures 0.0 <= Square(d)
    ensures d != 0.0 ==> 0.0 < Square(d)
  {
    if d > 0.0 {
      TimesPositive(d, d);
    } else if d < 0.0 {
      TimesPositive(-d, -d);
      assert (-d) * (-d) == d * d;
    }
  }

  lemma TangentGap(p: real, a: real, b: real, m: real)
    ensures Times(b, TangentAt(p, a, b, m)) == TangentAt(Times(a, p), a, b, m + 1.0) + Gap(p, a, b, m)
  {
    SquareGap(p, a, b, m);
  }

  lemma GapSign(p: real, a: real, b: real, m: real)
    requires 0.0 <= p && 0.0 < m
    ensures 0.0 <= Gap(p, a, b, m)
    ensures 0.0 < p && a != b ==> 0.0 < Gap(p, a, b, m)
  {
    hide Times;
    hide Square;
    SquareSign(b - a);
    TimesNonNegative(m, p);
    TimesNonNegative(Times(m, p), Square(b - a));
    if 0.0 < p && a != b {
      TimesPositive(m, p);
      TimesPositive(Times(m, p), Square(b - a));
    }
  }

  /** The curve lies on or above its tangent at `a`, strictly above it away from `a` once the power is at least 2. */
  lemma {:induction false} AboveTangent(a: real, b: real, m: nat)
    requires 0.0 <= a && 0.0 <= b && m > 0
    ensures TangentAt(Pow(a, m - 1), a, b, m as real) <= Pow(b, m)
    ensures 0.0 < a && a != b && m > 1 ==> TangentAt(Pow(a, m - 1), a, b, m as real) < Pow(b, m)
  {
    hide Times;
    hide Gap;
    hide TangentAt;
    if m > 1 {
      AboveTangent(a, b, m - 1);
      var p, before := Pow(a, m - 2), TangentAt(Pow(a, m - 2), a, b, (m - 1) as real);
      PowNonNegative(a, m - 2);
      TangentGap(p, a, b, (m - 1) as real);
      GapSign(p, a, b, (m - 1) as real);
      TimesOrder(b, before, Pow(b, m - 1));
    } else {
      FirstTangent(a, b);
    }
  }

  lemma FirstTangent(a: real, b: real)
    ensures TangentAt(Pow(a, 0), a, b, 1.0) == Pow(b, 1)
  {
  }

  lemma TimesOrder(factor: real, x: real, y: real)
    requires 0.0 <= factor && x <= y
    ensures Times(factor, x) <= Times(factor, y)
    ensures 0.0 < factor && x < y ==> Times(factor, x) < Times(factor, y)
  {
    hide Times;
    TimesSubtract(factor, x, y);
    TimesNonNegative(factor, y - x);
    if 0.0 < factor && x < y {
      TimesPositive(factor, y - x);
    }
  }

  lemma TimesSubtract(factor: real, x: real, y: real)
    ensures Times(factor, y - x) == Times(factor, y) - Times(factor, x)
  {
  }

  // ---------- means ----------

  lemma TimesCommutes(x: real, y: real)
    ensures Times(x, y) == Times(y, x)
  {
  }

  /**
   * Adding `y` moves the mean of `n` numbers from `a` to `b`; the tangent at `a` then takes the value `a^n * y` at `b`.
   */
  lemma TangentAtNextMean(a: real, b: real, y: real, p: real, n: nat)
    requires (n + 1) as real * b == n as real * a + y
    ensures TangentAt(p, a, b, (n + 1) as real) == Times(p, y)
  {
    var k := n as real;
    assert (n + 1) as real == k + 1.0;
    assert (k + 1.0) * p * b == p * ((k + 1.0) * b) == p * (k * a + y) == k * (a * p) + p * y;
  }

  lemma MeanTimesCount(xs: seq<real>)
    requires xs != []
    ensures Times(|xs| as real, Mean(xs)) == Sum(xs)
  {
  }

  lemma MeanNonNegative(xs: seq<real>)
    requires xs != [] && NonNegative(xs)
    ensures 0.0 <= Mean(xs)
    ensures (exists i :: 0 <= i < |xs| && 0.0 < xs[i]) ==> 0.0 < Mean(xs)
  {
    hide Sum;
    SumPositive(xs);
    QuotientSign(Sum(xs), |xs| as real);
  }

  lemma QuotientSign(x: real, count: real)
    requires 0.0 <= x && 0.0 < count
    ensures 0.0 <= x / count
    ensures 0.0 < x ==> 0.0 < x / count
  {
    assert x / count * count == x;
  }

  lemma {:induction false} SumPositive(xs: seq<real>)
    requires NonNegative(xs)
    ensures 0.0 <= Sum(xs)
    ensures (exists i :: 0 <= i < |xs| && 0.0 < xs[i]) ==> 0.0 < Sum(xs)
  {
    if xs != [] {
      var init := xs[..|xs| - 1];
      SumPositive(init);
      if i :| 0 <= i < |xs| && 0.0 < xs[i] {
        assert i < |init| ==> init[i] == xs[i];
      }
    }
  }

  lemma {:induction false} EqualNumbers(xs: seq<real>)
    requires xs != [] && AllEqual(xs)
    ensures Sum(xs) == Times(|xs| as real, xs[0])
    ensures Product(xs) == Pow(xs[0], |xs|)
  {
    hide Times;
    var n := |xs|;
    if n > 1 {
      EqualNumbers(xs[..n - 1]);
      OneMore(n - 1, xs[0]);
      ProductLast(xs);
      TimesCommutes(Product(xs[..n - 1]), xs[0]);
    } else {
      assert xs == [xs[0]];
      SumAppend([], xs[0]);
      ProductLast(xs);
      TimesOne(xs[0]);
      assert [] + [xs[0]] == xs;
    }
  }

  lemma OneMore(n: nat, x: real)
    ensures Times((n + 1) as real, x) == Times(n as real, x) + x
  {
  }

  lemma TimesOne(x: real)
    ensures Times(1.0, x) == x == Times(x, 1.0)
    ensures Pow(x, 1) == x
  {
  }

  lemma ProductLast(xs: seq<real>)
    requires xs != []
    ensures Product(xs) == Times(Product(xs[..|xs| - 1]), xs[|xs| - 1])
  {
  }

  lemma MeanStep(init: seq<real>, y: real)
    requires init != []
    ensures (|init| + 1) as real * Mean(init + [y]) == |init| as real * Mean(init) + y
  {
    hide Mean;
    SumAppend(init, y);
    MeanTimesCount(init);
    MeanTimesCount(init + [y]);
    assert |init + [y]| == |init| + 1;
  }

  /**
   * No product of non-negative numbers exceeds the power of their mean, and it reaches it exactly when all are equal.
   */
  lemma ArithmeticGeometricMean(xs: seq<real>)
    requires xs != [] && NonNegative(xs)
    ensures Product(xs) <= Pow(Mean(xs), |xs|)
    ensures Product(xs) == Pow(Mean(xs), |xs|) <==> AllEqual(xs)
  {
    if AllEqual(xs) {
      EqualMean(xs);
    } else {
      BelowUnlessEqual(xs);
    }
  }

  lemma EqualMean(xs: seq<real>)
    requires xs != [] && AllEqual(xs)
    ensures Mean(xs) == xs[0] && Product(xs) == Pow(Mean(xs), |xs|)
  {
    hide Times;
    hide Sum;
    hide Product;
    hide Pow;
    hide AllEqual;
    EqualNumbers(xs);
    CancelCount(xs[0], |xs|);
  }

  lemma CancelCount(x: real, n: nat)
    requires n > 0
    ensures Times(n as real, x) / n as real == x
  {
  }

  lemma {:induction false} BelowUnlessEqual(xs: seq<real>)
    requires |xs| > 1 && NonNegative(xs) && !AllEqual(xs)
    ensures Product(xs) < Pow(Mean(xs), |xs|)
    decreases |xs|
  {
    hide Times;
    hide Mean;
    hide Product;
    var n := |xs| - 1;
    var init, y := xs[..n], xs[n];
    assert xs == init + [y];
    var a, b := Mean(init), Mean(xs);
    MeanNonNegative(init);
    MeanNonNegative(xs);
    MeanStep(init, y);
    ProductLast(xs);
    TangentAtNextMean(a, b, y, Pow(a, n), n);
    AboveTangent(a, b, n + 1);
    TimesCommutes(Product(init), y);
    TimesCommutes(Pow(a, n), y);
    if AllEqual(init) {
      EqualMean(init);
      assert y != a;
      MeanMoves(a, b, y, n);
      if a == 0.0 {
        assert 0.0 < xs[n];
        PowNonNegative(b, n + 1);
        PowOfZero(n);
        TimesZero(y);
      }
    } else {
      BelowUnlessEqual(init);
      TimesOrder(y, Product(init), Pow(a, n));
      if y == 0.0 {
        var i :| 0 <= i < |init| && init[i] != init[0];
        assert 0.0 < xs[i] || 0.0 < xs[0];
        PowNonNegative(b, n + 1);
        TimesZero(Product(init));
      }
    }
  }

  lemma MeanMoves(a: real, b: real, y: real, n: nat)
    requires (n + 1) as real * b == n as real * a + y && y != a
    ensures a != b
  {
  }

  lemma {:induction false} PowOfZero(n: nat)
    requires n > 0
    ensures Pow(0.0, n) == 0.0
  {
  }

  lemma TimesZero(x: real)
    ensures Times(0.0, x) == 0.0 == Times(x, 0.0)
  {
  }
}
