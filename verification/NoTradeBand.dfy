/**
 * The H13 study's no-trade band, `scripts/research/h13_study.py`: a position moves only when its target is far enough
 * away.
 */
module NoTradeBand {
  import opened Numbers

  const TARGET_VOL := 0.10
  const BAND := 0.02
  const CAP := 1.0
  const MARKETS := 3.0

  function Clip(x: real): real {
    if x < -CAP then -CAP else if x > CAP then CAP else x
  }

  /** The target share of capital. An unknown volatility asks for nothing, a zero one for all the cap allows. */
  function Target(forecast: real, vol: Option<real>): real {
    if vol == None then 0.0
    else if vol.value == 0.0 then (if forecast > 0.0 then CAP else if forecast < 0.0 then -CAP else 0.0)
    else Clip(forecast * TARGET_VOL / vol.value / MARKETS)
  }

  function Next(current: real, target: real): real {
    if Abs(target - current) > BAND then target else current
  }

  /** The position held after the first `n` targets, starting flat. */
  function Held(targets: seq<real>, n: nat): real
    requires n <= |targets|
  {
    if n == 0 then 0.0 else Next(Held(targets, n - 1), targets[n - 1])
  }

  // ---------- the loop over the rows of a frame ----------

  /** A table of `rows` rows, each with a value for every column. */
  ghost predicate Rectangular<T>(table: seq<seq<T>>, columns: nat) {
    forall row :: 0 <= row < |table| ==> |table[row]| == columns
  }

  function Column(table: seq<seq<real>>, column: nat, columns: nat): (r: seq<real>)
    requires Rectangular(table, columns) && column < columns
    ensures |r| == |table|
  {
    seq(|table|, row requires 0 <= row < |table| => table[row][column])
  }

  function TargetRow(forecast: seq<real>, vol: seq<Option<real>>): (r: seq<real>)
    requires |forecast| == |vol|
    ensures |r| == |vol|
  {
    seq(|vol|, column requires 0 <= column < |vol| => Target(forecast[column], vol[column]))
  }

  function Targets(forecast: seq<seq<real>>, vol: seq<seq<Option<real>>>, columns: nat): (r: seq<seq<real>>)
    requires |forecast| == |vol| && Rectangular(forecast, columns) && Rectangular(vol, columns)
    ensures |r| == |vol| && Rectangular(r, columns)
  {
    seq(|vol|, row requires 0 <= row < |vol| => TargetRow(forecast[row], vol[row]))
  }

  function MoveRow(current: seq<real>, target: seq<real>): (r: seq<real>)
    requires |current| == |target|
    ensures |r| == |current|
  {
    seq(|current|, column requires 0 <= column < |current| => Next(current[column], target[column]))
  }

  method DecidedPositions(
    forecast: seq<seq<real>>, vol: seq<seq<Option<real>>>, columns: nat) returns (held: seq<seq<real>>)
    requires |forecast| == |vol| && Rectangular(forecast, columns) && Rectangular(vol, columns)
    ensures |held| == |vol| && Rectangular(held, columns)
    ensures forall row, column :: 0 <= row < |held| && 0 <= column < columns ==>
              held[row][column] == Held(Column(Targets(forecast, vol, columns), column, columns), row + 1)
  {
    var target := Targets(forecast, vol, columns);
    held := [];
    var current := seq(columns, _ => 0.0);
    for row := 0 to |target|
      invariant |held| == row && Rectangular(held, columns) && |current| == columns
      invariant forall column :: 0 <= column < columns ==> current[column] == Held(Column(target, column, columns), row)
      invariant forall r, column :: 0 <= r < row && 0 <= column < columns ==>
                  held[r][column] == Held(Column(target, column, columns), r + 1)
    {
      current := MoveRow(current, target[row]);
      held := held + [current];
    }
  }

  // ---------- turnover ----------

  /** The `i`-th of the values before and after each row, where nothing was held and nothing asked for at first. */
  ghost function At(targets: seq<real>, n: nat): real
    requires n <= |targets|
  {
    if n == 0 then 0.0 else targets[n - 1]
  }

  /** How far the targets travelled over the first `n` rows, starting from 0. */
  ghost function TargetVariation(targets: seq<real>, n: nat): real
    requires n <= |targets|
  {
    if n == 0 then 0.0 else TargetVariation(targets, n - 1) + Abs(At(targets, n) - At(targets, n - 1))
  }

  /** How far the held position travelled, which is what was traded. */
  ghost function Turnover(targets: seq<real>, n: nat): real
    requires n <= |targets|
  {
    if n == 0 then 0.0 else Turnover(targets, n - 1) + Abs(Held(targets, n) - Held(targets, n - 1))
  }

  ghost function TradeCount(targets: seq<real>, n: nat): nat
    requires n <= |targets|
  {
    if n == 0 then 0 else TradeCount(targets, n - 1) + if Held(targets, n) != Held(targets, n - 1) then 1 else 0
  }

  /** What was traded plus what is still missing to the target never exceeds how far the target travelled. */
  lemma {:induction false} TurnoverPlusGap(targets: seq<real>, n: nat)
    requires n <= |targets|
    ensures Turnover(targets, n) + Abs(Held(targets, n) - At(targets, n)) <= TargetVariation(targets, n)
  {
    if n > 0 {
      TurnoverPlusGap(targets, n - 1);
    }
  }

  /** After every row the position is within the band of its target. */
  lemma HeldNearTarget(targets: seq<real>, n: nat)
    requires n <= |targets|
    ensures Abs(Held(targets, n) - At(targets, n)) <= BAND
  {
  }

  /** Every trade is larger than the band, so there are fewer of them than the target variation holds bands. */
  lemma {:induction false} TradesExceedBand(targets: seq<real>, n: nat)
    requires n <= |targets|
    ensures n > 0 && Held(targets, n) != Held(targets, n - 1) ==> Abs(Held(targets, n) - Held(targets, n - 1)) > BAND
    ensures TradeCount(targets, n) as real * BAND <= Turnover(targets, n)
    ensures TradeCount(targets, n) > 0 ==> TradeCount(targets, n) as real * BAND < TargetVariation(targets, n)
  {
    TurnoverPlusGap(targets, n);
    StrictTurnover(targets, n);
  }

  lemma {:induction false} StrictTurnover(targets: seq<real>, n: nat)
    requires n <= |targets|
    ensures TradeCount(targets, n) as real * BAND <= Turnover(targets, n)
    ensures TradeCount(targets, n) > 0 ==> TradeCount(targets, n) as real * BAND < Turnover(targets, n)
  {
    if n > 0 {
      StrictTurnover(targets, n - 1);
    }
  }

  lemma {:induction false} HeldIsSomeTarget(targets: seq<real>, n: nat, bound: real)
    requires n <= |targets| && 0.0 <= bound && forall i :: 0 <= i < n ==> Abs(targets[i]) <= bound
    ensures Abs(Held(targets, n)) <= bound
  {
    if n > 0 {
      HeldIsSomeTarget(targets, n - 1, bound);
    }
  }

  /** Targets, and with them the positions of the study, never exceed the cap. */
  lemma PositionsCapped(forecast: seq<seq<real>>, vol: seq<seq<Option<real>>>, columns: nat, column: nat, n: nat)
    requires |forecast| == |vol| && Rectangular(forecast, columns) && Rectangular(vol, columns)
    requires column < columns && n <= |vol|
    ensures Abs(Held(Column(Targets(forecast, vol, columns), column, columns), n)) <= CAP
  {
    HeldIsSomeTarget(Column(Targets(forecast, vol, columns), column, columns), n, CAP);
  }

  // ---------- when positions earn and pay ----------

  /** The position that earns on row `t`: the one decided two rows earlier. */
  function Earning(decided: seq<real>, t: nat): real
    requires t < |decided|
  {
    if t < 2 then 0.0 else decided[t - 2]
  }

  /**
   * What is traded on row `t`: the change decided one row earlier. The very first decision has no earlier one to differ
   * from.
   */
  function Traded(decided: seq<real>, t: nat): real
    requires t < |decided|
  {
    if t < 2 then 0.0 else Abs(decided[t - 1] - decided[t - 2])
  }

  /** Gross earnings less the cost of trading and of rolling the position. */
  function Net(decided: seq<real>, returns': seq<real>, perSide: real, rollRate: real, t: nat): real
    requires t < |decided| == |returns'|
  {
    Times(Earning(decided, t), returns'[t]) - Times(Traded(decided, t), perSide)
    - Times(Abs(Earning(decided, t)), rollRate)
  }

  /** A row's result does not depend on anything decided on that row or later. */
  lemma NetIgnoresLaterDecisions(
    decided: seq<real>, decided': seq<real>, returns': seq<real>, perSide: real, rollRate: real, t: nat)
    requires t < |decided| == |decided'| == |returns'|
    requires forall i :: 0 <= i < t ==> decided[i] == decided'[i]
    ensures Net(decided, returns', perSide, rollRate, t) == Net(decided', returns', perSide, rollRate, t)
  {
  }

  ghost function TotalTraded(decided: seq<real>, n: nat): real
    requires n <= |decided|
  {
    if n == 0 then 0.0 else TotalTraded(decided, n - 1) + Traded(decided, n - 1)
  }

  /** The positions held after each row, as one column of the decided frame. */
  ghost function DecidedColumn(targets: seq<real>): (r: seq<real>)
    ensures |r| == |targets|
  {
    seq(|targets|, i requires 0 <= i < |targets| => Held(targets, i + 1))
  }

  /**
   * What is paid for is the turnover up to the row before, less the first row's own move, so no more than the targets
   * travelled.
   */
  lemma {:induction false} TradingCharged(targets: seq<real>, n: nat)
    requires 2 <= n <= |targets|
    ensures TotalTraded(DecidedColumn(targets), n) == Turnover(targets, n - 1) - Abs(Held(targets, 1))
    ensures TotalTraded(DecidedColumn(targets), n) <= TargetVariation(targets, n - 1)
  {
    TurnoverPlusGap(targets, n - 1);
    if n > 2 {
      TradingCharged(targets, n - 1);
    } else {
      assert TotalTraded(DecidedColumn(targets), 1) == 0.0;
      assert Turnover(targets, 0) == 0.0 && Held(targets, 0) == 0.0;
    }
  }

  // ---------- what the target is ----------

  /** The target has the forecast's sign and, inside the cap, a third of its share of the target volatility. */
  lemma TargetMeans(forecast: real, vol: real)
    requires 0.0 < vol
    ensures var target := Target(forecast, Some(vol));
            && (target > 0.0 <==> forecast > 0.0) && (target < 0.0 <==> forecast < 0.0)
            && (-CAP < target < CAP ==> Times(target, 3.0 * vol) == 0.10 * forecast)
            && (target == CAP <==> 0.10 * forecast >= 3.0 * vol) && (target == -CAP <==> 0.10 * forecast <= -3.0 * vol)
  {
    var raw := forecast * TARGET_VOL / vol / MARKETS;
    assert forecast * TARGET_VOL / vol * vol == forecast * TARGET_VOL;
    assert Times(raw, 3.0 * vol) == 0.10 * forecast;
    Signs(raw, 3.0 * vol);
    Signs(raw - 1.0, 3.0 * vol);
    Signs(raw + 1.0, 3.0 * vol);
    assert Times(raw - 1.0, 3.0 * vol) == 0.10 * forecast - 3.0 * vol;
    assert Times(raw + 1.0, 3.0 * vol) == 0.10 * forecast + 3.0 * vol;
  }

  lemma Signs(x: real, y: real)
    requires 0.0 < y
    ensures (Times(x, y) > 0.0 <==> x > 0.0) && (Times(x, y) < 0.0 <==> x < 0.0)
  {
    if x > 0.0 {
      TimesPositive(x, y);
    } else if x < 0.0 {
      TimesPositive(-x, y);
      assert Times(-x, y) == -Times(x, y);
    }
  }

  /** A position stays as it is or moves all the way to its target. */
  lemma HeldIsOldOrTarget(targets: seq<real>, n: nat)
    requires 0 < n <= |targets|
    ensures Held(targets, n) == Held(targets, n - 1) || Held(targets, n) == targets[n - 1]
  {
  }

  // ---------- the account behind the results ----------

  /** A position carried through the days, and what it has earned and paid so far. */
  datatype Carried = Carried(position: real, result: real)

  /**
   * The first `n` days of an account that holds nothing, trades at each close to the position decided at the close
   * before, and from then on earns that position's return. Trading costs `perSide`, holding costs `rollRate` a day.
   */
  ghost function Account(decided: seq<real>, returns': seq<real>, perSide: real, rollRate: real, n: nat): Carried
    requires n <= |decided| == |returns'|
  {
    if n == 0 then Carried(0.0, 0.0)
    else
      var before := Account(decided, returns', perSide, rollRate, n - 1);
      var earned := Times(before.position, returns'[n - 1]) - Times(Abs(before.position), rollRate);
      var next := if n < 2 then 0.0 else decided[n - 2];
      Carried(next, before.result + earned - Times(Abs(next - before.position), perSide))
  }

  ghost function TotalNet(decided: seq<real>, returns': seq<real>, perSide: real, rollRate: real, n: nat): real
    requires n <= |decided| == |returns'|
  {
    if n == 0 then 0.0
    else TotalNet(decided, returns', perSide, rollRate, n - 1) + Net(decided, returns', perSide, rollRate, n - 1)
  }

  lemma NothingTraded(perSide: real)
    ensures Times(Abs(0.0), perSide) == 0.0
  {
  }

  /**
   * The results are those of that account, except that they leave out the cost of its first trade, from nothing to the
   * first position decided.
   */
  lemma {:induction false} NetIsAccount(decided: seq<real>, returns': seq<real>, perSide: real, rollRate: real, n: nat)
    requires n <= |decided| == |returns'|
    ensures var account := Account(decided, returns', perSide, rollRate, n);
            && account.position == (if n < 2 then 0.0 else decided[n - 2])
            && TotalNet(decided, returns', perSide, rollRate, n)
               == account.result + if n < 2 then 0.0 else Times(Abs(decided[0]), perSide)
  {
    hide Times;
    NothingTraded(perSide);
    if n > 0 {
      NetIsAccount(decided, returns', perSide, rollRate, n - 1);
    }
  }

  /** An unknown volatility asks for nothing; none at all for the cap, on the forecast's side. */
  lemma TargetWithoutVolatility(forecast: real)
    ensures Target(forecast, None) == 0.0
    ensures Target(forecast, Some(0.0)) == if forecast > 0.0 then CAP else if forecast < 0.0 then -CAP else 0.0
  {
  }

  /** A market's targets are those of its own forecasts and volatilities, row by row. */
  lemma TargetsMean(forecast: seq<seq<real>>, vol: seq<seq<Option<real>>>, columns: nat, row: nat, column: nat)
    requires |forecast| == |vol| && Rectangular(forecast, columns) && Rectangular(vol, columns)
    requires row < |vol| && column < columns
    ensures Column(Targets(forecast, vol, columns), column, columns)[row]
         == Target(forecast[row][column], vol[row][column])
  {
  }
}
