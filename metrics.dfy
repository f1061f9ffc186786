/**
 * The metrics layer: profit and loss, drawdown, traded volume and the
 * win/lose report, all read off the values of a record of positions.
 */
module Metrics {
  import opened Common
  import opened TimeSeries
  import opened PositionEngine

  /** The mark-to-market value of every record. */
  function Values(entries: seq<Entry>): (v: seq<real>)
    ensures |v| == |entries|
    ensures forall i :: 0 <= i < |entries| ==> v[i] == entries[i].hold.Value()
  {
    seq(|entries|, i requires 0 <= i < |entries| => entries[i].hold.Value())
  }

  /** The amount column. */
  function Amounts(entries: seq<Entry>): (a: seq<real>)
    ensures |a| == |entries|
    ensures forall i :: 0 <= i < |entries| ==> a[i] == entries[i].hold.amount
  {
    seq(|entries|, i requires 0 <= i < |entries| => entries[i].hold.amount)
  }

  /** Changes of value from each record to the next: the first record has none. */
  function Pl(v: seq<real>): (pl: seq<real>)
    ensures |pl| == if v == [] then 0 else |v| - 1
  {
    if |v| <= 1 then [] else seq(|v| - 1, i requires 0 <= i < |v| - 1 => v[i + 1] - v[i])
  }

  /** calculate_pl */
  function CalculatePl(entries: seq<Entry>): seq<real> {
    Pl(Values(entries))
  }

  /** The changes add up: each value is the first value plus every change before it. */
  lemma {:induction false} PlRecovers(v: seq<real>, k: int)
    requires 0 <= k < |v|
    ensures v[k] == v[0] + Sum(Pl(v)[..k])
  {
    if k > 0 {
      PlRecovers(v, k - 1);
      assert Pl(v)[..k][..k - 1] == Pl(v)[..k - 1];
    } else {
      assert Pl(v)[..0] == [];
    }
  }

  /** The total profit and loss is the last value less the first. */
  lemma PlTotal(v: seq<real>)
    requires v != []
    ensures Sum(Pl(v)) == v[|v| - 1] - v[0]
  {
    PlRecovers(v, |v| - 1);
    assert Pl(v)[..|v| - 1] == Pl(v);
  }

  /** The highest value of a non-empty sequence. */
  function Peak(v: seq<real>): (m: real)
    requires v != []
    ensures forall i :: 0 <= i < |v| ==> v[i] <= m
    ensures exists i :: 0 <= i < |v| && v[i] == m
  {
    if |v| == 1 then v[0]
    else
      var m := Peak(v[..|v| - 1]);
      if v[|v| - 1] > m then v[|v| - 1] else m
  }

  /** How far each value lies below the highest value reached so far. */
  function Drawdown(v: seq<real>): (dd: seq<real>)
    ensures |dd| == |v|
  {
    seq(|v|, i requires 0 <= i < |v| => Peak(v[..i + 1]) - v[i])
  }

  /** calculate_drawdown, keeping the running maximum. */
  method CalculateDrawdown(v: seq<real>) returns (dd: seq<real>)
    ensures dd == Drawdown(v)
  {
    dd := [];
    var peak := 0.0;
    var k := 0;
    while k < |v|
      invariant 0 <= k <= |v| && |dd| == k
      invariant dd == Drawdown(v)[..k]
      invariant k > 0 ==> peak == Peak(v[..k])
    {
      PeakSnoc(v, k);
      if k == 0 || v[k] > peak {
        peak := v[k];
      }
      assert Drawdown(v)[..k + 1] == Drawdown(v)[..k] + [peak - v[k]];
      dd := dd + [peak - v[k]];
      k := k + 1;
    }
    assert Drawdown(v)[..k] == Drawdown(v);
  }

  lemma PeakSnoc(v: seq<real>, k: int)
    requires 0 <= k < |v|
    ensures Peak(v[..k + 1]) == if k == 0 then v[0] else if v[k] > Peak(v[..k]) then v[k] else Peak(v[..k])
  {
    assert v[..k + 1][..k] == v[..k];
  }

  /**
   * The drawdown is never negative, is zero exactly where the value is the
   * highest so far, and equals the fall from an earlier value that no
   * earlier value exceeds.
   */
  lemma DrawdownFacts(v: seq<real>, i: int)
    requires 0 <= i < |v|
    ensures Drawdown(v)[i] >= 0.0
    ensures Drawdown(v)[i] == 0.0 <==> forall j :: 0 <= j <= i ==> v[j] <= v[i]
    ensures forall j :: 0 <= j <= i ==> v[j] - v[i] <= Drawdown(v)[i]
    ensures exists j :: 0 <= j <= i && Drawdown(v)[i] == v[j] - v[i]
  {
    var w := v[..i + 1];
    assert forall j :: 0 <= j <= i ==> w[j] == v[j];
    assert w[i] == v[i];
  }

  /** The drawdown is zero at the global maximum. */
  lemma DrawdownAtPeak(v: seq<real>, i: int)
    requires 0 <= i < |v|
    requires forall j :: 0 <= j < |v| ==> v[j] <= v[i]
    ensures Drawdown(v)[i] == 0.0
  {
    DrawdownFacts(v, i);
  }

  /** Buying d more at price p and paying p for it moves the value by the old amount times the move of the price. */
  lemma StepValue(x: Holding, y: Holding, d: real, p: real)
    requires y == Holding(x.amount + d, p, x.principal - d * p)
    ensures y.Value() - x.Value() == x.amount * (p - x.price)
  {
    calc {
      y.Value() - x.Value();
      (x.amount + d) * p + (x.principal - d * p) - (x.amount * x.price + x.principal);
      x.amount * p - x.amount * x.price;
      x.amount * (p - x.price);
    }
  }

  /**
   * Profit and loss of a record priced and costed at the market: the first
   * trade at the market price changes nothing, and afterwards each change is
   * the amount held times the move of the price.
   */
  lemma BookPl(first: int, deltas: seq<real>, prices: seq<real>, principal: real, j: int)
    requires |prices| == |deltas|
    requires 0 <= j < |deltas|
    ensures Pl(Values(Book(first, deltas, prices, prices, principal)))[j] ==
      if j == 0 then 0.0 else Sum(deltas[..j]) * (prices[j] - prices[j - 1])
  {
    var e := Book(first, deltas, prices, prices, principal);
    var v := Values(e);
    var x, y := e[j].hold, e[j + 1].hold;
    BookStep(e, first, deltas, prices, prices, principal, j);
    assert y == Holding(x.amount + deltas[j], prices[j], x.principal - deltas[j] * prices[j]);
    StepValue(x, y, deltas[j], prices[j]);
    BookAmount(first, deltas, prices, prices, principal, j);
    assert Pl(v)[j] == x.amount * (prices[j] - x.price) by {
      assert Pl(v)[j] == v[j + 1] - v[j];
    }
    if j == 0 {
      assert deltas[..0] == [];
    } else {
      assert x.amount == Sum(deltas[..j]) && x.price == prices[j - 1];
    }
  }

  function Abs(x: real): real {
    if x < 0.0 then -x else x
  }

  /** _trade_amount: the sum of the absolute changes of the amount from each record to the next. */
  function TradeAmount(a: seq<real>): (r: real)
    ensures r >= 0.0
  {
    if |a| <= 1 then 0.0 else TradeAmount(a[..|a| - 1]) + Abs(a[|a| - 1] - a[|a| - 2])
  }

  /** The sum of the absolute values. */
  function AbsSum(d: seq<real>): real {
    if d == [] then 0.0 else AbsSum(d[..|d| - 1]) + Abs(d[|d| - 1])
  }

  /** An amount column built up from zero by the given steps has traded the sum of their sizes. */
  lemma {:induction false} TradeAmountOfSteps(a: seq<real>, d: seq<real>)
    requires |a| == |d| + 1
    requires forall k :: 0 <= k < |d| ==> a[k + 1] == a[k] + d[k]
    ensures TradeAmount(a) == AbsSum(d)
  {
    if d != [] {
      var n := |d|;
      var a0 := a[..n];
      var d0 := d[..n - 1];
      assert forall k :: 0 <= k < |d0| ==> a0[k + 1] == a0[k] + d0[k];
      TradeAmountOfSteps(a0, d0);
      assert a[n] - a[n - 1] == d[n - 1];
    }
  }

  /** The traded volume of a built record is the sum of the sizes of the net trade quantities. */
  lemma TradeAmountBook(first: int, deltas: seq<real>, prices: seq<real>, costs: seq<real>, principal: real)
    requires |prices| == |deltas| && |costs| == |deltas|
    ensures TradeAmount(Amounts(Book(first, deltas, prices, costs, principal))) == AbsSum(deltas)
  {
    var a := Amounts(Book(first, deltas, prices, costs, principal));
    forall k | 0 <= k < |deltas| ensures a[k + 1] == a[k] + deltas[k] {
      BookSteps(first, deltas, prices, costs, principal, k);
    }
    TradeAmountOfSteps(a, deltas);
  }

  /** The sum of the positive changes. */
  function Gains(pl: seq<real>): (r: real)
    ensures r >= 0.0
  {
    if pl == [] then 0.0 else Gains(pl[..|pl| - 1]) + (if pl[|pl| - 1] > 0.0 then pl[|pl| - 1] else 0.0)
  }

  /** The sum of the negative changes. */
  function Losses(pl: seq<real>): (r: real)
    ensures r <= 0.0
  {
    if pl == [] then 0.0 else Losses(pl[..|pl| - 1]) + (if pl[|pl| - 1] < 0.0 then pl[|pl| - 1] else 0.0)
  }

  /** Every change is a gain, a loss or nothing. */
  lemma {:induction false} GainsLosses(pl: seq<real>)
    ensures Gains(pl) + Losses(pl) == Sum(pl)
  {
    if pl != [] { GainsLosses(pl[..|pl| - 1]); }
  }

  /** The one-row performance report; the average is undefined when nothing was traded. */
  datatype Performance = Performance(
    totalPl: real, totalWinPl: real, totalLosePl: real, cntAmount: real, avgPlPerAmount: Option<real>)

  /** calculate_position_performance, without the Sharpe ratio. */
  function CalculatePositionPerformance(entries: seq<Entry>): (r: Performance)
    ensures var pl := CalculatePl(entries);
      r.totalPl == Sum(pl) && r.totalWinPl == Gains(pl) && r.totalLosePl == Losses(pl)
    ensures r.cntAmount == TradeAmount(Amounts(entries))
    ensures r.totalPl == r.totalWinPl + r.totalLosePl
    ensures r.totalWinPl >= 0.0 && r.totalLosePl <= 0.0 && r.cntAmount >= 0.0
    ensures r.avgPlPerAmount == if r.cntAmount == 0.0 then None else Some(r.totalPl / r.cntAmount)
  {
    var pl := CalculatePl(entries);
    GainsLosses(pl);
    var total := Sum(pl);
    var cnt := TradeAmount(Amounts(entries));
    Performance(total, Gains(pl), Losses(pl), cnt, Average(total, cnt))
  }

  /** Profit per unit traded, undefined when nothing was traded. */
  function Average(total: real, cnt: real): (r: Option<real>)
    ensures r == if cnt == 0.0 then None else Some(total / cnt)
  {
    if cnt == 0.0 then None else Some(total / cnt)
  }

  /** The average per unit traded, times the volume, gives back the total. */
  lemma PerformanceAverage(entries: seq<Entry>)
    ensures var r := CalculatePositionPerformance(entries);
      r.avgPlPerAmount.Some? ==> r.avgPlPerAmount.value * r.cntAmount == r.totalPl
  {
    var r := CalculatePositionPerformance(entries);
    if r.cntAmount != 0.0 {
      DivMul(r.totalPl, r.cntAmount);
    }
  }

  /** The total profit and loss of a record is its last value less its first. */
  lemma PerformanceTotal(entries: seq<Entry>)
    requires entries != []
    ensures CalculatePositionPerformance(entries).totalPl == entries[|entries| - 1].hold.Value() - entries[0].hold.Value()
  {
    PlTotal(Values(entries));
  }

  /**
   * The report of a record built from net trade quantities: the volume is
   * the sum of the quantities' sizes and the total is the last value less
   * the first.
   */
  lemma PerformanceBook(first: int, deltas: seq<real>, prices: seq<real>, costs: seq<real>, principal: real)
    requires |prices| == |deltas| && |costs| == |deltas|
    ensures var e := Book(first, deltas, prices, costs, principal);
      var r := CalculatePositionPerformance(e);
      r.cntAmount == AbsSum(deltas) &&
      r.totalPl == e[|deltas|].hold.Value() - e[0].hold.Value() &&
      (r.avgPlPerAmount.Some? <==> AbsSum(deltas) != 0.0)
  {
    var e := Book(first, deltas, prices, costs, principal);
    TradeAmountBook(first, deltas, prices, costs, principal);
    PerformanceTotal(e);
  }
}
