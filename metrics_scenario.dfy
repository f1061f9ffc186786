/**
 * The metrics tests: the trades fixture of the trades tests, one step per
 * day, against a market whose mid rises from 1 to 9 and then stays, with a
 * principal of 100.
 */
module MetricsScenario {
  import opened Common
  import opened TimeSeries
  import opened Ledger
  import opened PositionEngine
  import opened Metrics
  import opened TradesScenario

  /** The trades fixture's column, read as one net quantity per day. */
  const DailyQuantities: seq<real> := Minutes

  const Mids: seq<real> := [1.0, 2.0, 3.0, 4.0, 5.0, 6.0, 7.0, 8.0, 9.0, 9.0]

  /** The market fixture: ten daily mids of USDJPY from day 0 on. */
  function Daily(): Market {
    Market("USDJPY", JPY, 0, Mids)
  }

  /** The net quantity of every day of the fixture is the traded amount of that day. */
  lemma {:induction false} FixtureDeltas()
    ensures Deltas(Fixture(), 0, 10) == DailyQuantities
  {
    var a := Amount(Fixture());
    ChunksAmount("USDJPY", 0, DailyQuantities, 2, JPY);
    forall k | 0 <= k < 10 ensures At(a, k) == DailyQuantities[k] {
      AtIndex(a, k);
    }
  }

  /** calculate_positions on the fixtures: the record of the running amount and principal from day -1 on. */
  lemma {:induction false} DailyPositions()
    ensures CalculatePositions(Fixture(), Daily(), 100.0) == Ok(Positions("USDJPY", JPY, Book(0, DailyQuantities, Mids, Mids, 100.0)))
  {
    var tr := Fixture();
    var a := Amount(tr);
    ChunksAmount("USDJPY", 0, DailyQuantities, 2, JPY);
    FixtureShape();
    forall p | p in a ensures Daily().Covers(p.time) {
      var i :| 0 <= i < |a| && a[i] == p;
    }
    CoveredPositions(tr, Daily(), 100.0, 0);
    FixtureDeltas();
    assert Mids[0..] == Mids;
  }

  /** The record of the fixtures: amount, price and principal of every day, from day -1 on. */
  predicate DailyHoldings(e: seq<Entry>) {
    |e| == 11 &&
    e[0].hold == Holding(0.0, 0.0, 100.0) &&
    e[1].hold == Holding(1.0, 1.0, 99.0) &&
    e[2].hold == Holding(-1.0, 2.0, 103.0) &&
    e[3].hold == Holding(0.0, 3.0, 100.0) &&
    e[4].hold == Holding(2.0, 4.0, 92.0) &&
    e[5].hold == Holding(-2.0, 5.0, 112.0) &&
    e[6].hold == Holding(0.0, 6.0, 100.0) &&
    e[7].hold == Holding(1.0, 7.0, 93.0) &&
    e[8].hold == Holding(1.0, 8.0, 93.0) &&
    e[9].hold == Holding(2.0, 9.0, 84.0) &&
    e[10].hold == Holding(2.0, 9.0, 84.0)
  }

  /** One day of the record: the amount grows by that day's quantity, bought at that day's mid. */
  lemma {:induction false} DailyStep(k: int, a: real, c: real)
    requires 0 <= k < 10
    requires var e := Book(0, DailyQuantities, Mids, Mids, 100.0); e[k].hold.amount == a && e[k].hold.principal == c
    ensures var e := Book(0, DailyQuantities, Mids, Mids, 100.0);
      e[k + 1].hold == Holding(a + DailyQuantities[k], Mids[k], c - DailyQuantities[k] * Mids[k])
  {
    BookStep(Book(0, DailyQuantities, Mids, Mids, 100.0), 0, DailyQuantities, Mids, Mids, 100.0, k);
  }

  lemma {:induction false} DailyRecord()
    ensures DailyHoldings(Book(0, DailyQuantities, Mids, Mids, 100.0))
  {
    DailyStep(0, 0.0, 100.0);
    DailyStep(1, 1.0, 99.0);
    DailyStep(2, -1.0, 103.0);
    DailyStep(3, 0.0, 100.0);
    DailyStep(4, 2.0, 92.0);
    DailyStep(5, -2.0, 112.0);
    DailyStep(6, 0.0, 100.0);
    DailyStep(7, 1.0, 93.0);
    DailyStep(8, 1.0, 93.0);
    DailyStep(9, 2.0, 84.0);
  }

  const DailyValues: seq<real> := [100.0, 100.0, 101.0, 100.0, 100.0, 102.0, 100.0, 100.0, 101.0, 102.0, 102.0]

  /** The value of every record: the fixture's one-day moves on top of the principal. */
  lemma {:induction false} HoldingsValues(e: seq<Entry>)
    requires DailyHoldings(e)
    ensures Values(e) == DailyValues
  {
  }

  lemma {:induction false} DailyPl()
    ensures Pl(DailyValues) == [0.0, 1.0, -1.0, 0.0, 2.0, -2.0, 0.0, 1.0, 1.0, 0.0]
  {
  }

  /** test_calculate_pl */
  lemma {:induction false} TestCalculatePl()
    ensures CalculatePositions(Fixture(), Daily(), 100.0).Ok?
    ensures CalculatePl(CalculatePositions(Fixture(), Daily(), 100.0).value.entries) == [0.0, 1.0, -1.0, 0.0, 2.0, -2.0, 0.0, 1.0, 1.0, 0.0]
  {
    DailyPositions();
    DailyRecord();
    HoldingsValues(Book(0, DailyQuantities, Mids, Mids, 100.0));
    DailyPl();
  }

  /** The highest value up to each record. */
  lemma {:induction false} DailyPeaks()
    ensures
      Peak(DailyValues[..1]) == 100.0 &&
      Peak(DailyValues[..2]) == 100.0 &&
      Peak(DailyValues[..3]) == 101.0 &&
      Peak(DailyValues[..4]) == 101.0 &&
      Peak(DailyValues[..5]) == 101.0 &&
      Peak(DailyValues[..6]) == 102.0 &&
      Peak(DailyValues[..7]) == 102.0 &&
      Peak(DailyValues[..8]) == 102.0 &&
      Peak(DailyValues[..9]) == 102.0 &&
      Peak(DailyValues[..10]) == 102.0 &&
      Peak(DailyValues[..11]) == 102.0
  {
    var v := DailyValues;
    PeakSnoc(v, 0);
    PeakSnoc(v, 1);
    PeakSnoc(v, 2);
    PeakSnoc(v, 3);
    PeakSnoc(v, 4);
    PeakSnoc(v, 5);
    PeakSnoc(v, 6);
    PeakSnoc(v, 7);
    PeakSnoc(v, 8);
    PeakSnoc(v, 9);
    PeakSnoc(v, 10);
  }

  lemma {:induction false} DrawdownEarly()
    ensures
      Drawdown(DailyValues)[0] == 0.0 &&
      Drawdown(DailyValues)[1] == 0.0 &&
      Drawdown(DailyValues)[2] == 0.0 &&
      Drawdown(DailyValues)[3] == 1.0 &&
      Drawdown(DailyValues)[4] == 1.0 &&
      Drawdown(DailyValues)[5] == 0.0
  {
    DailyPeaks();
  }

  lemma {:induction false} DrawdownLate()
    ensures
      Drawdown(DailyValues)[6] == 2.0 &&
      Drawdown(DailyValues)[7] == 2.0 &&
      Drawdown(DailyValues)[8] == 1.0 &&
      Drawdown(DailyValues)[9] == 0.0 &&
      Drawdown(DailyValues)[10] == 0.0
  {
    DailyPeaks();
  }

  /** test_calculate_drawdown: the fall below the highest value so far, for every record. */
  lemma {:induction false} DailyDrawdown()
    ensures Drawdown(DailyValues) == [0.0, 0.0, 0.0, 1.0, 1.0, 0.0, 2.0, 2.0, 1.0, 0.0, 0.0]
  {
    DrawdownEarly();
    DrawdownLate();
  }

  lemma {:induction false} TestCalculateDrawdown()
    ensures CalculatePositions(Fixture(), Daily(), 100.0).Ok?
    ensures Drawdown(Values(CalculatePositions(Fixture(), Daily(), 100.0).value.entries)) ==
      [0.0, 0.0, 0.0, 1.0, 1.0, 0.0, 2.0, 2.0, 1.0, 0.0, 0.0]
  {
    DailyPositions();
    DailyRecord();
    HoldingsValues(Book(0, DailyQuantities, Mids, Mids, 100.0));
    DailyDrawdown();
  }

  lemma {:induction false} AbsSumStep(d: seq<real>, k: int)
    requires 0 <= k < |d|
    ensures AbsSum(d[..k + 1]) == AbsSum(d[..k]) + Abs(d[k])
  {
    assert d[..k + 1][..k] == d[..k];
  }

  /** The fixture trades 14 units in all. */
  lemma {:induction false} DailyVolume()
    ensures AbsSum(DailyQuantities) == 14.0
  {
    assert DailyQuantities[..0] == [];
    AbsSumStep(DailyQuantities, 0);
    assert AbsSum(DailyQuantities[..1]) == 1.0;
    AbsSumStep(DailyQuantities, 1);
    assert AbsSum(DailyQuantities[..2]) == 3.0;
    AbsSumStep(DailyQuantities, 2);
    assert AbsSum(DailyQuantities[..3]) == 4.0;
    AbsSumStep(DailyQuantities, 3);
    assert AbsSum(DailyQuantities[..4]) == 6.0;
    AbsSumStep(DailyQuantities, 4);
    assert AbsSum(DailyQuantities[..5]) == 10.0;
    AbsSumStep(DailyQuantities, 5);
    assert AbsSum(DailyQuantities[..6]) == 12.0;
    AbsSumStep(DailyQuantities, 6);
    assert AbsSum(DailyQuantities[..7]) == 13.0;
    AbsSumStep(DailyQuantities, 7);
    assert AbsSum(DailyQuantities[..8]) == 13.0;
    AbsSumStep(DailyQuantities, 8);
    assert AbsSum(DailyQuantities[..9]) == 14.0;
    AbsSumStep(DailyQuantities, 9);
    assert AbsSum(DailyQuantities[..10]) == 14.0;
    assert DailyQuantities[..10] == DailyQuantities;
  }

  /** test__trade_amount */
  lemma {:induction false} TestTradeAmount()
    ensures CalculatePositions(Fixture(), Daily(), 100.0).Ok?
    ensures TradeAmount(Amounts(CalculatePositions(Fixture(), Daily(), 100.0).value.entries)) == 14.0
  {
    DailyPositions();
    TradeAmountBook(0, DailyQuantities, Mids, Mids, 100.0);
    DailyVolume();
  }

  lemma {:induction false} GainsStep(pl: seq<real>, k: int)
    requires 0 <= k < |pl|
    ensures Gains(pl[..k + 1]) == Gains(pl[..k]) + (if pl[k] > 0.0 then pl[k] else 0.0)
  {
    assert pl[..k + 1][..k] == pl[..k];
  }

  lemma {:induction false} LossesStep(pl: seq<real>, k: int)
    requires 0 <= k < |pl|
    ensures Losses(pl[..k + 1]) == Losses(pl[..k]) + (if pl[k] < 0.0 then pl[k] else 0.0)
  {
    assert pl[..k + 1][..k] == pl[..k];
  }

  /** The daily changes gain 5 in all. */
  lemma {:induction false} DailyGains()
    ensures Gains([0.0, 1.0, -1.0, 0.0, 2.0, -2.0, 0.0, 1.0, 1.0, 0.0]) == 5.0
  {
    var pl := [0.0, 1.0, -1.0, 0.0, 2.0, -2.0, 0.0, 1.0, 1.0, 0.0];
    assert pl[..0] == [];
    GainsStep(pl, 0);
    assert Gains(pl[..1]) == 0.0;
    GainsStep(pl, 1);
    assert Gains(pl[..2]) == 1.0;
    GainsStep(pl, 2);
    assert Gains(pl[..3]) == 1.0;
    GainsStep(pl, 3);
    assert Gains(pl[..4]) == 1.0;
    GainsStep(pl, 4);
    assert Gains(pl[..5]) == 3.0;
    GainsStep(pl, 5);
    assert Gains(pl[..6]) == 3.0;
    GainsStep(pl, 6);
    assert Gains(pl[..7]) == 3.0;
    GainsStep(pl, 7);
    assert Gains(pl[..8]) == 4.0;
    GainsStep(pl, 8);
    assert Gains(pl[..9]) == 5.0;
    GainsStep(pl, 9);
    assert Gains(pl[..10]) == 5.0;
    assert pl[..10] == pl;
  }

  /** The daily changes lose 3 in all. */
  lemma {:induction false} DailyLosses()
    ensures Losses([0.0, 1.0, -1.0, 0.0, 2.0, -2.0, 0.0, 1.0, 1.0, 0.0]) == -3.0
  {
    var pl := [0.0, 1.0, -1.0, 0.0, 2.0, -2.0, 0.0, 1.0, 1.0, 0.0];
    assert pl[..0] == [];
    LossesStep(pl, 0);
    assert Losses(pl[..1]) == 0.0;
    LossesStep(pl, 1);
    assert Losses(pl[..2]) == 0.0;
    LossesStep(pl, 2);
    assert Losses(pl[..3]) == -1.0;
    LossesStep(pl, 3);
    assert Losses(pl[..4]) == -1.0;
    LossesStep(pl, 4);
    assert Losses(pl[..5]) == -1.0;
    LossesStep(pl, 5);
    assert Losses(pl[..6]) == -3.0;
    LossesStep(pl, 6);
    assert Losses(pl[..7]) == -3.0;
    LossesStep(pl, 7);
    assert Losses(pl[..8]) == -3.0;
    LossesStep(pl, 8);
    assert Losses(pl[..9]) == -3.0;
    LossesStep(pl, 9);
    assert Losses(pl[..10]) == -3.0;
    assert pl[..10] == pl;
  }

  /** A record with the daily changes and a traded volume of 14 reports the fixture's performance. */
  lemma {:induction false} DailyPerformance(e: seq<Entry>)
    requires CalculatePl(e) == [0.0, 1.0, -1.0, 0.0, 2.0, -2.0, 0.0, 1.0, 1.0, 0.0]
    requires TradeAmount(Amounts(e)) == 14.0
    ensures CalculatePositionPerformance(e) == Performance(2.0, 5.0, -3.0, 14.0, Some(2.0 / 14.0))
  {
    DailyGains();
    DailyLosses();
    DailyPl();
    PlTotal(DailyValues);
  }

  /** test_calculate_position_performance, without the Sharpe ratio. */
  lemma {:induction false} TestPositionPerformance()
    ensures CalculatePositions(Fixture(), Daily(), 100.0).Ok?
    ensures CalculatePositionPerformance(CalculatePositions(Fixture(), Daily(), 100.0).value.entries) ==
      Performance(2.0, 5.0, -3.0, 14.0, Some(2.0 / 14.0))
  {
    TestCalculatePl();
    TestTradeAmount();
    DailyPerformance(CalculatePositions(Fixture(), Daily(), 100.0).value.entries);
  }
}
