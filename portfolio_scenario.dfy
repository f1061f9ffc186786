/**
 * The portfolio tests: three containers of the same fourteen fills (two of
 * USDJPY, one of EURJPY) against flat markets from minute -3 on, USDJPY at
 * 2 and EURJPY at 4, a principal of 10 and a lot size of 2 per symbol, and
 * USD as the base currency; and the fusion of three small records.
 */
module PortfolioScenario {
  import opened Common
  import opened TimeSeries
  import opened Ledger
  import opened PositionEngine
  import opened Portfolios

  // ---------------------------------------------------------------------
  // Fixtures

  /** The fills of the trades fixture, one step per minute; minutes 3, 5, 6 and 9 have two fills. */
  const Fills14: Series := [
    Point(0, 1.0), Point(1, -1.0), Point(2, -1.0), Point(3, 1.0), Point(3, 1.0), Point(4, 1.0), Point(5, -1.0),
    Point(5, -1.0), Point(6, -1.0), Point(6, -1.0), Point(7, 1.0), Point(8, 1.0), Point(9, 1.0), Point(9, -1.0)]

  /** The trade id of each fill. */
  const Labels: seq<nat> := [0, 1, 0, 1, 2, 3, 2, 4, 3, 5, 4, 5, 6, 6]

  /** The container of one symbol holding the fixture fills. */
  function Container(symbol: string): (r: Trades)
    ensures r.symbol == symbol && r.currency == JPY
  {
    assert Shaped([Fills14], [Labels]);
    MakeTrades(symbol, [Fills14], JPY, Some([Labels])).value
  }

  function FixtureTrades(): seq<Trades> {
    [Container("USDJPY"), Container("EURJPY"), Container("USDJPY")]
  }

  const UsdMids: seq<real> := [2.0, 2.0, 2.0, 2.0, 2.0, 2.0, 2.0, 2.0, 2.0, 2.0, 2.0, 2.0, 2.0]
  const EurMids: seq<real> := [4.0, 4.0, 4.0, 4.0, 4.0, 4.0, 4.0, 4.0, 4.0, 4.0, 4.0, 4.0, 4.0]

  function UsdMarket(): Market { Market("USDJPY", JPY, -3, UsdMids) }
  function EurMarket(): Market { Market("EURJPY", JPY, -3, EurMids) }
  function FixtureMarkets(): seq<Market> { [UsdMarket(), EurMarket()] }

  const Principals: map<string, real> := map["USDJPY" := 10.0, "EURJPY" := 10.0]
  const Lots: map<string, real> := map["USDJPY" := 2.0, "EURJPY" := 2.0]

  /** The net quantity of each minute from 0 to 9. */
  const Net: seq<real> := [1.0, -1.0, -1.0, 2.0, 1.0, -2.0, -2.0, 1.0, 1.0, 0.0]
  const Net2: seq<real> := [2.0, -2.0, -2.0, 4.0, 2.0, -4.0, -4.0, 2.0, 2.0, 0.0]
  const Net4: seq<real> := [4.0, -4.0, -4.0, 8.0, 4.0, -8.0, -8.0, 4.0, 4.0, 0.0]

  const Twos: seq<real> := [2.0, 2.0, 2.0, 2.0, 2.0, 2.0, 2.0, 2.0, 2.0, 2.0]
  const Fours: seq<real> := [4.0, 4.0, 4.0, 4.0, 4.0, 4.0, 4.0, 4.0, 4.0, 4.0]
  const Units: seq<real> := [1.0, 1.0, 1.0, 1.0, 1.0, 1.0, 1.0, 1.0, 1.0, 1.0]

  /** The expected EURJPY position, from minute -1 to 9: amount, price and principal in USD. */
  const EurRecord: seq<Entry> := [
    Entry(-1, Holding(0.0, 0.0, 5.0)), Entry(0, Holding(2.0, 2.0, 1.0)), Entry(1, Holding(0.0, 2.0, 5.0)),
    Entry(2, Holding(-2.0, 2.0, 9.0)), Entry(3, Holding(2.0, 2.0, 1.0)), Entry(4, Holding(4.0, 2.0, -3.0)),
    Entry(5, Holding(0.0, 2.0, 5.0)), Entry(6, Holding(-4.0, 2.0, 13.0)), Entry(7, Holding(-2.0, 2.0, 9.0)),
    Entry(8, Holding(0.0, 2.0, 5.0)), Entry(9, Holding(0.0, 2.0, 5.0))]

  /** The expected USDJPY position, from minute -1 to 9. */
  const UsdRecord: seq<Entry> := [
    Entry(-1, Holding(0.0, 0.0, 10.0)), Entry(0, Holding(4.0, 2.0, 6.0)), Entry(1, Holding(0.0, 2.0, 10.0)),
    Entry(2, Holding(-4.0, 2.0, 14.0)), Entry(3, Holding(4.0, 2.0, 6.0)), Entry(4, Holding(8.0, 2.0, 2.0)),
    Entry(5, Holding(0.0, 2.0, 10.0)), Entry(6, Holding(-8.0, 2.0, 18.0)), Entry(7, Holding(-4.0, 2.0, 14.0)),
    Entry(8, Holding(0.0, 2.0, 10.0)), Entry(9, Holding(0.0, 2.0, 10.0))]

  // ---------------------------------------------------------------------
  // The fills and the containers

  /** The net quantity of minute t: the table Net inside minutes 0 to 9, nothing outside. */
  function NetAt(t: int): real {
    if 0 <= t < 10 then Net[t] else 0.0
  }

  /** The fourteen fixture fills, point by point. */
  predicate FixtureFills(s: Series) {
    |s| == 14 &&
    s[0] == Point(0, 1.0) &&
    s[1] == Point(1, -1.0) &&
    s[2] == Point(2, -1.0) &&
    s[3] == Point(3, 1.0) &&
    s[4] == Point(3, 1.0) &&
    s[5] == Point(4, 1.0) &&
    s[6] == Point(5, -1.0) &&
    s[7] == Point(5, -1.0) &&
    s[8] == Point(6, -1.0) &&
    s[9] == Point(6, -1.0) &&
    s[10] == Point(7, 1.0) &&
    s[11] == Point(8, 1.0) &&
    s[12] == Point(9, 1.0) &&
    s[13] == Point(9, -1.0)
  }

  lemma {:induction false} FixtureFillsHold()
    ensures FixtureFills(Fills14)
  {
  }

  /** The fixture fills trade, at every minute, the net quantity of that minute. */
  lemma {:induction false} FillsNet(s: Series, t: int)
    requires FixtureFills(s)
    ensures At(s, t) == NetAt(t)
  {
    assert s[..0] == [];
    AtPrefix(s, 0, t);
    AtPrefix(s, 1, t);
    AtPrefix(s, 2, t);
    AtPrefix(s, 3, t);
    AtPrefix(s, 4, t);
    AtPrefix(s, 5, t);
    AtPrefix(s, 6, t);
    AtPrefix(s, 7, t);
    AtPrefix(s, 8, t);
    AtPrefix(s, 9, t);
    AtPrefix(s, 10, t);
    AtPrefix(s, 11, t);
    AtPrefix(s, 12, t);
    AtPrefix(s, 13, t);
    assert s[..14] == s;
  }

  /** Every timestamp lies in minutes 0 to 9. */
  predicate Minutes(ts: set<int>) {
    forall t :: t in ts ==> 0 <= t < 10
  }

  /** The fixture fills fall on minutes 0 to 9, minute 0 among them. */
  lemma {:induction false} FillsSpan(s: Series)
    requires FixtureFills(s)
    ensures 0 in Times(s)
    ensures forall t :: t in Times(s) ==> 0 <= t < 10
  {
    InTimes(s, 0);
    SpanEarly(s);
    SpanLate(s);
    assert s[..14] == s;
  }

  lemma {:induction false} SpanEarly(s: Series)
    requires FixtureFills(s)
    ensures Minutes(Times(s[..7]))
  {
    assert s[..0] == [];
    TimesStep(s, 0);
    TimesStep(s, 1);
    TimesStep(s, 2);
    TimesStep(s, 3);
    TimesStep(s, 4);
    TimesStep(s, 5);
    TimesStep(s, 6);
  }

  lemma {:induction false} SpanLate(s: Series)
    requires FixtureFills(s)
    requires Minutes(Times(s[..7]))
    ensures Minutes(Times(s[..14]))
  {
    TimesStep(s, 7);
    TimesStep(s, 8);
    TimesStep(s, 9);
    TimesStep(s, 10);
    TimesStep(s, 11);
    TimesStep(s, 12);
    TimesStep(s, 13);
  }

  /** A prefix of minutes 0 to 9 stays within them when the next fill does. */
  lemma {:induction false} TimesStep(s: Series, n: int)
    requires 0 <= n < |s| && 0 <= s[n].time < 10
    requires Minutes(Times(s[..n]))
    ensures Minutes(Times(s[..n + 1]))
  {
    TimesPrefix(s, n);
  }

  /** The container trades f times the fixture's net quantity at every minute, on minutes 0 to 9 only. */
  ghost predicate Trading(tr: Trades, f: real) {
    0 in Times(Amount(tr)) && (forall t :: t in Times(Amount(tr)) ==> 0 <= t < 10) &&
    forall t :: At(Amount(tr), t) == f * NetAt(t)
  }

  /** A container made of the fixture fills trades the fixture's net quantity. */
  lemma {:induction false} ContainerOf(symbol: string, s: Series, ids: seq<nat>)
    requires FixtureFills(s) && |ids| == |s|
    ensures Shaped([s], [ids])
    ensures Trading(MakeTrades(symbol, [s], JPY, Some([ids])).value, 1.0)
  {
    MakeTradesAmount(symbol, [s], JPY, Some([ids]));
    assert Flatten([s]) == s + [];
    assert s + [] == s;
    FillsSpan(s);
    forall t ensures At(s, t) == NetAt(t) { FillsNet(s, t); }
  }

  /** A fixture container trades the fixture's net quantity. */
  lemma {:induction false} ContainerAmount(symbol: string)
    ensures Trading(Container(symbol), 1.0)
  {
    FixtureFillsHold();
    ContainerOf(symbol, Fills14, Labels);
  }

  /** The two symbols differ, and EURJPY comes first. */
  lemma {:induction false} SymbolOrder()
    ensures "EURJPY" != "USDJPY"
    ensures Precedes("EURJPY", "USDJPY") && !Precedes("USDJPY", "EURJPY")
  {
    assert "EURJPY"[0] != "USDJPY"[0];
  }

  /** The containers of each symbol, in list order. */
  lemma {:induction false} FixtureGroups(u: Trades, e: Trades)
    requires u.symbol == "USDJPY" && e.symbol == "EURJPY"
    ensures Group([u, e, u], "USDJPY") == [u, u]
    ensures Group([u, e, u], "EURJPY") == [e]
  {
    SymbolOrder();
    assert [u, e, u][1..] == [e, u];
    assert [e, u][1..] == [u];
    assert [u][1..] == [];
    assert Group([u], "USDJPY") == [u] + [];
    assert Group([e, u], "USDJPY") == [] + [u];
    assert Group([u], "EURJPY") == [] + [];
    assert Group([e, u], "EURJPY") == [e] + [];
  }

  /** The rows of a concatenation have the timestamps of all inputs' rows. */
  lemma {:induction false} ConcatTimes(list: seq<Trades>)
    requires list != []
    ensures Times(Amount(Concat(list).value)) == Times(Fills(AllRows(list)))
  {
    FillsSortTimes(AllRows(list));
  }

  /** Two containers with the fills of u concatenate to the timestamps of u. */
  lemma {:induction false} PairTimes(list: seq<Trades>, u: Trades)
    requires |list| == 2 && Fills(list[0].rows) == Fills(u.rows) && Fills(list[1].rows) == Fills(u.rows)
    ensures Times(Amount(Concat(list).value)) == Times(Amount(u))
  {
    assert list[1..][1..] == [];
    assert list[1..][0] == list[1];
    assert AllRows(list[1..][1..]) == [];
    assert AllRows(list[1..]) == list[1].rows + [];
    assert list[1].rows + [] == list[1].rows;
    assert AllRows(list) == list[0].rows + list[1].rows;
    FillsAppend(list[0].rows, list[1].rows);
    TimesAppend(Fills(u.rows), Fills(u.rows));
    ConcatTimes(list);
  }

  /** refresh_id on two copies of u leaves both with the fills of u. */
  lemma {:induction false} RefreshedPair(u: Trades)
    ensures var list := Refreshed([u, u], 0);
      |list| == 2 && list[0].symbol == u.symbol && list[0].currency == u.currency &&
      Fills(list[0].rows) == Fills(u.rows) && Fills(list[1].rows) == Fills(u.rows)
  {
    var list := Refreshed([u, u], 0);
    RefreshShifts([u, u], 0, 0);
    RefreshShifts([u, u], 0, 1);
    var c0: nat :| list[0] == Shift(u, c0);
    var c1: nat :| list[1] == Shift(u, c1);
    FillsShift(u.rows, c0);
    FillsShift(u.rows, c1);
  }

  /** Two copies of u trade twice what u trades. */
  lemma {:induction false} PairAmount(u: Trades, t: int)
    ensures AmountAt([u, u], t) == 2.0 * At(Amount(u), t)
  {
    assert [u, u][1..] == [u];
    assert [u][1..] == [];
    assert AmountAt([u], t) == At(Amount(u), t) + AmountAt([], t);
  }

  /** The two USDJPY containers merge into one trading twice the amount of either. */
  lemma {:induction false} MergedUsd(u: Trades, e: Trades)
    requires u.symbol == "USDJPY" && e.symbol == "EURJPY" && Trading(u, 1.0)
    ensures Merged([u, e, u], "USDJPY").Ok?
    ensures var m := Merged([u, e, u], "USDJPY").value;
      m.symbol == "USDJPY" && m.currency == u.currency && Trading(m, 2.0)
  {
    var trades := [u, e, u];
    assert u in trades;
    FixtureGroups(u, e);
    var list := Refreshed([u, u], 0);
    RefreshedPair(u);
    PairTimes(list, u);
    var m := Merged(trades, "USDJPY").value;
    assert m == Concat(list).value;
    forall t ensures At(Amount(m), t) == 2.0 * NetAt(t) {
      MergedAmount(trades, "USDJPY", t);
      PairAmount(u, t);
    }
  }

  /** The one EURJPY container merges into one trading the same amount. */
  lemma {:induction false} MergedEur(u: Trades, e: Trades)
    requires u.symbol == "USDJPY" && e.symbol == "EURJPY" && Trading(e, 1.0)
    ensures Merged([u, e, u], "EURJPY").Ok?
    ensures var m := Merged([u, e, u], "EURJPY").value;
      m.symbol == "EURJPY" && m.currency == e.currency && Trading(m, 1.0)
  {
    var trades := [u, e, u];
    assert e in trades;
    FixtureGroups(u, e);
    var g := [e];
    var list := Refreshed(g, 0);
    RefreshFirstUnchanged(g);
    assert list == [e];
    assert AllRows(list) == e.rows + [];
    assert e.rows + [] == e.rows;
    ConcatTimes(list);
    var m := Merged(trades, "EURJPY").value;
    forall t ensures At(Amount(m), t) == NetAt(t) {
      MergedAmount(trades, "EURJPY", t);
    }
  }

  // ---------------------------------------------------------------------
  // The two positions

  /** A container trading f times the fixture's minutes starts at minute 0 and trades inside the markets. */
  lemma {:induction false} FixtureSpan(tr: Trades, m: Market, f: real)
    requires Trading(tr, f)
    requires m.start == -3 && m.End() == 10
    ensures tr.rows != [] && Amount(tr) != [] && Amount(tr)[0].time == 0
    ensures forall p :: p in Amount(tr) ==> m.Covers(p.time)
    ensures forall k :: 0 <= k < 10 ==> Deltas(tr, 0, 10)[k] == f * Net[k]
  {
    SpanFirst(Amount(tr), 0, 10);
    AmountEmpty(tr);
  }

  lemma {:induction false} ScaleNet2()
    ensures Scale(Net2, 2.0) == Net4
  {
    forall k | 0 <= k < 10 ensures Scale(Net2, 2.0)[k] == Net4[k] { ScaleAt(Net2, 2.0, k); }
  }

  lemma {:induction false} ScaleNet()
    ensures Scale(Net, 2.0) == Net2
  {
    forall k | 0 <= k < 10 ensures Scale(Net, 2.0)[k] == Net2[k] { ScaleAt(Net, 2.0, k); }
  }

  /** One minute of a record: from row x the row after it holds dv more, at price pv, paid at cost cv. */
  lemma {:induction false} RecordStep(e: seq<Entry>, d: seq<real>, p: seq<real>, c: seq<real>, principal: real,
                                      k: int, x: Entry, y: Entry, dv: real, pv: real, cv: real)
    requires |d| == 10 && |p| == 10 && |c| == 10 && e == Book(0, d, p, c, principal)
    requires 0 <= k < 10 && e[k] == x && d[k] == dv && p[k] == pv && c[k] == cv
    requires y == Entry(x.time + 1, Holding(x.hold.amount + dv, pv, x.hold.principal - dv * cv))
    ensures e[k + 1] == y
  {
    BookStep(e, 0, d, p, c, principal, k);
  }

  /** The USDJPY record of the fixture, one minute at a time. */
  lemma {:induction false} UsdBook(e: seq<Entry>, d: seq<real>, p: seq<real>, c: seq<real>)
    requires d == Net4 && p == Twos && c == Units && e == Book(0, d, p, c, 10.0)
    ensures e == UsdRecord
  {
    assert e[0] == UsdRecord[0];
    RecordStep(e, d, p, c, 10.0, 0, UsdRecord[0], UsdRecord[1], 4.0, 2.0, 1.0);
    RecordStep(e, d, p, c, 10.0, 1, UsdRecord[1], UsdRecord[2], -4.0, 2.0, 1.0);
    RecordStep(e, d, p, c, 10.0, 2, UsdRecord[2], UsdRecord[3], -4.0, 2.0, 1.0);
    RecordStep(e, d, p, c, 10.0, 3, UsdRecord[3], UsdRecord[4], 8.0, 2.0, 1.0);
    RecordStep(e, d, p, c, 10.0, 4, UsdRecord[4], UsdRecord[5], 4.0, 2.0, 1.0);
    RecordStep(e, d, p, c, 10.0, 5, UsdRecord[5], UsdRecord[6], -8.0, 2.0, 1.0);
    RecordStep(e, d, p, c, 10.0, 6, UsdRecord[6], UsdRecord[7], -8.0, 2.0, 1.0);
    RecordStep(e, d, p, c, 10.0, 7, UsdRecord[7], UsdRecord[8], 4.0, 2.0, 1.0);
    RecordStep(e, d, p, c, 10.0, 8, UsdRecord[8], UsdRecord[9], 4.0, 2.0, 1.0);
    RecordStep(e, d, p, c, 10.0, 9, UsdRecord[9], UsdRecord[10], 0.0, 2.0, 1.0);
    RecordEquals(e, UsdRecord);
  }



  lemma {:induction false} EurBook(e: seq<Entry>, d: seq<real>, p: seq<real>)
    requires d == Net2 && p == Twos && e == Book(0, d, p, p, 5.0)
    ensures e == EurRecord
  {
    assert e[0] == EurRecord[0];
    RecordStep(e, d, p, p, 5.0, 0, EurRecord[0], EurRecord[1], 2.0, 2.0, 2.0);
    RecordStep(e, d, p, p, 5.0, 1, EurRecord[1], EurRecord[2], -2.0, 2.0, 2.0);
    RecordStep(e, d, p, p, 5.0, 2, EurRecord[2], EurRecord[3], -2.0, 2.0, 2.0);
    RecordStep(e, d, p, p, 5.0, 3, EurRecord[3], EurRecord[4], 4.0, 2.0, 2.0);
    RecordStep(e, d, p, p, 5.0, 4, EurRecord[4], EurRecord[5], 2.0, 2.0, 2.0);
    RecordStep(e, d, p, p, 5.0, 5, EurRecord[5], EurRecord[6], -4.0, 2.0, 2.0);
    RecordStep(e, d, p, p, 5.0, 6, EurRecord[6], EurRecord[7], -4.0, 2.0, 2.0);
    RecordStep(e, d, p, p, 5.0, 7, EurRecord[7], EurRecord[8], 2.0, 2.0, 2.0);
    RecordStep(e, d, p, p, 5.0, 8, EurRecord[8], EurRecord[9], 2.0, 2.0, 2.0);
    RecordStep(e, d, p, p, 5.0, 9, EurRecord[9], EurRecord[10], 0.0, 2.0, 2.0);
    RecordEquals(e, EurRecord);
  }

  /** Two records of eleven rows agreeing row by row are equal. */
  lemma {:induction false} RecordEquals(e: seq<Entry>, x: seq<Entry>)
    requires |e| == 11 && |x| == 11
    requires e[0] == x[0] && e[1] == x[1] && e[2] == x[2] && e[3] == x[3] && e[4] == x[4] && e[5] == x[5]
    requires e[6] == x[6] && e[7] == x[7] && e[8] == x[8] && e[9] == x[9] && e[10] == x[10]
    ensures e == x
  {
  }

  /** A base-leg symbol keeps its prices and pays one unit of the base currency per unit bought. */
  lemma {:induction false} UsdConversion()
    ensures Convert("USDJPY", JPY, USD, FixtureMarkets(), 0, Twos, 10.0) == Ok(Conversion(Twos, Units, 10.0))
  {
    assert "USDJPY"[..3] == "USD";
    assert BaseLeg("USDJPY", USD);
    assert Ones(10) == Units;
  }

  /** The engine's record of a container trading f times the fixture's minutes, from minute 0 on. */
  lemma {:induction false} FixturePlain(tr: Trades, m: Market, f: real, d: seq<real>)
    requires Trading(tr, f) && tr.symbol == m.symbol
    requires m.start == -3 && m.End() == 10
    requires |d| == 10 && forall k :: 0 <= k < 10 ==> d[k] == f * Net[k]
    ensures CalculatePositions(tr, m, 10.0).Ok? && tr.rows != []
    ensures Amount(tr)[0].time == 0 && Deltas(tr, 0, 10) == d
  {
    FixtureSpan(tr, m, f);
    CoveredPositions(tr, m, 10.0, 0);
  }

  /**
   * A position of the fixture's shape, started at minute 0 in a market from
   * minute -3 and converted into USD, is the record of its lot-scaled
   * quantities at the converted prices and costs.
   */
  lemma {:induction false} Assembled(tr: Trades, m: Market, lot: real, d: seq<real>, p: seq<real>,
                                     c: Conversion, rec: seq<Entry>)
    requires CalculatePositions(tr, m, 10.0).Ok? && tr.rows != []
    requires Amount(tr)[0].time == 0 && m.start == -3 && m.mids[3..] == p && |p| == 10
    requires Deltas(tr, 0, 10) == d
    requires Convert(tr.symbol, tr.currency, USD, FixtureMarkets(), 0, p, 10.0) == Ok(c)
    requires |c.prices| == 10 && |c.costs| == 10
    requires Book(0, Scale(d, lot), c.prices, c.costs, c.principal) == rec
    ensures BuildPosition(tr, m, 10.0, lot, USD, FixtureMarkets()) == Ok(Positions(tr.symbol, USD, rec))
  {
    BuildPositionConverted(tr, m, 10.0, lot, USD, FixtureMarkets());
  }

  /** The USDJPY position: a base-leg symbol keeps its JPY price and pays one USD per unit. */
  lemma {:induction false} UsdPosition(tr: Trades)
    requires tr.symbol == "USDJPY" && tr.currency == JPY && Trading(tr, 2.0)
    ensures BuildPosition(tr, UsdMarket(), 10.0, 2.0, USD, FixtureMarkets()) == Ok(Positions("USDJPY", USD, UsdRecord))
  {
    var m := UsdMarket();
    assert CalculatePositions(tr, m, 10.0).Ok? && tr.rows != [] && Amount(tr)[0].time == 0 && Deltas(tr, 0, 10) == Net2 by {
      FixturePlain(tr, m, 2.0, Net2);
    }
    assert m.mids[3..] == Twos;
    assert Convert(tr.symbol, tr.currency, USD, FixtureMarkets(), 0, Twos, 10.0) == Ok(Conversion(Twos, Units, 10.0)) by {
      UsdConversion();
    }
    assert Book(0, Scale(Net2, 2.0), Twos, Units, 10.0) == UsdRecord by {
      ScaleNet2();
      UsdBook(Book(0, Net4, Twos, Units, 10.0), Net4, Twos, Units);
    }
    Assembled(tr, m, 2.0, Net2, Twos, Conversion(Twos, Units, 10.0), UsdRecord);
  }

  /** The cross market turns the EURJPY prices of 4 into USD prices of 2 and the principal of 10 into 5. */
  lemma {:induction false} EurConversion()
    ensures Convert("EURJPY", JPY, USD, FixtureMarkets(), 0, Fours, 10.0) == Ok(Conversion(Twos, Twos, 5.0))
  {
    assert "EURJPY"[..3][0] != "USD"[0];
    assert !BaseLeg("EURJPY", USD);
    assert CrossSymbol(USD, JPY) == "USDJPY";
    assert FindMarket(FixtureMarkets(), "USDJPY") == Some(UsdMarket());
    assert CrossCovers(UsdMarket(), -1, 11);
    var rates := RatesFrom(UsdMarket(), -1, 11);
    assert rates == UsdMids[2..13];
    assert forall k :: 0 <= k < 11 ==> rates[k] == 2.0;
    assert 0.0 !in rates;
    var c := CrossConvert(UsdMarket(), 0, Fours, 10.0);
    assert c.value.prices == Twos;
  }

  /**
   * A USD-quoted EURUSD record converted into JPY: with no JPYUSD market
   * the USDJPY mid of 2 is multiplied in, so prices of 2 become 4 and the
   * principal of 10 becomes 20.
   */
  lemma {:induction false} ReverseConversion()
    ensures Convert("EURUSD", USD, JPY, FixtureMarkets(), 0, Twos, 10.0) == Ok(Conversion(Fours, Fours, 20.0))
  {
    assert "EURUSD"[..3][0] != "JPY"[0];
    assert !BaseLeg("EURUSD", JPY);
    assert CrossSymbol(JPY, USD) == "JPYUSD";
    assert "JPYUSD"[0] != "USDJPY"[0] && "JPYUSD"[0] != "EURJPY"[0];
    assert FindMarket(FixtureMarkets(), "JPYUSD") == None;
    assert CrossSymbol(USD, JPY) == "USDJPY";
    assert FindMarket(FixtureMarkets(), "USDJPY") == Some(UsdMarket());
    assert CrossCovers(UsdMarket(), -1, 11);
    var rates := RatesFrom(UsdMarket(), -1, 11);
    assert rates == UsdMids[2..13];
    assert forall k :: 0 <= k < 11 ==> rates[k] == 2.0;
    var c := CrossMultiply(UsdMarket(), 0, Twos, 10.0);
    assert c.value.prices == Fours;
  }

  /** The EURJPY position: priced, costed and started in USD through the USDJPY market. */
  lemma {:induction false} EurPosition(tr: Trades)
    requires tr.symbol == "EURJPY" && tr.currency == JPY && Trading(tr, 1.0)
    ensures BuildPosition(tr, EurMarket(), 10.0, 2.0, USD, FixtureMarkets()) == Ok(Positions("EURJPY", USD, EurRecord))
  {
    var m := EurMarket();
    assert CalculatePositions(tr, m, 10.0).Ok? && tr.rows != [] && Amount(tr)[0].time == 0 && Deltas(tr, 0, 10) == Net by {
      FixturePlain(tr, m, 1.0, Net);
    }
    assert m.mids[3..] == Fours;
    assert Convert(tr.symbol, tr.currency, USD, FixtureMarkets(), 0, Fours, 10.0) == Ok(Conversion(Twos, Twos, 5.0)) by {
      EurConversion();
    }
    assert Book(0, Scale(Net, 2.0), Twos, Twos, 5.0) == EurRecord by {
      ScaleNet();
      EurBook(Book(0, Net2, Twos, Twos, 5.0), Net2, Twos);
    }
    Assembled(tr, m, 2.0, Net, Fours, Conversion(Twos, Twos, 5.0), EurRecord);
  }


  // ---------------------------------------------------------------------
  // construct_portfolio

  lemma {:induction false} FixtureSymbols(u: Trades, e: Trades)
    requires u.symbol == "USDJPY" && e.symbol == "EURJPY"
    ensures TradeSymbols([u, e, u]) == ["EURJPY", "USDJPY"]
  {
    SymbolOrder();
    var names := seq(3, i requires 0 <= i < 3 => [u, e, u][i].symbol);
    assert names == ["USDJPY", "EURJPY", "USDJPY"];
    assert names[..2] == ["USDJPY", "EURJPY"];
    assert names[..2][..1] == ["USDJPY"];
    assert names[..2][..1][..0] == [];
    assert SortedNames(["USDJPY"]) == ["USDJPY"];
    assert SortedNames(["USDJPY", "EURJPY"]) == ["EURJPY", "USDJPY"];
    assert ["EURJPY", "USDJPY"][1..] == ["USDJPY"];
    assert AddName(["EURJPY", "USDJPY"], "USDJPY") == ["EURJPY"] + ["USDJPY"];
  }

  /** A symbol with a merged container, a market, a principal and a lot size gets the position built from them. */
  lemma {:induction false} SymbolPositionOf(trades: seq<Trades>, markets: seq<Market>, principal: map<string, real>,
                                            lot: map<string, real>, base: Currency, s: string, tr: Trades, m: Market)
    requires Merged(trades, s) == Ok(tr) && FindMarket(markets, s) == Some(m)
    requires s in principal && s in lot
    ensures SymbolPosition(trades, markets, principal, lot, base, s) == BuildPosition(tr, m, principal[s], lot[s], base, markets)
  {
  }

  /** The EURJPY position of the fixture. */
  lemma {:induction false} EurSymbolPosition(u: Trades, e: Trades)
    requires u.symbol == "USDJPY" && e.symbol == "EURJPY" && e.currency == JPY && Trading(e, 1.0)
    ensures SymbolPosition([u, e, u], FixtureMarkets(), Principals, Lots, USD, "EURJPY") == Ok(Positions("EURJPY", USD, EurRecord))
  {
    SymbolOrder();
    var tr := Merged([u, e, u], "EURJPY");
    assert tr.Ok? && tr.value.symbol == "EURJPY" && tr.value.currency == JPY && Trading(tr.value, 1.0) by {
      MergedEur(u, e);
    }
    assert BuildPosition(tr.value, EurMarket(), 10.0, 2.0, USD, FixtureMarkets()) == Ok(Positions("EURJPY", USD, EurRecord)) by {
      EurPosition(tr.value);
    }
    assert FindMarket(FixtureMarkets(), "EURJPY") == Some(EurMarket());
    assert "EURJPY" in Principals && Principals["EURJPY"] == 10.0;
    assert "EURJPY" in Lots && Lots["EURJPY"] == 2.0;
    SymbolPositionOf([u, e, u], FixtureMarkets(), Principals, Lots, USD, "EURJPY", tr.value, EurMarket());
  }

  /** The USDJPY position of the fixture. */
  lemma {:induction false} UsdSymbolPosition(u: Trades, e: Trades)
    requires u.symbol == "USDJPY" && e.symbol == "EURJPY" && u.currency == JPY && Trading(u, 1.0)
    ensures SymbolPosition([u, e, u], FixtureMarkets(), Principals, Lots, USD, "USDJPY") == Ok(Positions("USDJPY", USD, UsdRecord))
  {
    SymbolOrder();
    var tr := Merged([u, e, u], "USDJPY");
    assert tr.Ok? && tr.value.symbol == "USDJPY" && tr.value.currency == JPY && Trading(tr.value, 2.0) by {
      MergedUsd(u, e);
    }
    assert BuildPosition(tr.value, UsdMarket(), 10.0, 2.0, USD, FixtureMarkets()) == Ok(Positions("USDJPY", USD, UsdRecord)) by {
      UsdPosition(tr.value);
    }
    assert FindMarket(FixtureMarkets(), "USDJPY") == Some(UsdMarket());
    assert "USDJPY" in Principals && Principals["USDJPY"] == 10.0;
    assert "USDJPY" in Lots && Lots["USDJPY"] == 2.0;
    SymbolPositionOf([u, e, u], FixtureMarkets(), Principals, Lots, USD, "USDJPY", tr.value, UsdMarket());
  }

  /** Positions built for two symbols, in the order of the symbols. */
  lemma {:induction false} BuildTwo(trades: seq<Trades>, markets: seq<Market>, principal: map<string, real>,
                 lot: map<string, real>, base: Currency, syms: seq<string>, p0: Positions, p1: Positions)
    requires |syms| == 2
    requires SymbolPosition(trades, markets, principal, lot, base, syms[0]) == Ok(p0)
    requires SymbolPosition(trades, markets, principal, lot, base, syms[1]) == Ok(p1)
    ensures BuildAll(trades, markets, principal, lot, base, syms) == Ok([p0, p1])
  {
    var r := BuildAll(trades, markets, principal, lot, base, syms);
    forall k | 0 <= k < |syms| ensures SymbolPosition(trades, markets, principal, lot, base, syms[k]).Ok? {
      assert k == 0 || k == 1;
    }
    assert r.Ok?;
    assert r.value[0] == p0 && r.value[1] == p1;
    assert r.value == [p0, p1];
  }

  /** The portfolio of two USDJPY containers and one EURJPY container, each trading the fixture's minutes. */
  lemma {:induction false} FixturePortfolio(u: Trades, e: Trades)
    requires u.symbol == "USDJPY" && e.symbol == "EURJPY" && u.currency == JPY && e.currency == JPY
    requires Trading(u, 1.0) && Trading(e, 1.0)
    ensures ConstructPortfolio([u, e, u], FixtureMarkets(), Principals, Lots, USD) ==
      Ok(Portfolio([Positions("EURJPY", USD, EurRecord), Positions("USDJPY", USD, UsdRecord)], Principals, Lots, USD))
  {
    FixtureSymbols(u, e);
    EurSymbolPosition(u, e);
    UsdSymbolPosition(u, e);
    var syms := TradeSymbols([u, e, u]);
    assert syms[0] == "EURJPY" && syms[1] == "USDJPY";
    BuildTwo([u, e, u], FixtureMarkets(), Principals, Lots, USD, syms,
      Positions("EURJPY", USD, EurRecord), Positions("USDJPY", USD, UsdRecord));
  }

  /**
   * test_construct_portfolio: one position per symbol in lexicographic
   * order, EURJPY first; both expressed in USD, from one minute before the
   * first trade to the end of the markets.
   */
  lemma {:induction false} TestConstructPortfolio()
    ensures ConstructPortfolio(FixtureTrades(), FixtureMarkets(), Principals, Lots, USD) ==
      Ok(Portfolio([Positions("EURJPY", USD, EurRecord), Positions("USDJPY", USD, UsdRecord)], Principals, Lots, USD))
  {
    ContainerAmount("USDJPY");
    ContainerAmount("EURJPY");
    FixturePortfolio(Container("USDJPY"), Container("EURJPY"));
  }

  // ---------------------------------------------------------------------
  // _fusion_positions

  /** Three daily records from day `start` on: (0, 1, 2), (3, 4, 5), (6, 7, 8). */
  function Daily3(start: int): seq<Entry> {
    [Entry(start, Holding(0.0, 1.0, 2.0)), Entry(start + 1, Holding(3.0, 4.0, 5.0)), Entry(start + 2, Holding(6.0, 7.0, 8.0))]
  }

  function FusionInput(): seq<Positions> {
    [Positions("USDJPY", JPY, Daily3(0)), Positions("USDJPY", JPY, Daily3(1)), Positions("EURJPY", JPY, Daily3(3))]
  }

  /** The two USDJPY records added up: overlapping days sum, the others stay. */
  const FusedUsd: seq<Entry> := [
    Entry(0, Holding(0.0, 1.0, 2.0)), Entry(1, Holding(3.0, 5.0, 7.0)),
    Entry(2, Holding(9.0, 11.0, 13.0)), Entry(3, Holding(6.0, 7.0, 8.0))]

  lemma {:induction false} FusedDays()
    ensures MergeAdd(Daily3(0), MergeAdd(Daily3(1), [])) == FusedUsd
  {
    var a, b := Daily3(0), Daily3(1);
    assert a[1..] == [a[1], a[2]] && b[1..] == [b[1], b[2]];
    assert MergeAdd(a[2..], b[1..]) == [Entry(2, Holding(9.0, 11.0, 13.0)), Entry(3, Holding(6.0, 7.0, 8.0))];
  }

  /** The fusion input trades EURJPY and USDJPY. */
  lemma {:induction false} FusionNames()
    ensures PositionSymbols(FusionInput()) == ["EURJPY", "USDJPY"]
  {
    var list := FusionInput();
    var names := seq(3, i requires 0 <= i < 3 => list[i].symbol);
    assert names == ["USDJPY", "USDJPY", "EURJPY"];
    assert names[..2] == ["USDJPY", "USDJPY"];
    assert names[..2][..1] == ["USDJPY"];
    assert names[..2][..1][..0] == [];
    SymbolOrder();
    assert SortedNames(["USDJPY"]) == ["USDJPY"];
    assert SortedNames(["USDJPY", "USDJPY"]) == ["USDJPY"];
    assert ["USDJPY"][1..] == [];
    assert AddName(["USDJPY"], "EURJPY") == ["EURJPY", "USDJPY"];
  }

  /** The members of each symbol in the fusion input. */
  lemma {:induction false} FusionGroups()
    ensures SameSymbol(FusionInput(), "EURJPY") == [FusionInput()[2]]
    ensures SameSymbol(FusionInput(), "USDJPY") == [FusionInput()[0], FusionInput()[1]]
  {
    var list := FusionInput();
    SymbolOrder();
    assert list[1..] == [list[1], list[2]];
    assert list[1..][1..] == [list[2]];
    assert list[1..][1..][1..] == [];
  }

  /** test_fusion_positions: EURJPY stays as it is and the two USDJPY records are added up day by day. */
  lemma {:induction false} TestFusionPositions()
    ensures FusionPositions(FusionInput()) == [Positions("EURJPY", JPY, Daily3(3)), Positions("USDJPY", JPY, FusedUsd)]
  {
    var list := FusionInput();
    FusionNames();
    FusionGroups();
    FusedDays();
    assert Fuse([list[2]]) == Daily3(3);
    assert Fuse([list[0], list[1]]) == FusedUsd;
  }
}
