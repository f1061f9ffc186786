/**
 * The position engine: a Trades container and the market series of its
 * symbol become a time-indexed record of the running position size, the
 * market mid and the running cash principal.
 */
module PositionEngine {
  import opened Common
  import opened TimeSeries
  import opened Ledger

  /** Mid prices of one symbol, one per time step from start on. */
  datatype Market = Market(symbol: string, currency: Currency, start: int, mids: seq<real>) {
    /** The first time step after the series. */
    function End(): int { start + |mids| }

    predicate Covers(t: int) { start <= t < End() }

    function Mid(t: int): real
      requires Covers(t)
    {
      mids[t - start]
    }
  }

  /** One position record: size held, market price and cash principal. */
  datatype Holding = Holding(amount: real, price: real, principal: real) {
    /** Mark-to-market equity. */
    function Value(): real { amount * price + principal }
  }

  datatype Entry = Entry(time: int, hold: Holding)

  datatype Positions = Positions(symbol: string, currency: Currency, entries: seq<Entry>)

  /** The cash paid for the given quantities at the given unit costs. */
  function Cost(deltas: seq<real>, costs: seq<real>): real
    requires |costs| == |deltas|
  {
    if deltas == [] then 0.0
    else Cost(deltas[..|deltas| - 1], costs[..|costs| - 1]) + deltas[|deltas| - 1] * costs[|costs| - 1]
  }

  /** The record k steps after the first trade. */
  function Held(first: int, deltas: seq<real>, prices: seq<real>, costs: seq<real>, principal: real, k: int): Entry
    requires |prices| == |deltas| && |costs| == |deltas|
    requires 0 <= k < |deltas|
  {
    Entry(first + k, Holding(Sum(deltas[..k + 1]), prices[k], principal - Cost(deltas[..k + 1], costs[..k + 1])))
  }

  /** The record before any trade: nothing held, the whole principal in cash. */
  function Leading(first: int, principal: real): Entry {
    Entry(first - 1, Holding(0.0, 0.0, principal))
  }

  /**
   * The whole record: a leading row one step before the first trade, then
   * one row per step, holding the running sum of the net quantities and the
   * principal less everything paid so far.
   */
  function Book(first: int, deltas: seq<real>, prices: seq<real>, costs: seq<real>, principal: real): (r: seq<Entry>)
    requires |prices| == |deltas| && |costs| == |deltas|
    ensures |r| == |deltas| + 1
  {
    [Leading(first, principal)] + seq(|deltas|, k requires 0 <= k < |deltas| => Held(first, deltas, prices, costs, principal, k))
  }

  /** The record as the engine builds it, with a running amount and a running cash balance. */
  method Accumulate(first: int, deltas: seq<real>, prices: seq<real>, costs: seq<real>, principal: real) returns (r: seq<Entry>)
    requires |prices| == |deltas| && |costs| == |deltas|
    ensures r == Book(first, deltas, prices, costs, principal)
  {
    r := [Leading(first, principal)];
    var amount := 0.0;
    var cash := principal;
    var k := 0;
    while k < |deltas|
      invariant 0 <= k <= |deltas|
      invariant |r| == k + 1 && r[0] == Leading(first, principal)
      invariant forall j :: 0 <= j < k ==> r[j + 1] == Held(first, deltas, prices, costs, principal, j)
      invariant amount == Sum(deltas[..k])
      invariant cash == principal - Cost(deltas[..k], costs[..k])
    {
      assert deltas[..k + 1][..k] == deltas[..k];
      assert costs[..k + 1][..k] == costs[..k];
      assert Sum(deltas[..k + 1]) == Sum(deltas[..k]) + deltas[k];
      assert Cost(deltas[..k + 1], costs[..k + 1]) == Cost(deltas[..k], costs[..k]) + deltas[k] * costs[k];
      amount := amount + deltas[k];
      cash := cash - deltas[k] * costs[k];
      assert Entry(first + k, Holding(amount, prices[k], cash)) == Held(first, deltas, prices, costs, principal, k);
      r := r + [Entry(first + k, Holding(amount, prices[k], cash))];
      k := k + 1;
    }
  }

  /**
   * Between consecutive records the amount moves by the net quantity traded
   * at the later step, and the principal by minus that quantity times its
   * unit cost; the price is the market price of that step.
   */
  lemma BookSteps(first: int, deltas: seq<real>, prices: seq<real>, costs: seq<real>, principal: real, k: int)
    requires |prices| == |deltas| && |costs| == |deltas|
    requires 0 <= k < |deltas|
    ensures var r := Book(first, deltas, prices, costs, principal);
      r[k + 1].time == r[k].time + 1 &&
      r[k + 1].hold.amount == r[k].hold.amount + deltas[k] &&
      r[k + 1].hold.principal == r[k].hold.principal - deltas[k] * costs[k] &&
      r[k + 1].hold.price == prices[k]
  {
    assert deltas[..k + 1][..k] == deltas[..k];
    assert costs[..k + 1][..k] == costs[..k];
    assert Sum(deltas[..k + 1]) == Sum(deltas[..k]) + deltas[k];
    assert Cost(deltas[..k + 1], costs[..k + 1]) == Cost(deltas[..k], costs[..k]) + deltas[k] * costs[k];
    if k == 0 {
      assert deltas[..0] == [] && costs[..0] == [];
    }
  }

  /** The amount column is the running sum of the net quantities. */
  lemma BookAmount(first: int, deltas: seq<real>, prices: seq<real>, costs: seq<real>, principal: real, k: int)
    requires |prices| == |deltas| && |costs| == |deltas|
    requires 0 <= k <= |deltas|
    ensures Book(first, deltas, prices, costs, principal)[k].hold.amount == Sum(deltas[..k])
  {
  }

  /** The principal column is the principal less the running cost of the net quantities. */
  lemma BookPrincipal(first: int, deltas: seq<real>, prices: seq<real>, costs: seq<real>, principal: real, k: int)
    requires |prices| == |deltas| && |costs| == |deltas|
    requires 0 <= k <= |deltas|
    ensures Book(first, deltas, prices, costs, principal)[k].hold.principal == principal - Cost(deltas[..k], costs[..k])
  {
  }

  /** The recorded times run without a gap from one step before the first trade. */
  lemma BookTimes(first: int, deltas: seq<real>, prices: seq<real>, costs: seq<real>, principal: real)
    requires |prices| == |deltas| && |costs| == |deltas|
    ensures forall i :: 0 <= i < |deltas| + 1 ==> Book(first, deltas, prices, costs, principal)[i].time == first - 1 + i
  {
  }

  /** The net quantity traded at each step from first on, zero where no trade happened. */
  function Deltas(tr: Trades, first: int, n: nat): (r: seq<real>)
    ensures |r| == n
    ensures forall k :: 0 <= k < n ==> r[k] == At(Amount(tr), first + k)
  {
    seq(n, k requires 0 <= k < n => At(Amount(tr), first + k))
  }

  /** Every trade time of an increasing amount series lies between its first and last time. */
  lemma Spanned(s: Series)
    requires Increasing(s) && s != []
    ensures forall p :: p in s ==> s[0].time <= p.time <= s[|s| - 1].time
  {
    forall p | p in s ensures s[0].time <= p.time <= s[|s| - 1].time {
      var i :| 0 <= i < |s| && s[i] == p;
    }
  }

  /**
   * calculate_positions: a trade of another symbol, or a trade at a time the
   * market does not cover, is an error; no trades give no records; otherwise
   * the record runs from one step before the first trade to the end of the
   * market, priced and costed at the market mid.
   */
  function CalculatePositions(tr: Trades, m: Market, principal: real): (r: Result<Positions>)
    ensures r == Err(SymbolMismatch) <==> tr.symbol != m.symbol
    ensures r == Err(TradeOutsideMarket) <==>
      tr.symbol == m.symbol && exists p :: p in Amount(tr) && !m.Covers(p.time)
    ensures r.Ok? ==> r.value.symbol == tr.symbol && r.value.currency == tr.currency
    ensures r.Ok? && tr.rows == [] ==> r.value.entries == []
    ensures r.Ok? && tr.rows != [] ==>
      var first := Amount(tr)[0].time;
      r.value.entries == Book(first, Deltas(tr, first, m.End() - first), m.mids[first - m.start..], m.mids[first - m.start..], principal)
  {
    var amount := Amount(tr);
    AmountEmpty(tr);
    if tr.symbol != m.symbol then Err(SymbolMismatch)
    else if amount == [] then Ok(Positions(tr.symbol, tr.currency, []))
    else
      var first := amount[0].time;
      EndsCover(amount, m);
      if !(m.Covers(first) && m.Covers(amount[|amount| - 1].time)) then Err(TradeOutsideMarket)
      else
        var prices := m.mids[first - m.start..];
        Ok(Positions(tr.symbol, tr.currency, Book(first, Deltas(tr, first, |prices|), prices, prices, principal)))
  }

  /** A trades table has no amount series exactly when it has no rows. */
  lemma AmountEmpty(tr: Trades)
    ensures Amount(tr) == [] <==> tr.rows == []
  {
    if Amount(tr) == [] {
      assert Times(Amount(tr)) == {};
      if tr.rows != [] { InTimes(Fills(tr.rows), 0); }
    } else {
      InTimes(Amount(tr), 0);
    }
  }

  /** The market covers every time of an increasing series exactly when it covers its first and last. */
  lemma EndsCover(s: Series, m: Market)
    requires Increasing(s) && s != []
    ensures (m.Covers(s[0].time) && m.Covers(s[|s| - 1].time)) <==> forall p :: p in s ==> m.Covers(p.time)
  {
    Spanned(s);
    assert s[0] in s && s[|s| - 1] in s;
  }

  /** Trades of the market's symbol, all inside the market, give the record from their first time to the market's end. */
  lemma CoveredPositions(tr: Trades, m: Market, principal: real, first: int)
    requires tr.symbol == m.symbol && tr.rows != []
    requires forall p :: p in Amount(tr) ==> m.Covers(p.time)
    requires Amount(tr) != [] && Amount(tr)[0].time == first
    ensures m.start <= first <= m.End()
    ensures CalculatePositions(tr, m, principal) ==
      Ok(Positions(tr.symbol, tr.currency, Book(first, Deltas(tr, first, m.End() - first), m.mids[first - m.start..], m.mids[first - m.start..], principal)))
  {
    EndsCover(Amount(tr), m);
  }

  /** A successful record of trades with rows has its first trade time inside the market. */
  lemma PositionsCover(tr: Trades, m: Market, principal: real)
    requires CalculatePositions(tr, m, principal).Ok? && tr.rows != []
    ensures Amount(tr) != [] && m.Covers(Amount(tr)[0].time)
  {
    AmountEmpty(tr);
    assert Amount(tr)[0] in Amount(tr);
  }

  /** Trades give records exactly when they have rows. */
  lemma CalculatePositionsEmpty(tr: Trades, m: Market, principal: real)
    requires CalculatePositions(tr, m, principal).Ok?
    ensures CalculatePositions(tr, m, principal).value.entries == [] <==> tr.rows == []
  {
  }

  /** From record a to record b the principal pays for the change of amount at the given unit cost. */
  predicate Financed(a: Entry, b: Entry, cost: real) {
    b.hold.principal == a.hold.principal - (b.hold.amount - a.hold.amount) * cost
  }

  /**
   * One step of a record, read off the record itself: the time advances by
   * one, the amount by the quantity of that step, and the principal pays for
   * that change of amount at the step's unit cost.
   */
  lemma BookStep(e: seq<Entry>, first: int, deltas: seq<real>, prices: seq<real>, costs: seq<real>, principal: real, i: int)
    requires |prices| == |deltas| && |costs| == |deltas|
    requires e == Book(first, deltas, prices, costs, principal)
    requires 0 <= i < |deltas|
    ensures e[i + 1].time == e[i].time + 1 && e[i + 1].time == first + i
    ensures e[i + 1].hold.amount - e[i].hold.amount == deltas[i]
    ensures e[i + 1].hold.price == prices[i]
    ensures Financed(e[i], e[i + 1], costs[i])
  {
    BookSteps(first, deltas, prices, costs, principal, i);
  }

  /**
   * Round trip: from each record to the next the amount moves by exactly the
   * net trade quantity at the later time, the price is the market mid, and
   * the principal pays for that change of amount at the market mid.
   */
  lemma PositionsTrack(tr: Trades, m: Market, principal: real, i: int)
    requires CalculatePositions(tr, m, principal).Ok?
    requires 0 <= i < |CalculatePositions(tr, m, principal).value.entries| - 1
    ensures var e := CalculatePositions(tr, m, principal).value.entries;
      e[i + 1].time == e[i].time + 1 && m.Covers(e[i + 1].time) &&
      e[i + 1].hold.amount - e[i].hold.amount == At(Amount(tr), e[i + 1].time) &&
      e[i + 1].hold.price == m.Mid(e[i + 1].time) &&
      Financed(e[i], e[i + 1], e[i + 1].hold.price)
  {
    var e := CalculatePositions(tr, m, principal).value.entries;
    assert tr.rows != [] by { CalculatePositionsEmpty(tr, m, principal); }
    PositionsCover(tr, m, principal);
    MarketBookStep(tr, m, principal, Amount(tr)[0].time, e, i);
  }

  /** One step of a record priced and costed at the market mid from a covered first time onwards. */
  lemma MarketBookStep(tr: Trades, m: Market, principal: real, first: int, e: seq<Entry>, i: int)
    requires m.Covers(first)
    requires e == Book(first, Deltas(tr, first, m.End() - first), m.mids[first - m.start..], m.mids[first - m.start..], principal)
    requires 0 <= i < |e| - 1
    ensures e[i + 1].time == e[i].time + 1 && m.Covers(e[i + 1].time)
    ensures e[i + 1].hold.amount - e[i].hold.amount == At(Amount(tr), e[i + 1].time)
    ensures e[i + 1].hold.price == m.Mid(e[i + 1].time)
    ensures Financed(e[i], e[i + 1], e[i + 1].hold.price)
  {
    var prices := m.mids[first - m.start..];
    var deltas := Deltas(tr, first, |prices|);
    BookStep(e, first, deltas, prices, prices, principal, i);
    assert prices[i] == m.Mid(first + i);
  }

  /** The leading record holds nothing and the whole principal, and every trade falls inside the record. */
  lemma PositionsLeading(tr: Trades, m: Market, principal: real)
    requires CalculatePositions(tr, m, principal).Ok?
    requires tr.rows != []
    ensures var e := CalculatePositions(tr, m, principal).value.entries;
      e != [] && e[0].hold == Holding(0.0, 0.0, principal) &&
      forall p :: p in Amount(tr) ==> e[0].time < p.time < e[0].time + |e|
  {
    Spanned(Amount(tr));
  }
}
