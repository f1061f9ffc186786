/**
 * The portfolio engine: same-symbol position records are fused by adding
 * them up time by time, and a portfolio is built from several Trades
 * containers and markets, one lot-scaled position per symbol, expressed in
 * one base currency.
 */
module Portfolios {
  import opened Common
  import opened TimeSeries
  import opened Ledger
  import opened PositionEngine

  // ---------------------------------------------------------------------
  // Symbols in lexicographic order

  /** a comes no later than b in lexicographic order. */
  predicate Precedes(a: string, b: string) {
    a == [] || (b != [] && (a[0] < b[0] || (a[0] == b[0] && Precedes(a[1..], b[1..]))))
  }

  lemma {:induction false} PrecedesTotal(a: string, b: string)
    ensures Precedes(a, b) || Precedes(b, a)
  {
    if a != [] && b != [] && a[0] == b[0] { PrecedesTotal(a[1..], b[1..]); }
  }

  lemma {:induction false} PrecedesAntisymmetric(a: string, b: string)
    requires Precedes(a, b) && Precedes(b, a)
    ensures a == b
  {
    if a != [] {
      PrecedesAntisymmetric(a[1..], b[1..]);
      assert a == [a[0]] + a[1..] && b == [b[0]] + b[1..];
    }
  }

  lemma {:induction false} PrecedesTransitive(a: string, b: string, c: string)
    requires Precedes(a, b) && Precedes(b, c)
    ensures Precedes(a, c)
  {
    if a != [] && a[0] == b[0] && b[0] == c[0] { PrecedesTransitive(a[1..], b[1..], c[1..]); }
  }

  /** Strictly increasing: sorted and free of repeats. */
  predicate StrictlySorted(s: seq<string>) {
    forall i, j :: 0 <= i < j < |s| ==> Precedes(s[i], s[j]) && s[i] != s[j]
  }

  /** Adds a name to a strictly sorted list unless it is there already. */
  function AddName(s: seq<string>, x: string): seq<string> {
    if s == [] then [x]
    else if x == s[0] then s
    else if Precedes(x, s[0]) then [x] + s
    else [s[0]] + AddName(s[1..], x)
  }

  lemma {:induction false} AddNameSpec(s: seq<string>, x: string)
    requires StrictlySorted(s)
    ensures StrictlySorted(AddName(s, x))
    ensures forall y :: y in AddName(s, x) <==> y in s || y == x
  {
    if s != [] && x != s[0] {
      if Precedes(x, s[0]) {
        assert StrictlySorted([x] + s) by { FrontBelow(x, s); SortedCons(x, s); }
      } else {
        PrecedesTotal(x, s[0]);
        var rest := AddName(s[1..], x);
        assert StrictlySorted(s[1..]);
        AddNameSpec(s[1..], x);
        assert s == [s[0]] + s[1..];
        forall j | 0 <= j < |rest| ensures Precedes(s[0], rest[j]) && s[0] != rest[j] {
          assert rest[j] in rest;
        }
        SortedCons(s[0], rest);
      }
    }
  }

  /** A name before every name of a strictly sorted list can go in front of it. */
  lemma SortedCons(x: string, s: seq<string>)
    requires StrictlySorted(s)
    requires forall j :: 0 <= j < |s| ==> Precedes(x, s[j]) && x != s[j]
    ensures StrictlySorted([x] + s)
  {
    var t := [x] + s;
    forall i, j | 0 <= i < j < |t| ensures Precedes(t[i], t[j]) && t[i] != t[j] {
      assert t[j] == s[j - 1];
      if i > 0 { assert t[i] == s[i - 1]; }
    }
  }

  /** A name strictly before the first of a strictly sorted list is before all of them. */
  lemma FrontBelow(x: string, s: seq<string>)
    requires StrictlySorted(s) && s != []
    requires Precedes(x, s[0]) && x != s[0]
    ensures forall j :: 0 <= j < |s| ==> Precedes(x, s[j]) && x != s[j]
  {
    forall j | 0 < j < |s| ensures Precedes(x, s[j]) && x != s[j] {
      PrecedesTransitive(x, s[0], s[j]);
      if x == s[j] { PrecedesAntisymmetric(x, s[0]); }
    }
  }

  /** The distinct names of a list, in lexicographic order. */
  function SortedNames(names: seq<string>): (r: seq<string>)
    ensures StrictlySorted(r)
    ensures forall y :: y in r <==> y in names
  {
    if names == [] then []
    else
      var init := SortedNames(names[..|names| - 1]);
      AddNameSpec(init, names[|names| - 1]);
      assert names == names[..|names| - 1] + [names[|names| - 1]];
      AddName(init, names[|names| - 1])
  }

  /** The symbols traded, each once, in lexicographic order. */
  function TradeSymbols(trades: seq<Trades>): seq<string> {
    SortedNames(seq(|trades|, i requires 0 <= i < |trades| => trades[i].symbol))
  }

  lemma TradeSymbolsSpec(trades: seq<Trades>)
    ensures StrictlySorted(TradeSymbols(trades))
    ensures forall s :: s in TradeSymbols(trades) <==> exists i :: 0 <= i < |trades| && trades[i].symbol == s
  {
    var names := seq(|trades|, i requires 0 <= i < |trades| => trades[i].symbol);
    forall s ensures s in names <==> exists i :: 0 <= i < |trades| && trades[i].symbol == s {
      if s in names { var i :| 0 <= i < |names| && names[i] == s; }
      if exists i :: 0 <= i < |trades| && trades[i].symbol == s {
        var i :| 0 <= i < |trades| && trades[i].symbol == s;
        assert names[i] == s;
      }
    }
  }

  // ---------------------------------------------------------------------
  // _fusion_positions

  const Nothing := Holding(0.0, 0.0, 0.0)

  /** Column-by-column sum of two records. */
  function Plus(a: Holding, b: Holding): Holding {
    Holding(a.amount + b.amount, a.price + b.price, a.principal + b.principal)
  }

  /** The sum of the records at time t, nothing where there is none. */
  function HeldAt(e: seq<Entry>, t: int): Holding {
    if e == [] then Nothing else Plus(if e[0].time == t then e[0].hold else Nothing, HeldAt(e[1..], t))
  }

  function EntryTimes(e: seq<Entry>): set<int> {
    if e == [] then {} else {e[0].time} + EntryTimes(e[1..])
  }

  /** Every timestamp occurs at most once and times strictly increase. */
  predicate Chronological(e: seq<Entry>) {
    forall i, j :: 0 <= i < j < |e| ==> e[i].time < e[j].time
  }

  /** Union of the timestamps of two records, adding the records that share a timestamp. */
  function MergeAdd(a: seq<Entry>, b: seq<Entry>): seq<Entry>
    decreases |a| + |b|
  {
    if a == [] then b
    else if b == [] then a
    else if a[0].time < b[0].time then [a[0]] + MergeAdd(a[1..], b)
    else if b[0].time < a[0].time then [b[0]] + MergeAdd(a, b[1..])
    else [Entry(a[0].time, Plus(a[0].hold, b[0].hold))] + MergeAdd(a[1..], b[1..])
  }

  lemma HeldAtCons(x: Entry, e: seq<Entry>, t: int)
    ensures HeldAt([x] + e, t) == Plus(if x.time == t then x.hold else Nothing, HeldAt(e, t))
  {
    assert ([x] + e)[1..] == e;
  }

  lemma EntryTimesCons(x: Entry, e: seq<Entry>)
    ensures EntryTimes([x] + e) == {x.time} + EntryTimes(e)
  {
    assert ([x] + e)[1..] == e;
  }

  /** Regrouping three records in a sum does not change it. */
  lemma PlusRegroup(p: Holding, q: Holding, r: Holding)
    ensures Plus(p, Plus(q, r)) == Plus(Plus(p, q), r)
  {}

  /** A sum of two sums may pair its four records the other way round. */
  lemma PlusSwap(p: Holding, q: Holding, r: Holding, s: Holding)
    ensures Plus(Plus(p, q), Plus(r, s)) == Plus(Plus(p, r), Plus(q, s))
  {}

  /** Fusing two records adds them up at every timestamp. */
  lemma {:induction false} MergeAddAt(a: seq<Entry>, b: seq<Entry>, t: int)
    ensures HeldAt(MergeAdd(a, b), t) == Plus(HeldAt(a, t), HeldAt(b, t))
    decreases |a| + |b|
  {
    if a == [] {
    } else if b == [] {
    } else {
      var ca := if a[0].time == t then a[0].hold else Nothing;
      var cb := if b[0].time == t then b[0].hold else Nothing;
      assert HeldAt(a, t) == Plus(ca, HeldAt(a[1..], t));
      assert HeldAt(b, t) == Plus(cb, HeldAt(b[1..], t));
      if a[0].time < b[0].time {
        var m := MergeAdd(a[1..], b);
        assert MergeAdd(a, b) == [a[0]] + m;
        MergeAddAt(a[1..], b, t);
        HeldAtCons(a[0], m, t);
        PlusRegroup(ca, HeldAt(a[1..], t), HeldAt(b, t));
      } else if b[0].time < a[0].time {
        var m := MergeAdd(a, b[1..]);
        assert MergeAdd(a, b) == [b[0]] + m;
        MergeAddAt(a, b[1..], t);
        HeldAtCons(b[0], m, t);
        PlusRegroup(HeldAt(a, t), cb, HeldAt(b[1..], t));
        PlusSwap(Nothing, HeldAt(a, t), cb, HeldAt(b[1..], t));
      } else {
        var x := Entry(a[0].time, Plus(a[0].hold, b[0].hold));
        var m := MergeAdd(a[1..], b[1..]);
        assert MergeAdd(a, b) == [x] + m;
        MergeAddAt(a[1..], b[1..], t);
        HeldAtCons(x, m, t);
        assert (if x.time == t then x.hold else Nothing) == Plus(ca, cb);
        PlusSwap(ca, cb, HeldAt(a[1..], t), HeldAt(b[1..], t));
      }
    }
  }

  /** A fused record has a row at exactly the timestamps of either input. */
  lemma {:induction false} MergeAddTimes(a: seq<Entry>, b: seq<Entry>)
    ensures EntryTimes(MergeAdd(a, b)) == EntryTimes(a) + EntryTimes(b)
    decreases |a| + |b|
  {
    if a == [] {
    } else if b == [] {
    } else if a[0].time < b[0].time {
      MergeAddTimes(a[1..], b);
      EntryTimesCons(a[0], MergeAdd(a[1..], b));
    } else if b[0].time < a[0].time {
      MergeAddTimes(a, b[1..]);
      EntryTimesCons(b[0], MergeAdd(a, b[1..]));
    } else {
      MergeAddTimes(a[1..], b[1..]);
      EntryTimesCons(Entry(a[0].time, Plus(a[0].hold, b[0].hold)), MergeAdd(a[1..], b[1..]));
    }
  }

  lemma {:induction false} TimesAbove(e: seq<Entry>, lo: int)
    requires Chronological(e) && e != [] && e[0].time > lo
    ensures forall t :: t in EntryTimes(e) ==> t > lo
  {
    if |e| > 1 { TimesAbove(e[1..], lo); } else { assert e[1..] == []; }
  }

  lemma {:induction false} InEntryTimes(e: seq<Entry>, i: int)
    requires 0 <= i < |e|
    ensures e[i].time in EntryTimes(e)
  {
    if i > 0 { InEntryTimes(e[1..], i - 1); }
  }

  lemma ConsChronological(x: Entry, e: seq<Entry>)
    requires Chronological(e)
    requires forall t :: t in EntryTimes(e) ==> t > x.time
    ensures Chronological([x] + e)
  {
    forall j | 0 < j < |e| + 1 ensures x.time < ([x] + e)[j].time {
      InEntryTimes(e, j - 1);
    }
  }

  /** Fusing two chronological records gives a chronological record. */
  lemma {:induction false} MergeAddChronological(a: seq<Entry>, b: seq<Entry>)
    requires Chronological(a) && Chronological(b)
    ensures Chronological(MergeAdd(a, b))
    decreases |a| + |b|
  {
    if a != [] && b != [] {
      var rest := if a[0].time <= b[0].time then a[1..] else a;
      var rest2 := if b[0].time <= a[0].time then b[1..] else b;
      var lo := if a[0].time <= b[0].time then a[0].time else b[0].time;
      MergeAddChronological(rest, rest2);
      MergeAddTimes(rest, rest2);
      if rest != [] { TimesAbove(rest, lo); }
      if rest2 != [] { TimesAbove(rest2, lo); }
      if a[0].time < b[0].time {
        ConsChronological(a[0], MergeAdd(rest, rest2));
      } else if b[0].time < a[0].time {
        ConsChronological(b[0], MergeAdd(rest, rest2));
      } else {
        ConsChronological(Entry(a[0].time, Plus(a[0].hold, b[0].hold)), MergeAdd(rest, rest2));
      }
    }
  }

  /** Reading a chronological record at one of its times gives that row; elsewhere nothing. */
  lemma {:induction false} HeldAtRow(e: seq<Entry>, t: int)
    requires Chronological(e)
    ensures t !in EntryTimes(e) ==> HeldAt(e, t) == Nothing
    ensures forall i :: 0 <= i < |e| && e[i].time == t ==> HeldAt(e, t) == e[i].hold
  {
    if e != [] {
      HeldAtRow(e[1..], t);
      if e[0].time == t && |e| > 1 {
        TimesAbove(e[1..], t);
      }
      forall i | 0 < i < |e| && e[i].time == t ensures HeldAt(e, t) == e[i].hold {
        assert e[1..][i - 1] == e[i];
      }
    }
  }

  /** All position records of a group of positions fused together. */
  function Fuse(group: seq<Positions>): seq<Entry> {
    if group == [] then [] else MergeAdd(group[0].entries, Fuse(group[1..]))
  }

  /** The sum over a group of its records at time t. */
  function HeldSum(group: seq<Positions>, t: int): Holding {
    if group == [] then Nothing else Plus(HeldAt(group[0].entries, t), HeldSum(group[1..], t))
  }

  lemma {:induction false} FuseAt(group: seq<Positions>, t: int)
    ensures HeldAt(Fuse(group), t) == HeldSum(group, t)
  {
    if group != [] {
      FuseAt(group[1..], t);
      MergeAddAt(group[0].entries, Fuse(group[1..]), t);
    }
  }

  /** The timestamps of a fused group are the union of its members' timestamps. */
  function GroupTimes(group: seq<Positions>): set<int> {
    if group == [] then {} else EntryTimes(group[0].entries) + GroupTimes(group[1..])
  }

  lemma {:induction false} FuseTimes(group: seq<Positions>)
    ensures EntryTimes(Fuse(group)) == GroupTimes(group)
  {
    if group != [] {
      FuseTimes(group[1..]);
      MergeAddTimes(group[0].entries, Fuse(group[1..]));
    }
  }

  lemma {:induction false} FuseChronological(group: seq<Positions>)
    requires forall k :: 0 <= k < |group| ==> Chronological(group[k].entries)
    ensures Chronological(Fuse(group))
  {
    if group != [] {
      assert forall k :: 0 <= k < |group| - 1 ==> group[1..][k] == group[k + 1];
      FuseChronological(group[1..]);
      MergeAddChronological(group[0].entries, Fuse(group[1..]));
    }
  }

  /** The members of a list with one symbol, in list order. */
  function SameSymbol(list: seq<Positions>, s: string): (r: seq<Positions>)
    ensures forall p :: p in r <==> p in list && p.symbol == s
  {
    if list == [] then []
    else
      assert list == [list[0]] + list[1..];
      (if list[0].symbol == s then [list[0]] else []) + SameSymbol(list[1..], s)
  }

  function PositionSymbols(list: seq<Positions>): seq<string> {
    SortedNames(seq(|list|, i requires 0 <= i < |list| => list[i].symbol))
  }

  /**
   * _fusion_positions: one record per symbol, in lexicographic order of the
   * symbols, holding the sum of that symbol's members at each of their
   * timestamps.
   */
  function FusionPositions(list: seq<Positions>): (r: seq<Positions>)
    ensures |r| == |PositionSymbols(list)|
    ensures forall k :: 0 <= k < |r| ==> r[k].symbol == PositionSymbols(list)[k]
  {
    var syms := PositionSymbols(list);
    seq(|syms|, k requires 0 <= k < |syms| =>
      var group := SameSymbol(list, syms[k]);
      var currency := if group == [] then JPY else group[0].currency;
      Positions(syms[k], currency, Fuse(group)))
  }

  /**
   * A fused record has a row at every timestamp of any member of its symbol
   * and no other, rows in time order, each the sum of the members' rows at
   * that time.
   */
  lemma FusionPositionsSpec(list: seq<Positions>, k: int, t: int)
    requires forall i :: 0 <= i < |list| ==> Chronological(list[i].entries)
    requires 0 <= k < |FusionPositions(list)|
    ensures var f := FusionPositions(list)[k];
      var group := SameSymbol(list, f.symbol);
      Chronological(f.entries) &&
      EntryTimes(f.entries) == GroupTimes(group) &&
      HeldAt(f.entries, t) == HeldSum(group, t)
  {
    var group := SameSymbol(list, PositionSymbols(list)[k]);
    forall i | 0 <= i < |group| ensures Chronological(group[i].entries) {
      assert group[i] in group;
      var j :| 0 <= j < |list| && list[j] == group[i];
    }
    FuseChronological(group);
    FuseTimes(group);
    FuseAt(group, t);
  }

  // ---------------------------------------------------------------------
  // Conversion into the base currency and lot scaling

  /** The first market of the given symbol, if any. */
  function FindMarket(markets: seq<Market>, s: string): (r: Option<Market>)
    ensures r.Some? ==> r.value in markets && r.value.symbol == s
    ensures r.None? <==> forall m :: m in markets ==> m.symbol != s
  {
    if markets == [] then None
    else if markets[0].symbol == s then Some(markets[0])
    else
      assert markets == [markets[0]] + markets[1..];
      FindMarket(markets[1..], s)
  }

  /** The price column, the unit costs and the starting principal, in the base currency. */
  datatype Conversion = Conversion(prices: seq<real>, costs: seq<real>, principal: real)

  /** The symbol's first leg is the base currency, as USD is for USDJPY. */
  predicate BaseLeg(symbol: string, base: Currency) {
    |symbol| >= 3 && symbol[..3] == base.Code()
  }

  /** The market quoting currency a in currency b, as USDJPY quotes USD in JPY. */
  function CrossSymbol(a: Currency, b: Currency): string {
    a.Code() + b.Code()
  }

  /** The cross market has a rate at each of the n times from lo on. */
  predicate CrossCovers(x: Market, lo: int, n: nat) {
    x.start <= lo && lo + n <= x.End()
  }

  /** The n rates of the cross market from time lo on. */
  function RatesFrom(x: Market, lo: int, n: nat): (r: seq<real>)
    requires CrossCovers(x, lo, n)
    ensures |r| == n
    ensures n > 0 ==> r[0] == x.Mid(lo)
  {
    x.mids[lo - x.start .. lo - x.start + n]
  }

  /** Prices divided by the rates at the same times. */
  function Divided(mids: seq<real>, rates: seq<real>): (r: seq<real>)
    requires |rates| == |mids| && 0.0 !in rates
    ensures |r| == |mids|
    ensures forall k :: 0 <= k < |mids| ==> r[k] * rates[k] == mids[k]
  {
    seq(|mids|, k requires 0 <= k < |mids| => assert rates[k] in rates; mids[k] / rates[k])
  }

  /** Prices multiplied by the rates at the same times. */
  function Multiplied(mids: seq<real>, rates: seq<real>): (r: seq<real>)
    requires |rates| == |mids|
    ensures |r| == |mids|
    ensures forall k :: 0 <= k < |mids| ==> r[k] == mids[k] * rates[k]
  {
    seq(|mids|, k requires 0 <= k < |mids| => mids[k] * rates[k])
  }

  /** The reciprocals of non-zero rates. */
  function Reciprocals(rates: seq<real>): (r: seq<real>)
    requires 0.0 !in rates
    ensures |r| == |rates|
    ensures forall k :: 0 <= k < |rates| ==> rates[k] * r[k] == 1.0
  {
    seq(|rates|, k requires 0 <= k < |rates| => assert rates[k] in rates; 1.0 / rates[k])
  }

  function Ones(n: nat): (r: seq<real>)
    ensures |r| == n && forall k :: 0 <= k < n ==> r[k] == 1.0
  {
    seq(n, k => 1.0)
  }

  /**
   * Conversion through the cross market x of a record priced at `mids` from
   * time first on, with its principal given at time first - 1: prices and
   * costs are divided by the rate at their time and the principal by the
   * rate at first - 1. Times the market does not cover and zero rates are
   * errors.
   */
  function CrossConvert(x: Market, first: int, mids: seq<real>, principal: real): (r: Result<Conversion>)
    ensures r == Err(MissingCrossRate) <==> !CrossCovers(x, first - 1, |mids| + 1)
    ensures r == Err(ZeroCrossRate) <==> CrossCovers(x, first - 1, |mids| + 1) && 0.0 in RatesFrom(x, first - 1, |mids| + 1)
    ensures r.Ok? ==>
      var rates := RatesFrom(x, first - 1, |mids| + 1);
      |r.value.prices| == |mids| && r.value.costs == r.value.prices &&
      r.value.principal * rates[0] == principal &&
      forall k :: 0 <= k < |mids| ==> r.value.prices[k] * rates[k + 1] == mids[k]
  {
    if !CrossCovers(x, first - 1, |mids| + 1) then Err(MissingCrossRate)
    else
      var rates := RatesFrom(x, first - 1, |mids| + 1);
      if 0.0 in rates then Err(ZeroCrossRate)
      else
        RatesTail(rates);
        var prices := Divided(mids, rates[1..]);
        DivMul(principal, rates[0]);
        Ok(Conversion(prices, prices, principal / rates[0]))
  }

  /**
   * Conversion through a market y quoting the record's currency in the base
   * currency: prices and costs are multiplied by the rate at their time and
   * the principal by the rate at first - 1. Times the market does not cover
   * are an error.
   */
  function CrossMultiply(y: Market, first: int, mids: seq<real>, principal: real): (r: Result<Conversion>)
    ensures r.Err? <==> !CrossCovers(y, first - 1, |mids| + 1)
    ensures r.Err? ==> r.error == MissingCrossRate
    ensures r.Ok? ==>
      var rates := RatesFrom(y, first - 1, |mids| + 1);
      |r.value.prices| == |mids| && r.value.costs == r.value.prices &&
      r.value.principal == principal * rates[0] &&
      forall k :: 0 <= k < |mids| ==> r.value.prices[k] == mids[k] * rates[k + 1]
  {
    if !CrossCovers(y, first - 1, |mids| + 1) then Err(MissingCrossRate)
    else
      var rates := RatesFrom(y, first - 1, |mids| + 1);
      var prices := Multiplied(mids, rates[1..]);
      Ok(Conversion(prices, prices, principal * rates[0]))
  }

  /**
   * The two directions agree: dividing by a market's rates converts exactly
   * as multiplying by the rates of its reciprocal market does.
   */
  lemma CrossReciprocal(x: Market, y: Market, first: int, mids: seq<real>, principal: real)
    requires x.start == y.start && |x.mids| == |y.mids|
    requires forall k :: 0 <= k < |x.mids| ==> x.mids[k] * y.mids[k] == 1.0
    ensures CrossConvert(x, first, mids, principal) == CrossMultiply(y, first, mids, principal)
  {
    if CrossCovers(x, first - 1, |mids| + 1) {
      var rx := RatesFrom(x, first - 1, |mids| + 1);
      var ry := RatesFrom(y, first - 1, |mids| + 1);
      ReciprocalRates(x, y, first - 1, |mids| + 1);
      var c := CrossConvert(x, first, mids, principal);
      var d := CrossMultiply(y, first, mids, principal);
      assert DividingFactors(x, first, |mids|) == Some(ry);
      assert c.Ok? && ScaledBy(c.value, mids, principal, ry) && c.value.costs == c.value.prices by {
        DividingConverts(x, first, mids, principal);
      }
      assert d.Ok? && ScaledBy(d.value, mids, principal, ry) && d.value.costs == d.value.prices by {
        assert MultiplyingFactors(y, first, |mids|) == Some(ry);
        MultiplyingConverts(y, first, mids, principal);
      }
      SameScale(c.value, d.value, mids, principal, ry);
    }
  }

  /** Two conversions with equal costs that scale the same prices by the same factors are equal. */
  lemma SameScale(c: Conversion, d: Conversion, mids: seq<real>, principal: real, f: seq<real>)
    requires ScaledBy(c, mids, principal, f) && ScaledBy(d, mids, principal, f)
    requires c.costs == c.prices && d.costs == d.prices
    ensures c == d
  {
    assert c.prices == d.prices;
  }

  /** A rate sequence whose products with rx are all one is the reciprocal of rx. */
  lemma ReciprocalsOf(rx: seq<real>, ry: seq<real>)
    requires |rx| == |ry| && 0.0 !in rx
    requires forall k :: 0 <= k < |rx| ==> rx[k] * ry[k] == 1.0
    ensures Reciprocals(rx) == ry
  {
    var inv := Reciprocals(rx);
    forall k | 0 <= k < |rx| ensures inv[k] == ry[k] {
      Reciprocal(inv[k], 1.0, rx[k], ry[k]);
    }
  }

  /** Non-zero rates: the first is non-zero and so are the later ones, index for index. */
  lemma RatesTail(rates: seq<real>)
    requires |rates| > 0 && 0.0 !in rates
    ensures rates[0] != 0.0 && 0.0 !in rates[1..]
    ensures forall k :: 0 <= k < |rates| - 1 ==> rates[1..][k] == rates[k + 1]
  {
    assert rates[0] in rates;
    assert forall y :: y in rates[1..] ==> y in rates;
  }

  /** The rates of reciprocal markets over the same times are reciprocal, so none of them is zero. */
  lemma ReciprocalRates(x: Market, y: Market, lo: int, n: nat)
    requires x.start == y.start && |x.mids| == |y.mids| && CrossCovers(x, lo, n)
    requires forall k :: 0 <= k < |x.mids| ==> x.mids[k] * y.mids[k] == 1.0
    ensures CrossCovers(y, lo, n)
    ensures 0.0 !in RatesFrom(x, lo, n)
    ensures Reciprocals(RatesFrom(x, lo, n)) == RatesFrom(y, lo, n)
  {
    var rx := RatesFrom(x, lo, n);
    var ry := RatesFrom(y, lo, n);
    forall k | 0 <= k < n ensures rx[k] * ry[k] == 1.0 && rx[k] != 0.0 {
      assert rx[k] == x.mids[lo - x.start + k] && ry[k] == y.mids[lo - x.start + k];
    }
    ReciprocalsOf(rx, ry);
  }

  /**
   * Conversion of a position quoted in `quote` into the base currency:
   * nothing changes for the base currency itself; a symbol whose first leg
   * is the base currency keeps its price and costs one unit per unit bought;
   * any other is divided by the market quoting the base currency in the
   * quote currency or, when there is none, multiplied by the market quoting
   * the quote currency in the base currency; with neither it is an error.
   */
  function Convert(symbol: string, quote: Currency, base: Currency, markets: seq<Market>,
                   first: int, mids: seq<real>, principal: real): (r: Result<Conversion>)
    ensures r.Ok? ==> |r.value.prices| == |mids| && |r.value.costs| == |mids|
    ensures quote == base ==> r == Ok(Conversion(mids, mids, principal))
    ensures quote != base && BaseLeg(symbol, base) ==> r == Ok(Conversion(mids, Ones(|mids|), principal))
    ensures quote != base && !BaseLeg(symbol, base) && FindMarket(markets, CrossSymbol(base, quote)).Some? ==>
      r == CrossConvert(FindMarket(markets, CrossSymbol(base, quote)).value, first, mids, principal)
    ensures (quote != base && !BaseLeg(symbol, base) && FindMarket(markets, CrossSymbol(base, quote)).None? &&
             FindMarket(markets, CrossSymbol(quote, base)).Some?) ==>
      r == CrossMultiply(FindMarket(markets, CrossSymbol(quote, base)).value, first, mids, principal)
    ensures (quote != base && !BaseLeg(symbol, base) && FindMarket(markets, CrossSymbol(base, quote)).None? &&
             FindMarket(markets, CrossSymbol(quote, base)).None?) ==>
      r == Err(MissingCrossRate)
  {
    if quote == base then Ok(Conversion(mids, mids, principal))
    else if BaseLeg(symbol, base) then Ok(Conversion(mids, Ones(|mids|), principal))
    else
      match FindMarket(markets, CrossSymbol(base, quote))
      case Some(x) => CrossConvert(x, first, mids, principal)
      case None =>
        match FindMarket(markets, CrossSymbol(quote, base))
        case Some(y) => CrossMultiply(y, first, mids, principal)
        case None => Err(MissingCrossRate)
  }

  /**
   * The value in the base currency of one unit of the quote currency at each
   * of the n + 1 times from first - 1 on: 1 when nothing needs converting
   * (the base currency itself, or a base-leg symbol, whose price stays
   * quoted); the reciprocal of the `BASE+QUOTE` market's mid; or, with no
   * such market, the mid of the `QUOTE+BASE` market. Unknown when neither
   * market exists, when the one used does not cover those times, or when a
   * mid to divide by is zero.
   */
  function ConversionFactors(symbol: string, quote: Currency, base: Currency, markets: seq<Market>,
                             first: int, n: nat): (r: Option<seq<real>>)
    ensures r.Some? ==> |r.value| == n + 1
  {
    if quote == base || BaseLeg(symbol, base) then Some(Ones(n + 1))
    else
      match FindMarket(markets, CrossSymbol(base, quote))
      case Some(x) => DividingFactors(x, first, n)
      case None =>
        match FindMarket(markets, CrossSymbol(quote, base))
        case Some(y) => MultiplyingFactors(y, first, n)
        case None => None
  }

  /** The reciprocals of a `BASE+QUOTE` market's n + 1 mids from first - 1 on, when it covers them and none is zero. */
  function DividingFactors(x: Market, first: int, n: nat): (r: Option<seq<real>>)
    ensures r.Some? ==> |r.value| == n + 1
  {
    if !CrossCovers(x, first - 1, n + 1) then None
    else
      var rates := RatesFrom(x, first - 1, n + 1);
      if 0.0 in rates then None else Some(Reciprocals(rates))
  }

  /** A `QUOTE+BASE` market's n + 1 mids from first - 1 on, when it covers them. */
  function MultiplyingFactors(y: Market, first: int, n: nat): (r: Option<seq<real>>)
    ensures r.Some? ==> |r.value| == n + 1
  {
    if CrossCovers(y, first - 1, n + 1) then Some(RatesFrom(y, first - 1, n + 1)) else None
  }

  /**
   * Conversion c multiplies the prices `mids` and the principal by the
   * factors f: the principal by the one at first - 1, each price by the one
   * at its own time.
   */
  predicate ScaledBy(c: Conversion, mids: seq<real>, principal: real, f: seq<real>) {
    |f| == |mids| + 1 && |c.prices| == |mids| &&
    c.principal == principal * f[0] &&
    forall k :: 0 <= k < |mids| ==> c.prices[k] == mids[k] * f[k + 1]
  }

  /** Dividing by a market's mids is multiplying by their reciprocals, and exists exactly when those do. */
  lemma DividingConverts(x: Market, first: int, mids: seq<real>, principal: real)
    ensures var c := CrossConvert(x, first, mids, principal);
      var f := DividingFactors(x, first, |mids|);
      (c.Ok? <==> f.Some?) && (c.Ok? ==> ScaledBy(c.value, mids, principal, f.value))
  {
    var c := CrossConvert(x, first, mids, principal);
    if c.Ok? {
      var rates := RatesFrom(x, first - 1, |mids| + 1);
      assert DividingFactors(x, first, |mids|) == Some(Reciprocals(rates));
      InverseScale(c.value, mids, principal, rates);
    }
  }

  /** A conversion that gives back the mids and the principal when multiplied by the rates is scaled by their reciprocals. */
  lemma InverseScale(c: Conversion, mids: seq<real>, principal: real, rates: seq<real>)
    requires |rates| == |mids| + 1 && |c.prices| == |mids| && 0.0 !in rates
    requires c.principal * rates[0] == principal
    requires forall k :: 0 <= k < |mids| ==> c.prices[k] * rates[k + 1] == mids[k]
    ensures ScaledBy(c, mids, principal, Reciprocals(rates))
  {
    var inv := Reciprocals(rates);
    Reciprocal(c.principal, principal, rates[0], inv[0]);
    forall k | 0 <= k < |mids| ensures c.prices[k] == mids[k] * inv[k + 1] {
      assert c.prices[k] * rates[k + 1] == mids[k] && rates[k + 1] * inv[k + 1] == 1.0;
      Reciprocal(c.prices[k], mids[k], rates[k + 1], inv[k + 1]);
    }
  }

  /** Multiplying by a market's mids exists exactly when the market covers the record. */
  lemma MultiplyingConverts(y: Market, first: int, mids: seq<real>, principal: real)
    ensures var c := CrossMultiply(y, first, mids, principal);
      var f := MultiplyingFactors(y, first, |mids|);
      (c.Ok? <==> f.Some?) && (c.Ok? ==> ScaledBy(c.value, mids, principal, f.value))
  {
  }

  /** Leaving the prices as they are is multiplying by ones. */
  lemma UnitConverts(c: Conversion, mids: seq<real>, principal: real)
    requires c.prices == mids && c.principal == principal
    ensures ScaledBy(c, mids, principal, Ones(|mids| + 1))
  {
    var ones := Ones(|mids| + 1);
    forall k | 0 <= k < |mids| ensures c.prices[k] == mids[k] * ones[k + 1] {
      assert ones[k + 1] == 1.0;
    }
  }

  /**
   * A conversion exists exactly when every factor is known; it then
   * multiplies every price and the principal by the factor at their time,
   * and each unit costs its converted price, or one unit of the base
   * currency for a base-leg symbol.
   */
  lemma ConvertRates(symbol: string, quote: Currency, base: Currency, markets: seq<Market>,
                     first: int, mids: seq<real>, principal: real)
    ensures var c := Convert(symbol, quote, base, markets, first, mids, principal);
      var f := ConversionFactors(symbol, quote, base, markets, first, |mids|);
      (c.Ok? <==> f.Some?) &&
      (c.Ok? ==>
        |c.value.costs| == |mids| && ScaledBy(c.value, mids, principal, f.value) &&
        forall k :: 0 <= k < |mids| ==>
          c.value.costs[k] == if quote != base && BaseLeg(symbol, base) then 1.0 else c.value.prices[k])
  {
    var c := Convert(symbol, quote, base, markets, first, mids, principal);
    if quote == base || BaseLeg(symbol, base) {
      UnitConverts(c.value, mids, principal);
    } else {
      match FindMarket(markets, CrossSymbol(base, quote))
      case Some(x) => DividingConverts(x, first, mids, principal);
      case None =>
        match FindMarket(markets, CrossSymbol(quote, base))
        case Some(y) => MultiplyingConverts(y, first, mids, principal);
        case None =>
    }
  }

  /**
   * p is the configured principal in the base currency at time t: the
   * principal itself when nothing needs converting, the principal divided by
   * the `BASE+QUOTE` rate at t, or else multiplied by the `QUOTE+BASE` rate
   * at t.
   */
  predicate LeadingConverted(p: real, t: int, principal: real, symbol: string, quote: Currency, base: Currency, markets: seq<Market>) {
    (quote == base || BaseLeg(symbol, base) ==> p == principal) &&
    (quote != base && !BaseLeg(symbol, base) && FindMarket(markets, CrossSymbol(base, quote)).Some? ==>
       var x := FindMarket(markets, CrossSymbol(base, quote)).value;
       x.Covers(t) && p * x.Mid(t) == principal) &&
    (quote != base && !BaseLeg(symbol, base) && FindMarket(markets, CrossSymbol(base, quote)).None? ==>
       FindMarket(markets, CrossSymbol(quote, base)).Some? &&
       var y := FindMarket(markets, CrossSymbol(quote, base)).value;
       y.Covers(t) && p == principal * y.Mid(t))
  }

  /** The converted principal is the configured one converted at first - 1. */
  lemma ConvertLeading(symbol: string, quote: Currency, base: Currency, markets: seq<Market>,
                       first: int, mids: seq<real>, principal: real)
    requires Convert(symbol, quote, base, markets, first, mids, principal).Ok?
    ensures LeadingConverted(Convert(symbol, quote, base, markets, first, mids, principal).value.principal,
                             first - 1, principal, symbol, quote, base, markets)
  {
    var c := Convert(symbol, quote, base, markets, first, mids, principal);
    if quote != base && !BaseLeg(symbol, base) {
      match FindMarket(markets, CrossSymbol(base, quote))
      case Some(x) =>
        assert c == CrossConvert(x, first, mids, principal);
      case None =>
        match FindMarket(markets, CrossSymbol(quote, base))
        case Some(y) => assert c == CrossMultiply(y, first, mids, principal);
        case None =>
    }
  }

  /** Unit costs of a conversion: one unit for a base-leg symbol, the converted price otherwise. */
  lemma ConvertCosts(symbol: string, quote: Currency, base: Currency, markets: seq<Market>,
                     first: int, mids: seq<real>, principal: real, i: int)
    requires Convert(symbol, quote, base, markets, first, mids, principal).Ok?
    requires 0 <= i < |mids|
    ensures var c := Convert(symbol, quote, base, markets, first, mids, principal).value;
      c.costs[i] == (if quote != base && BaseLeg(symbol, base) then 1.0 else c.prices[i]) &&
      (quote == base || BaseLeg(symbol, base) ==> c.prices[i] == mids[i])
  {
  }

  /** Each net trade quantity multiplied by the lot size. */
  function Scale(d: seq<real>, lot: real): (r: seq<real>)
    ensures |r| == |d|
  {
    if d == [] then [] else Scale(d[..|d| - 1], lot) + [lot * d[|d| - 1]]
  }

  lemma {:induction false} ScaleAt(d: seq<real>, lot: real, k: int)
    requires 0 <= k < |d|
    ensures Scale(d, lot)[k] == lot * d[k]
  {
    if k < |d| - 1 {
      ScaleAt(d[..|d| - 1], lot, k);
    }
  }

  lemma {:induction false} SumScale(d: seq<real>, lot: real)
    ensures Sum(Scale(d, lot)) == lot * Sum(d)
  {
    if d != [] {
      SumScale(d[..|d| - 1], lot);
      var s := Scale(d, lot);
      assert s[..|s| - 1] == Scale(d[..|d| - 1], lot);
    }
  }

  lemma {:induction false} ScalePrefix(d: seq<real>, lot: real, k: int)
    requires 0 <= k <= |d|
    ensures Scale(d, lot)[..k] == Scale(d[..k], lot)
    decreases |d|
  {
    if k < |d| {
      var init := d[..|d| - 1];
      ScalePrefix(init, lot, k);
      assert Scale(d, lot)[..|d| - 1] == Scale(init, lot);
      assert init[..k] == d[..k];
      assert Scale(d, lot)[..k] == Scale(d, lot)[..|d| - 1][..k];
    } else {
      assert d[..k] == d;
    }
  }

  lemma ScaledAmount(first: int, d: seq<real>, lot: real, p: seq<real>, c: seq<real>, s: real, k: int)
    requires |p| == |d| && |c| == |d|
    requires 0 <= k <= |d|
    ensures Book(first, Scale(d, lot), p, c, s)[k].hold.amount == lot * Sum(d[..k])
  {
    BookAmount(first, Scale(d, lot), p, c, s, k);
    SumScalePrefix(d, lot, k);
  }

  /** The running sum of scaled quantities is the lot size times the running sum. */
  lemma SumScalePrefix(d: seq<real>, lot: real, k: int)
    requires 0 <= k <= |d|
    ensures Sum(Scale(d, lot)[..k]) == lot * Sum(d[..k])
  {
    calc {
      Sum(Scale(d, lot)[..k]);
      { ScalePrefix(d, lot, k); }
      Sum(Scale(d[..k], lot));
      { SumScale(d[..k], lot); }
      lot * Sum(d[..k]);
    }
  }

  /**
   * A lot-scaled record runs one row per step from one step before the first
   * trade and holds the lot size times the running sum of the quantities.
   */
  lemma BookLots(first: int, d: seq<real>, lot: real, prices: seq<real>, costs: seq<real>, s: real, k: int)
    requires |prices| == |d| && |costs| == |d|
    requires 0 <= k <= |d|
    ensures var e := Book(first, Scale(d, lot), prices, costs, s);
      |e| == |d| + 1 && e[k].time == first - 1 + k && e[k].hold.amount == lot * Sum(d[..k])
  {
    BookTimes(first, Scale(d, lot), prices, costs, s);
    ScaledAmount(first, d, lot, prices, costs, s, k);
  }

  /**
   * One step of a lot-scaled record: the amount moves by the lot size times
   * the quantity of that step, the price is that step's price, and the
   * principal pays for the change at that step's unit cost.
   */
  lemma BookLotStep(first: int, d: seq<real>, lot: real, prices: seq<real>, costs: seq<real>, s: real, i: int)
    requires |prices| == |d| && |costs| == |d|
    requires 0 <= i < |d|
    ensures var e := Book(first, Scale(d, lot), prices, costs, s);
      e[i + 1].time == e[i].time + 1 && e[i + 1].time == first + i &&
      e[i + 1].hold.amount - e[i].hold.amount == lot * d[i] &&
      e[i + 1].hold.price == prices[i] &&
      Financed(e[i], e[i + 1], costs[i])
  {
    var e := Book(first, Scale(d, lot), prices, costs, s);
    BookStep(e, first, Scale(d, lot), prices, costs, s, i);
    ScaleAt(d, lot, i);
  }

  lemma {:induction false} ScaleOne(d: seq<real>)
    ensures Scale(d, 1.0) == d
  {
    if d != [] {
      ScaleOne(d[..|d| - 1]);
      assert d == d[..|d| - 1] + [d[|d| - 1]];
    }
  }

  /**
   * The position of one symbol in the portfolio: the engine's checks apply;
   * the net trade quantities are multiplied by the lot size and the record
   * is priced, costed and started in the base currency.
   */
  function BuildPosition(tr: Trades, m: Market, principal: real, lot: real, base: Currency, markets: seq<Market>): (r: Result<Positions>)
    ensures CalculatePositions(tr, m, principal).Err? ==> r == Err(CalculatePositions(tr, m, principal).error)
    ensures r.Ok? ==> r.value.symbol == tr.symbol && r.value.currency == base
    ensures r.Ok? ==> (CalculatePositions(tr, m, principal).Ok? &&
      |r.value.entries| == |CalculatePositions(tr, m, principal).value.entries|)
  {
    var plain :- CalculatePositions(tr, m, principal);
    if tr.rows == [] then Ok(Positions(tr.symbol, base, []))
    else
      AmountEmpty(tr);
      assert Amount(tr)[0] in Amount(tr);
      var first := Amount(tr)[0].time;
      var mids := m.mids[first - m.start..];
      var c :- Convert(tr.symbol, tr.currency, base, markets, first, mids, principal);
      Ok(Positions(tr.symbol, base, Book(first, Scale(Deltas(tr, first, |mids|), lot), c.prices, c.costs, c.principal)))
  }

  /** A built position with trades is the record of the lot-scaled quantities at the converted prices. */
  lemma BuildPositionBook(tr: Trades, m: Market, principal: real, lot: real, base: Currency, markets: seq<Market>)
    requires BuildPosition(tr, m, principal, lot, base, markets).Ok? && tr.rows != []
    ensures Amount(tr) != [] && m.Covers(Amount(tr)[0].time)
    ensures var first := Amount(tr)[0].time;
      var mids := m.mids[first - m.start..];
      var c := Convert(tr.symbol, tr.currency, base, markets, first, mids, principal);
      c.Ok? &&
      BuildPosition(tr, m, principal, lot, base, markets).value.entries ==
        Book(first, Scale(Deltas(tr, first, |mids|), lot), c.value.prices, c.value.costs, c.value.principal)
  {
    BuildPositionConverted(tr, m, principal, lot, base, markets);
  }

  /**
   * Once the engine accepts the trades, a portfolio position exists exactly
   * when the conversion into the base currency does, and is then the record
   * of the lot-scaled quantities at the converted prices and costs.
   */
  lemma BuildPositionConverted(tr: Trades, m: Market, principal: real, lot: real, base: Currency, markets: seq<Market>)
    requires CalculatePositions(tr, m, principal).Ok? && tr.rows != []
    ensures Amount(tr) != [] && m.Covers(Amount(tr)[0].time)
    ensures var first := Amount(tr)[0].time;
      var mids := m.mids[first - m.start..];
      var c := Convert(tr.symbol, tr.currency, base, markets, first, mids, principal);
      BuildPosition(tr, m, principal, lot, base, markets) ==
        if c.Ok? then Ok(Positions(tr.symbol, base, Book(first, Scale(Deltas(tr, first, |mids|), lot), c.value.prices, c.value.costs, c.value.principal)))
        else Err(c.error)
  {
    assert Amount(tr) != [] && m.Covers(Amount(tr)[0].time) by {
      PositionsCover(tr, m, principal);
    }
  }

  /** In its own currency and with lot size one, a position is exactly the engine's record. */
  lemma BuildPositionPlain(tr: Trades, m: Market, principal: real, markets: seq<Market>)
    requires CalculatePositions(tr, m, principal).Ok?
    ensures BuildPosition(tr, m, principal, 1.0, tr.currency, markets) == CalculatePositions(tr, m, principal)
  {
    AmountEmpty(tr);
    if tr.rows != [] {
      var first := Amount(tr)[0].time;
      var d := Deltas(tr, first, |m.mids[first - m.start..]|);
      ScaleOne(d);
    }
  }

  /** The leading row of a portfolio position holds nothing and the converted principal. */
  lemma BuildPositionLeading(tr: Trades, m: Market, principal: real, lot: real, base: Currency, markets: seq<Market>)
    requires BuildPosition(tr, m, principal, lot, base, markets).Ok? && tr.rows != []
    ensures var e := BuildPosition(tr, m, principal, lot, base, markets).value.entries;
      e != [] && e[0].hold.amount == 0.0 && e[0].hold.price == 0.0 &&
      LeadingConverted(e[0].hold.principal, e[0].time, principal, tr.symbol, tr.currency, base, markets)
  {
    assert CalculatePositions(tr, m, principal).Ok?;
    assert Amount(tr) != [] && m.Covers(Amount(tr)[0].time) by {
      PositionsCover(tr, m, principal);
    }
    var first := Amount(tr)[0].time;
    var mids := m.mids[first - m.start..];
    var conv := Convert(tr.symbol, tr.currency, base, markets, first, mids, principal);
    var e := BuildPosition(tr, m, principal, lot, base, markets).value.entries;
    assert conv.Ok? && e != [] && e[0] == Leading(first, conv.value.principal) by {
      BuildPositionConverted(tr, m, principal, lot, base, markets);
    }
    var p0 := e[0].hold.principal;
    assert p0 == conv.value.principal && e[0].time == first - 1;
    assert LeadingConverted(p0, first - 1, principal, tr.symbol, tr.currency, base, markets) by {
      ConvertLeading(tr.symbol, tr.currency, base, markets, first, mids, principal);
    }
  }

  // ---------------------------------------------------------------------
  // construct_portfolio

  /** The positions, one per traded symbol, with the configuration they were built from. */
  datatype Portfolio = Portfolio(positions: seq<Positions>, principal: map<string, real>, lotSize: map<string, real>, base: Currency)

  /** The containers of one symbol, in list order. */
  function Group(trades: seq<Trades>, s: string): (r: seq<Trades>)
    ensures forall t :: t in r <==> t in trades && t.symbol == s
  {
    if trades == [] then []
    else
      assert trades == [trades[0]] + trades[1..];
      (if trades[0].symbol == s then [trades[0]] else []) + Group(trades[1..], s)
  }

  lemma RefreshedKeeps(list: seq<Trades>, offset: nat, k: int)
    requires 0 <= k < |list|
    ensures Refreshed(list, offset)[k].symbol == list[k].symbol
    ensures Refreshed(list, offset)[k].currency == list[k].currency
  {
    RefreshShifts(list, offset, k);
  }

  /** The containers of one symbol merged, with distinct strategies keeping distinct ids. */
  function Merged(trades: seq<Trades>, s: string): (r: Result<Trades>)
    ensures r.Ok? <==> exists t :: t in trades && t.symbol == s
    ensures r.Ok? ==> r.value.symbol == s
  {
    var group := Group(trades, s);
    if group != [] then
      assert group[0] in group;
      RefreshedKeeps(group, 0, 0);
      Concat(Refreshed(group, 0))
    else
      Concat(Refreshed(group, 0))
  }

  /** The net amount the containers of a symbol trade at time t, before the lot size. */
  lemma MergedAmount(trades: seq<Trades>, s: string, t: int)
    requires Merged(trades, s).Ok?
    ensures At(Amount(Merged(trades, s).value), t) == AmountAt(Group(trades, s), t)
  {
    ConcatAmount(Refreshed(Group(trades, s), 0), t);
    AmountAtRefreshed(Group(trades, s), 0, t);
  }

  lemma {:induction false} AmountAtRefreshed(list: seq<Trades>, offset: nat, t: int)
    ensures AmountAt(Refreshed(list, offset), t) == AmountAt(list, t)
  {
    if list != [] {
      var head := Shift(list[0], offset);
      var out := Refreshed(list, offset);
      assert out[0] == head;
      assert out[1..] == Refreshed(list[1..], NextFree(head.rows, offset));
      AmountAtRefreshed(list[1..], NextFree(head.rows, offset), t);
      ShiftAmount(list[0], offset);
    }
  }

  /** The position of one symbol, or the configuration error that prevents it. */
  function SymbolPosition(trades: seq<Trades>, markets: seq<Market>, principal: map<string, real>,
                          lot: map<string, real>, base: Currency, s: string): (r: Result<Positions>)
    ensures r.Ok? ==> r.value.symbol == s && r.value.currency == base
    ensures r.Ok? ==> s in principal && s in lot && FindMarket(markets, s).Some?
    ensures (exists t :: t in trades && t.symbol == s) && FindMarket(markets, s).None? ==> r == Err(MissingMarket)
    ensures (exists t :: t in trades && t.symbol == s) && FindMarket(markets, s).Some? && s !in principal ==> r == Err(MissingPrincipal)
    ensures (exists t :: t in trades && t.symbol == s) && FindMarket(markets, s).Some? && s in principal && s !in lot ==> r == Err(MissingLotSize)
  {
    var tr :- Merged(trades, s);
    match FindMarket(markets, s)
    case None => Err(MissingMarket)
    case Some(m) =>
      if s !in principal then Err(MissingPrincipal)
      else if s !in lot then Err(MissingLotSize)
      else BuildPosition(tr, m, principal[s], lot[s], base, markets)
  }

  /** All the values when every result is a value, otherwise the first error. */
  function Collect(rs: seq<Result<Positions>>): (r: Result<seq<Positions>>)
    ensures r.Ok? <==> forall k :: 0 <= k < |rs| ==> rs[k].Ok?
    ensures r.Ok? ==> |r.value| == |rs| && forall k :: 0 <= k < |rs| ==> r.value[k] == rs[k].value
  {
    if rs == [] then Ok([])
    else if rs[0].Err? then Err(rs[0].error)
    else
      var rest := Collect(rs[1..]);
      assert forall k :: 0 < k < |rs| ==> rs[k] == rs[1..][k - 1];
      if rest.Err? then Err(rest.error) else Ok([rs[0].value] + rest.value)
  }

  /** The position of every symbol, in the symbols' order. */
  function BuildAll(trades: seq<Trades>, markets: seq<Market>, principal: map<string, real>,
                    lot: map<string, real>, base: Currency, syms: seq<string>): (r: Result<seq<Positions>>)
    ensures r.Ok? <==> forall k :: 0 <= k < |syms| ==> SymbolPosition(trades, markets, principal, lot, base, syms[k]).Ok?
    ensures r.Ok? ==> (|r.value| == |syms| &&
      forall k :: 0 <= k < |syms| ==> r.value[k] == SymbolPosition(trades, markets, principal, lot, base, syms[k]).value)
  {
    var rs := seq(|syms|, k requires 0 <= k < |syms| => SymbolPosition(trades, markets, principal, lot, base, syms[k]));
    assert forall k :: 0 <= k < |syms| ==> rs[k] == SymbolPosition(trades, markets, principal, lot, base, syms[k]);
    assert (forall k :: 0 <= k < |rs| ==> rs[k].Ok?) <==>
      forall k :: 0 <= k < |syms| ==> SymbolPosition(trades, markets, principal, lot, base, syms[k]).Ok?;
    Collect(rs)
  }

  /** The symbols of a list of positions, in list order. */
  function Names(ps: seq<Positions>): (r: seq<string>)
    ensures |r| == |ps| && forall k :: 0 <= k < |ps| ==> r[k] == ps[k].symbol
  {
    seq(|ps|, k requires 0 <= k < |ps| => ps[k].symbol)
  }

  /**
   * construct_portfolio: one position per traded symbol, in lexicographic
   * order, each built from the merged containers of its symbol and
   * expressed in the base currency; the configuration is kept alongside.
   */
  function ConstructPortfolio(trades: seq<Trades>, markets: seq<Market>, principal: map<string, real>,
                              lot: map<string, real>, base: Currency): (r: Result<Portfolio>)
    ensures r.Ok? <==> forall k :: 0 <= k < |TradeSymbols(trades)| ==>
      SymbolPosition(trades, markets, principal, lot, base, TradeSymbols(trades)[k]).Ok?
    ensures r.Ok? ==> r.value.principal == principal && r.value.lotSize == lot && r.value.base == base
    ensures r.Ok? ==> Names(r.value.positions) == TradeSymbols(trades)
    ensures r.Ok? ==> forall k :: 0 <= k < |r.value.positions| ==> r.value.positions[k].currency == base
  {
    var syms := TradeSymbols(trades);
    var positions :- BuildAll(trades, markets, principal, lot, base, syms);
    Ok(Portfolio(positions, principal, lot, base))
  }

  /** A portfolio has exactly one position per traded symbol, in lexicographic order. */
  lemma PortfolioSymbols(trades: seq<Trades>, markets: seq<Market>, principal: map<string, real>,
                         lot: map<string, real>, base: Currency)
    requires ConstructPortfolio(trades, markets, principal, lot, base).Ok?
    ensures var ps := ConstructPortfolio(trades, markets, principal, lot, base).value.positions;
      StrictlySorted(Names(ps)) && forall s :: s in Names(ps) <==> exists t :: t in trades && t.symbol == s
  {
    var syms := TradeSymbols(trades);
    TradeSymbolsSpec(trades);
    forall s ensures s in syms <==> exists t :: t in trades && t.symbol == s {
      if s in syms {
        var i :| 0 <= i < |trades| && trades[i].symbol == s;
        assert trades[i] in trades;
      }
      if exists t :: t in trades && t.symbol == s {
        var t :| t in trades && t.symbol == s;
        var i :| 0 <= i < |trades| && trades[i] == t;
      }
    }
  }

  /** A portfolio exists only when every traded symbol has a market, a principal and a lot size. */
  lemma PortfolioConfigured(trades: seq<Trades>, markets: seq<Market>, principal: map<string, real>,
                            lot: map<string, real>, base: Currency, t: Trades)
    requires ConstructPortfolio(trades, markets, principal, lot, base).Ok?
    requires t in trades
    ensures t.symbol in principal && t.symbol in lot && FindMarket(markets, t.symbol).Some?
  {
    TradedListed(trades, t);
    var syms := TradeSymbols(trades);
    var k :| 0 <= k < |syms| && syms[k] == t.symbol;
    assert SymbolPosition(trades, markets, principal, lot, base, syms[k]).Ok?;
  }

  lemma TradedListed(trades: seq<Trades>, t: Trades)
    requires t in trades
    ensures t.symbol in TradeSymbols(trades)
  {
    TradeSymbolsSpec(trades);
    var i :| 0 <= i < |trades| && trades[i] == t;
  }


  /** Each portfolio position is the position built for its symbol from the merged containers. */
  lemma PortfolioPosition(trades: seq<Trades>, markets: seq<Market>, principal: map<string, real>,
                          lot: map<string, real>, base: Currency, k: int)
    requires ConstructPortfolio(trades, markets, principal, lot, base).Ok?
    requires 0 <= k < |ConstructPortfolio(trades, markets, principal, lot, base).value.positions|
    ensures var p := ConstructPortfolio(trades, markets, principal, lot, base).value.positions[k];
      var s := p.symbol;
      Merged(trades, s).Ok? && FindMarket(markets, s).Some? && s in principal && s in lot &&
      BuildPosition(Merged(trades, s).value, FindMarket(markets, s).value, principal[s], lot[s], base, markets) == Ok(p)
  {
  }
}
