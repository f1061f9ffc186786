/**
 * The trade ledger: fills collapse into trades, trades are numbered into a
 * container of one symbol and one currency, and containers are selected
 * from and merged. A container holds one row per fill, each row carrying
 * the id of the trade it belongs to; rows are kept in time order, rows at
 * the same timestamp in the order they were added.
 */
module Ledger {
  import opened Common
  import opened TimeSeries

  datatype Currency = JPY | USD {
    /** The three-letter code, as it appears in symbols such as "USDJPY". */
    function Code(): string {
      match this
      case JPY => "JPY"
      case USD => "USD"
    }
  }

  /** A fill: `time` is its timestamp and `value` the signed amount executed. */
  type Transaction = Point

  /** make_trade: fills sharing a timestamp are summed and the trade is ordered by time. */
  function MakeTrade(fills: seq<Transaction>): (r: Series)
    ensures Increasing(r)
    ensures Times(r) == Times(fills)
    ensures forall t :: At(r, t) == At(fills, t)
  {
    Collapse(fills)
  }

  /** make_trade gives the same trade whatever order the fills arrive in. */
  lemma MakeTradeOrderFree(a: seq<Transaction>, b: seq<Transaction>)
    requires multiset(a) == multiset(b)
    ensures MakeTrade(a) == MakeTrade(b)
  {
    CollapseOrderFree(a, b);
  }

  datatype Row = Row(time: int, amount: real, id: nat)

  datatype Trades = Trades(symbol: string, currency: Currency, rows: seq<Row>)

  /** Rows in time order; equal times may repeat. */
  predicate Ordered(rows: seq<Row>) {
    forall i, j :: 0 <= i < j < |rows| ==> rows[i].time <= rows[j].time
  }

  /** The (time, amount) points of the rows, in row order. */
  function Fills(rows: seq<Row>): (r: Series)
    ensures |r| == |rows|
  {
    if rows == [] then [] else [Point(rows[0].time, rows[0].amount)] + Fills(rows[1..])
  }

  lemma {:induction false} FillsAppend(a: seq<Row>, b: seq<Row>)
    ensures Fills(a + b) == Fills(a) + Fills(b)
  {
    if a == [] {
      assert a + b == b;
    } else {
      assert (a + b)[1..] == a[1..] + b;
      FillsAppend(a[1..], b);
    }
  }

  // ---------------------------------------------------------------------
  // Stable sort by time

  /** Places x after every row that is not later than it. */
  function Insert(s: seq<Row>, x: Row): seq<Row> {
    if s == [] then [x]
    else if x.time < s[0].time then [x] + s
    else [s[0]] + Insert(s[1..], x)
  }

  lemma {:induction false} InsertMultiset(s: seq<Row>, x: Row)
    ensures multiset(Insert(s, x)) == multiset(s) + multiset{x}
  {
    if s != [] {
      assert s == [s[0]] + s[1..];
      if x.time >= s[0].time {
        InsertMultiset(s[1..], x);
      }
    }
  }

  /** Inserting keeps every row at or after a common lower bound. */
  lemma {:induction false} InsertAbove(s: seq<Row>, x: Row, lo: int)
    requires forall i :: 0 <= i < |s| ==> s[i].time >= lo
    requires x.time >= lo
    ensures forall j :: 0 <= j < |Insert(s, x)| ==> Insert(s, x)[j].time >= lo
  {
    if s != [] && x.time >= s[0].time {
      InsertAbove(s[1..], x, lo);
    }
  }

  lemma {:induction false} InsertSpec(s: seq<Row>, x: Row)
    requires Ordered(s)
    ensures Ordered(Insert(s, x))
    ensures multiset(Insert(s, x)) == multiset(s) + multiset{x}
  {
    InsertMultiset(s, x);
    if s != [] && x.time >= s[0].time {
      InsertSpec(s[1..], x);
      InsertAbove(s[1..], x, s[0].time);
    }
  }

  /** Sorts rows by time, keeping rows with equal times in their input order. */
  function SortRows(rows: seq<Row>): (r: seq<Row>)
    ensures Ordered(r)
    ensures multiset(r) == multiset(rows)
  {
    if rows == [] then []
    else
      var init, last := rows[..|rows| - 1], rows[|rows| - 1];
      assert rows == init + [last];
      InsertSpec(SortRows(init), last);
      Insert(SortRows(init), last)
  }

  /** Sorting rows that are already in time order changes nothing. */
  lemma {:induction false} SortOrdered(rows: seq<Row>)
    requires Ordered(rows)
    ensures SortRows(rows) == rows
  {
    if rows != [] {
      var init, last := rows[..|rows| - 1], rows[|rows| - 1];
      SortOrdered(init);
      InsertLast(init, last);
      assert rows == init + [last];
    }
  }

  lemma {:induction false} InsertLast(s: seq<Row>, x: Row)
    requires forall i :: 0 <= i < |s| ==> s[i].time <= x.time
    ensures Insert(s, x) == s + [x]
  {
    if s != [] {
      InsertLast(s[1..], x);
      assert s + [x] == [s[0]] + (s[1..] + [x]);
    }
  }

  lemma {:induction false} FillsInsert(s: seq<Row>, x: Row, t: int)
    ensures At(Fills(Insert(s, x)), t) == At(Fills(s), t) + (if x.time == t then x.amount else 0.0)
    ensures Times(Fills(Insert(s, x))) == Times(Fills(s)) + {x.time}
  {
    if s != [] && x.time >= s[0].time {
      FillsInsert(s[1..], x, t);
    }
  }

  /** Sorting changes neither the timestamps nor the amount found at any of them. */
  lemma {:induction false} FillsSortAt(rows: seq<Row>, t: int)
    ensures At(Fills(SortRows(rows)), t) == At(Fills(rows), t)
  {
    if rows != [] {
      var init, last := rows[..|rows| - 1], rows[|rows| - 1];
      assert rows == init + [last];
      var p := Point(last.time, last.amount);
      FillsSortAt(init, t);
      FillsAppend(init, [last]);
      assert [last][1..] == [];
      assert Fills([last]) == [p];
      assert Fills(rows) == Fills(init) + [p];
      assert SortRows(rows) == Insert(SortRows(init), last);
      FillsInsert(SortRows(init), last, t);
      AtSnoc(Fills(init), p, t);
    }
  }

  lemma {:induction false} FillsSortTimes(rows: seq<Row>)
    ensures Times(Fills(SortRows(rows))) == Times(Fills(rows))
  {
    if rows != [] {
      var init, last := rows[..|rows| - 1], rows[|rows| - 1];
      assert rows == init + [last];
      var p := Point(last.time, last.amount);
      FillsSortTimes(init);
      FillsAppend(init, [last]);
      assert [last][1..] == [];
      assert Fills([last]) == [p];
      assert Fills(rows) == Fills(init) + [p];
      assert SortRows(rows) == Insert(SortRows(init), last);
      FillsInsert(SortRows(init), last, 0);
      TimesAppend(Fills(init), [p]);
      assert [p][1..] == [];
      assert Times([p]) == {p.time};
    }
  }

  lemma FillsSort(rows: seq<Row>)
    ensures Times(Fills(SortRows(rows))) == Times(Fills(rows))
    ensures forall t :: At(Fills(SortRows(rows)), t) == At(Fills(rows), t)
  {
    FillsSortTimes(rows);
    forall t ensures At(Fills(SortRows(rows)), t) == At(Fills(rows), t) { FillsSortAt(rows, t); }
  }

  // ---------------------------------------------------------------------
  // Selecting rows

  datatype Selector = WithId(id: nat) | WithIdIn(ids: set<nat>) | AtTime(time: int)

  predicate Keeps(sel: Selector, x: Row) {
    match sel
    case WithId(i) => x.id == i
    case WithIdIn(ids) => x.id in ids
    case AtTime(t) => x.time == t
  }

  /** The rows the selector keeps, in their order. */
  function Where(rows: seq<Row>, sel: Selector): (r: seq<Row>)
    ensures |r| <= |rows|
  {
    if rows == [] then []
    else (if Keeps(sel, rows[0]) then [rows[0]] else []) + Where(rows[1..], sel)
  }

  lemma {:induction false} WhereMember(rows: seq<Row>, sel: Selector)
    ensures forall x :: x in Where(rows, sel) <==> x in rows && Keeps(sel, x)
  {
    if rows != [] {
      WhereMember(rows[1..], sel);
      assert rows == [rows[0]] + rows[1..];
    }
  }

  lemma {:induction false} WhereAppend(a: seq<Row>, b: seq<Row>, sel: Selector)
    ensures Where(a + b, sel) == Where(a, sel) + Where(b, sel)
  {
    if a == [] {
      assert a + b == b;
    } else {
      var h := if Keeps(sel, a[0]) then [a[0]] else [];
      assert (a + b)[0] == a[0];
      assert (a + b)[1..] == a[1..] + b;
      WhereAppend(a[1..], b, sel);
      assert Where(a + b, sel) == h + Where(a[1..] + b, sel);
      assert h + (Where(a[1..], sel) + Where(b, sel)) == (h + Where(a[1..], sel)) + Where(b, sel);
    }
  }

  lemma {:induction false} WhereOrdered(rows: seq<Row>, sel: Selector)
    requires Ordered(rows)
    ensures Ordered(Where(rows, sel))
  {
    if rows != [] {
      WhereOrdered(rows[1..], sel);
      var rest := Where(rows[1..], sel);
      WhereMember(rows[1..], sel);
      forall j | 0 <= j < |rest| ensures rows[0].time <= rest[j].time {
        assert rest[j] in rows[1..];
      }
    }
  }

  lemma {:induction false} WhereInsert(s: seq<Row>, x: Row, sel: Selector)
    requires Ordered(s)
    ensures Where(Insert(s, x), sel) == if Keeps(sel, x) then Insert(Where(s, sel), x) else Where(s, sel)
  {
    if s != [] {
      if x.time < s[0].time {
        InsertFront(s, x, sel);
      } else {
        WhereInsert(s[1..], x, sel);
        WhereInsertStep(s, x, sel);
      }
    }
  }

  /** A row earlier than every row goes to the front, before and after selecting. */
  lemma InsertFront(s: seq<Row>, x: Row, sel: Selector)
    requires Ordered(s) && s != [] && x.time < s[0].time
    ensures Where(Insert(s, x), sel) == if Keeps(sel, x) then Insert(Where(s, sel), x) else Where(s, sel)
  {
    var w := Where(s, sel);
    assert Insert(s, x) == [x] + s;
    assert ([x] + s)[1..] == s;
    if Keeps(sel, x) && w != [] {
      WhereMember(s, sel);
      assert w[0] in s;
    }
  }

  /** A row not earlier than the first goes past it, before and after selecting. */
  lemma InsertStep(s: seq<Row>, x: Row, sel: Selector)
    requires s != [] && x.time >= s[0].time
    ensures Where(Insert(s, x), sel) == (if Keeps(sel, s[0]) then [s[0]] else []) + Where(Insert(s[1..], x), sel)
  {
    var i1 := Insert(s[1..], x);
    assert Insert(s, x) == [s[0]] + i1;
    assert ([s[0]] + i1)[0] == s[0];
    assert ([s[0]] + i1)[1..] == i1;
  }

  lemma WhereInsertStep(s: seq<Row>, x: Row, sel: Selector)
    requires s != [] && x.time >= s[0].time
    requires Where(Insert(s[1..], x), sel) == if Keeps(sel, x) then Insert(Where(s[1..], sel), x) else Where(s[1..], sel)
    ensures Where(Insert(s, x), sel) == if Keeps(sel, x) then Insert(Where(s, sel), x) else Where(s, sel)
  {
    var w1 := Where(s[1..], sel);
    var h := if Keeps(sel, s[0]) then [s[0]] else [];
    InsertStep(s, x, sel);
    assert Where(s, sel) == h + w1;
    if Keeps(sel, x) {
      if h != [] {
        assert h + w1 == [s[0]] + w1;
        assert ([s[0]] + w1)[0] == s[0];
        assert ([s[0]] + w1)[1..] == w1;
        assert Insert(h + w1, x) == h + Insert(w1, x);
      } else {
        assert h + w1 == w1;
        assert h + Insert(w1, x) == Insert(w1, x);
      }
    }
  }

  /** Selecting commutes with the stable sort. */
  lemma {:induction false} WhereSort(rows: seq<Row>, sel: Selector)
    ensures Where(SortRows(rows), sel) == SortRows(Where(rows, sel))
  {
    if rows != [] {
      var init, last := rows[..|rows| - 1], rows[|rows| - 1];
      assert rows == init + [last];
      WhereSort(init, sel);
      WhereInsert(SortRows(init), last, sel);
      WhereAppend(init, [last], sel);
      var w := Where(init, sel) + Where([last], sel);
      if Keeps(sel, last) {
        assert w[..|w| - 1] == Where(init, sel);
      } else {
        assert w == Where(init, sel);
      }
    }
  }

  lemma {:induction false} WhereNarrow(rows: seq<Row>, ids: set<nat>, id: nat)
    ensures Where(Where(rows, WithIdIn(ids)), WithId(id)) == if id in ids then Where(rows, WithId(id)) else []
  {
    if rows != [] {
      WhereNarrow(rows[1..], ids, id);
      WhereAppend(if Keeps(WithIdIn(ids), rows[0]) then [rows[0]] else [], Where(rows[1..], WithIdIn(ids)), WithId(id));
    }
  }

  // ---------------------------------------------------------------------
  // The container's views

  function IdSet(rows: seq<Row>): set<nat> {
    set x | x in rows :: x.id
  }

  function IdColumn(rows: seq<Row>): seq<nat> {
    if rows == [] then [] else [rows[0].id] + IdColumn(rows[1..])
  }

  lemma {:induction false} IdColumnSet(rows: seq<Row>)
    ensures forall i :: i in IdColumn(rows) <==> i in IdSet(rows)
  {
    if rows != [] {
      IdColumnSet(rows[1..]);
      assert rows == [rows[0]] + rows[1..];
      assert forall x :: x in rows <==> x == rows[0] || x in rows[1..];
    }
  }

  lemma IdSetHasRows(rows: seq<Row>, id: nat)
    ensures id in IdSet(rows) <==> Where(rows, WithId(id)) != []
  {
    WhereMember(rows, WithId(id));
    if Where(rows, WithId(id)) != [] {
      assert Where(rows, WithId(id))[0] in Where(rows, WithId(id));
    }
  }

  /** The distinct elements of s, each where it first occurs. */
  function Unique(s: seq<nat>): (r: seq<nat>)
    ensures forall i, j :: 0 <= i < j < |r| ==> r[i] != r[j]
    ensures forall x :: x in r <==> x in s
  {
    if s == [] then []
    else
      var init, last := s[..|s| - 1], s[|s| - 1];
      assert s == init + [last];
      var u := Unique(init);
      if last in u then u else u + [last]
  }

  /** Where x first occurs in s. */
  function FirstIndex(s: seq<nat>, x: nat): (k: nat)
    requires x in s
    ensures k < |s| && s[k] == x && x !in s[..k]
  {
    if s[0] == x then 0 else assert s == [s[0]] + s[1..]; 1 + FirstIndex(s[1..], x)
  }

  lemma FirstIndexPrefix(s: seq<nat>, k: nat, x: nat)
    requires k <= |s| && x in s[..k]
    ensures FirstIndex(s[..k], x) == FirstIndex(s, x)
  {
    var a, b := FirstIndex(s[..k], x), FirstIndex(s, x);
    assert s[..k][a] == s[a];
  }

  /** Unique lists the distinct elements in the order of their first occurrence. */
  lemma {:induction false} UniqueFirstOrder(s: seq<nat>)
    ensures forall i, j :: 0 <= i < j < |Unique(s)| ==> FirstIndex(s, Unique(s)[i]) < FirstIndex(s, Unique(s)[j])
  {
    if s != [] {
      var init, last := s[..|s| - 1], s[|s| - 1];
      assert s == init + [last];
      var u := Unique(init);
      UniqueFirstOrder(init);
      forall x | x in init ensures FirstIndex(init, x) == FirstIndex(s, x) {
        assert init == s[..|s| - 1];
        FirstIndexPrefix(s, |s| - 1, x);
      }
      if last !in u {
        var k := FirstIndex(s, last);
        assert k == |s| - 1;
        forall i | 0 <= i < |u| ensures FirstIndex(s, u[i]) < |s| - 1 {
          assert u[i] in init;
        }
      }
    }
  }

  /** ids: the distinct trade ids, in the order in which they first appear in time. */
  function Ids(tr: Trades): (r: seq<nat>)
    ensures forall i, j :: 0 <= i < j < |r| ==> r[i] != r[j]
    ensures forall x :: x in r <==> x in IdSet(tr.rows)
  {
    IdColumnSet(tr.rows);
    Unique(IdColumn(tr.rows))
  }

  /** amount: the union series, one point per timestamp holding the net amount traded then. */
  function Amount(tr: Trades): (r: Series)
    ensures Increasing(r)
    ensures Times(r) == Times(Fills(tr.rows))
    ensures forall t :: At(r, t) == At(Fills(tr.rows), t)
  {
    Collapse(Fills(tr.rows))
  }

  /**
   * get_trade: the points of one trade, or a lookup error when the id is
   * absent. The points are those of the id's rows, one per row, every such
   * row gives one, and they keep the container's time order.
   */
  function GetTrade(tr: Trades, id: nat): (r: Result<Series>)
    ensures r.Err? <==> id !in IdSet(tr.rows)
    ensures r.Ok? ==> r.value != [] && |r.value| <= |tr.rows|
    ensures r.Ok? ==> |r.value| == |Where(tr.rows, WithId(id))|
    ensures r.Ok? ==> multiset(r.value) == multiset(Fills(Where(tr.rows, WithId(id))))
    ensures r.Ok? ==> forall i :: 0 <= i < |r.value| ==> FromRowOf(tr.rows, id, r.value[i])
    ensures r.Ok? ==> forall x :: x in tr.rows && x.id == id ==> Point(x.time, x.amount) in r.value
    ensures r.Ok? && Ordered(tr.rows) ==> forall i, j :: 0 <= i < j < |r.value| ==> r.value[i].time <= r.value[j].time
  {
    IdSetHasRows(tr.rows, id);
    FillsWhere(tr.rows, id);
    if Where(tr.rows, WithId(id)) != [] then Ok(Fills(Where(tr.rows, WithId(id)))) else Err(LookupError)
  }

  /** The point p is the time and amount of some row of the given id. */
  predicate FromRowOf(rows: seq<Row>, id: nat, p: Point) {
    exists x :: x in rows && x.id == id && p == Point(x.time, x.amount)
  }

  /** Each point of the rows of one id comes from a row of that id. */
  lemma FillsFromRows(rows: seq<Row>, id: nat)
    ensures var w := Where(rows, WithId(id));
      forall i :: 0 <= i < |w| ==> FromRowOf(rows, id, Fills(w)[i])
  {
    var w := Where(rows, WithId(id));
    WhereMember(rows, WithId(id));
    forall i | 0 <= i < |w| ensures FromRowOf(rows, id, Fills(w)[i]) {
      FillsAt(w, i);
      var x := w[i];
      assert x in w;
      assert x in rows && x.id == id && Fills(w)[i] == Point(x.time, x.amount);
    }
  }

  /** The points of the rows of one id: one per row, each from such a row, in row order. */
  lemma FillsWhere(rows: seq<Row>, id: nat)
    ensures var w := Where(rows, WithId(id));
      forall i :: 0 <= i < |w| ==> FromRowOf(rows, id, Fills(w)[i])
    ensures var w := Where(rows, WithId(id));
      forall x :: x in rows && x.id == id ==> Point(x.time, x.amount) in Fills(w)
    ensures var w := Where(rows, WithId(id));
      Ordered(rows) ==> forall i, j :: 0 <= i < j < |w| ==> Fills(w)[i].time <= Fills(w)[j].time
  {
    var w := Where(rows, WithId(id));
    WhereMember(rows, WithId(id));
    FillsFromRows(rows, id);
    forall x | x in rows && x.id == id ensures Point(x.time, x.amount) in Fills(w) {
      assert x in w;
      var i :| 0 <= i < |w| && w[i] == x;
      FillsAt(w, i);
    }
    assert Ordered(rows) ==> forall i, j :: 0 <= i < j < |w| ==> Fills(w)[i].time <= Fills(w)[j].time by {
      if Ordered(rows) {
        WhereOrdered(rows, WithId(id));
        forall i, j | 0 <= i < j < |w| ensures Fills(w)[i].time <= Fills(w)[j].time {
          FillsAt(w, i);
          FillsAt(w, j);
        }
      }
    }
  }

  /** The ids of the trades that have a masked timestamp. */
  function AnyIds(rows: seq<Row>, mask: int -> bool): set<nat> {
    set x | x in rows && mask(x.time) :: x.id
  }

  /** The ids of the trades that have an unmasked timestamp. */
  function SomeUnmasked(rows: seq<Row>, mask: int -> bool): set<nat> {
    set x | x in rows && !mask(x.time) :: x.id
  }

  /** get_any: the whole trades that have at least one masked timestamp. */
  function GetAny(tr: Trades, mask: int -> bool): (r: Trades)
    ensures r.symbol == tr.symbol && r.currency == tr.currency
    ensures forall x :: x in r.rows <==> x in tr.rows && exists y :: y in tr.rows && y.id == x.id && mask(y.time)
  {
    WhereMember(tr.rows, WithIdIn(AnyIds(tr.rows, mask)));
    tr.(rows := Where(tr.rows, WithIdIn(AnyIds(tr.rows, mask))))
  }

  /** get_all: the whole trades whose every timestamp is masked. */
  function GetAll(tr: Trades, mask: int -> bool): (r: Trades)
    ensures r.symbol == tr.symbol && r.currency == tr.currency
    ensures forall x :: x in r.rows <==> x in tr.rows && forall y :: y in tr.rows && y.id == x.id ==> mask(y.time)
  {
    var ids := AnyIds(tr.rows, mask) - SomeUnmasked(tr.rows, mask);
    WhereMember(tr.rows, WithIdIn(ids));
    tr.(rows := Where(tr.rows, WithIdIn(ids)))
  }

  /** Selecting trades by a set of ids keeps each selected trade whole and drops the others. */
  lemma SelectWhole(tr: Trades, ids: set<nat>, id: nat)
    ensures GetTrade(tr.(rows := Where(tr.rows, WithIdIn(ids))), id) == if id in ids then GetTrade(tr, id) else Err(LookupError)
  {
    WhereNarrow(tr.rows, ids, id);
    IdSetHasRows(tr.rows, id);
    IdSetHasRows(Where(tr.rows, WithIdIn(ids)), id);
  }

  /** get_any never cuts a trade: every trade it keeps is the original trade. */
  lemma GetAnyWhole(tr: Trades, mask: int -> bool, id: nat)
    ensures GetTrade(GetAny(tr, mask), id) == if id in AnyIds(tr.rows, mask) then GetTrade(tr, id) else Err(LookupError)
  {
    SelectWhole(tr, AnyIds(tr.rows, mask), id);
  }

  lemma GetAllWhole(tr: Trades, mask: int -> bool, id: nat)
    ensures GetTrade(GetAll(tr, mask), id) ==
      if id in AnyIds(tr.rows, mask) - SomeUnmasked(tr.rows, mask) then GetTrade(tr, id) else Err(LookupError)
  {
    SelectWhole(tr, AnyIds(tr.rows, mask) - SomeUnmasked(tr.rows, mask), id);
  }

  /** get_all is contained in get_any, trade for trade. */
  lemma GetAllWithinAny(tr: Trades, mask: int -> bool, id: nat)
    requires id in IdSet(GetAll(tr, mask).rows)
    ensures id in IdSet(GetAny(tr, mask).rows)
    ensures GetTrade(GetAll(tr, mask), id) == GetTrade(GetAny(tr, mask), id) == GetTrade(tr, id)
  {
    GetAllWhole(tr, mask, id);
    GetAnyWhole(tr, mask, id);
  }

  // ---------------------------------------------------------------------
  // make_trades

  /** The rows of one trade series, all labelled with one id. */
  function Tag(s: Series, id: nat): (r: seq<Row>)
    ensures |r| == |s|
  {
    if s == [] then [] else [Row(s[0].time, s[0].value, id)] + Tag(s[1..], id)
  }

  /** The rows of a list of trade series, numbered from `first` on in list order. */
  function Numbered(series: seq<Series>, first: nat): seq<Row> {
    if series == [] then [] else Tag(series[0], first) + Numbered(series[1..], first + 1)
  }

  /** Explicit ids line up with the series: one id per point. */
  predicate Shaped(series: seq<Series>, ids: seq<seq<nat>>) {
    |ids| == |series| && forall i :: 0 <= i < |series| ==> |ids[i]| == |series[i]|
  }

  /** The rows of one series, each point labelled with its own id. */
  function Label(s: Series, ids: seq<nat>): seq<Row>
    requires |ids| == |s|
  {
    if s == [] then [] else [Row(s[0].time, s[0].value, ids[0])] + Label(s[1..], ids[1..])
  }

  function Labelled(series: seq<Series>, ids: seq<seq<nat>>): seq<Row>
    requires Shaped(series, ids)
  {
    if series == [] then [] else Label(series[0], ids[0]) + Labelled(series[1..], ids[1..])
  }

  /** All points of all series, in list order. */
  function Flatten(series: seq<Series>): Series {
    if series == [] then [] else series[0] + Flatten(series[1..])
  }

  /**
   * make_trades: a container of the given series. Without explicit ids the
   * i-th series is trade i; explicit ids give every point its own id and must
   * line up with the points.
   */
  function MakeTrades(symbol: string, series: seq<Series>, currency: Currency, ids: Option<seq<seq<nat>>>): (r: Result<Trades>)
    ensures r.Ok? <==> ids.None? || Shaped(series, ids.value)
    ensures r.Ok? ==> r.value.symbol == symbol && r.value.currency == currency && Ordered(r.value.rows)
  {
    match ids
    case None => Ok(Trades(symbol, currency, SortRows(Numbered(series, 0))))
    case Some(labels) =>
      if Shaped(series, labels) then Ok(Trades(symbol, currency, SortRows(Labelled(series, labels))))
      else Err(ShapeMismatch)
  }

  lemma {:induction false} FillsTag(s: Series, id: nat)
    ensures Fills(Tag(s, id)) == s
  {
    if s != [] { FillsTag(s[1..], id); }
  }

  lemma {:induction false} FillsLabel(s: Series, ids: seq<nat>)
    requires |ids| == |s|
    ensures Fills(Label(s, ids)) == s
  {
    if s != [] { FillsLabel(s[1..], ids[1..]); }
  }

  lemma {:induction false} FillsNumbered(series: seq<Series>, first: nat)
    ensures Fills(Numbered(series, first)) == Flatten(series)
  {
    if series != [] {
      FillsNumbered(series[1..], first + 1);
      FillsAppend(Tag(series[0], first), Numbered(series[1..], first + 1));
      FillsTag(series[0], first);
    }
  }

  lemma {:induction false} FillsLabelled(series: seq<Series>, ids: seq<seq<nat>>)
    requires Shaped(series, ids)
    ensures Fills(Labelled(series, ids)) == Flatten(series)
  {
    if series != [] {
      assert Shaped(series[1..], ids[1..]) by {
        forall i | 0 <= i < |series| - 1 ensures |ids[1..][i]| == |series[1..][i]| {
          assert ids[1..][i] == ids[i + 1];
        }
      }
      FillsLabelled(series[1..], ids[1..]);
      FillsAppend(Label(series[0], ids[0]), Labelled(series[1..], ids[1..]));
      FillsLabel(series[0], ids[0]);
    }
  }

  /** Two containers whose rows are permutations-in-time of one another have the same amount series. */
  lemma AmountOfRows(tr: Trades, rows: seq<Row>)
    requires tr.rows == SortRows(rows)
    ensures Amount(tr) == Collapse(Fills(rows))
  {
    FillsSort(rows);
    Determined(Amount(tr), Collapse(Fills(rows)));
  }

  /** amount of make_trades is the union of all the given series' points, summed per timestamp. */
  lemma MakeTradesAmount(symbol: string, series: seq<Series>, currency: Currency, ids: Option<seq<seq<nat>>>)
    requires MakeTrades(symbol, series, currency, ids).Ok?
    ensures Amount(MakeTrades(symbol, series, currency, ids).value) == Collapse(Flatten(series))
  {
    var tr := MakeTrades(symbol, series, currency, ids).value;
    match ids
    case None =>
      FillsNumbered(series, 0);
      AmountOfRows(tr, Numbered(series, 0));
    case Some(labels) =>
      FillsLabelled(series, labels);
      AmountOfRows(tr, Labelled(series, labels));
  }

  lemma {:induction false} WhereTag(s: Series, first: nat, id: nat)
    ensures Where(Tag(s, first), WithId(id)) == if id == first then Tag(s, first) else []
  {
    if s != [] { WhereTag(s[1..], first, id); }
  }

  lemma {:induction false} WhereNumbered(series: seq<Series>, first: nat, id: nat)
    ensures Where(Numbered(series, first), WithId(id)) ==
      if first <= id < first + |series| then Tag(series[id - first], id) else []
  {
    if series != [] {
      WhereNumbered(series[1..], first + 1, id);
      WhereAppend(Tag(series[0], first), Numbered(series[1..], first + 1), WithId(id));
      WhereTag(series[0], first, id);
      if first < id < first + |series| {
        assert series[1..][id - (first + 1)] == series[id - first];
      }
    }
  }

  lemma TagOrdered(s: Series, id: nat)
    requires Increasing(s)
    ensures Ordered(Tag(s, id))
  {
    FillsTag(s, id);
    forall i | 0 <= i < |s| ensures Tag(s, id)[i].time == s[i].time {
      assert Fills(Tag(s, id))[i] == s[i];
      FillsAt(Tag(s, id), i);
    }
  }

  lemma {:induction false} FillsAt(rows: seq<Row>, i: int)
    requires 0 <= i < |rows|
    ensures Fills(rows)[i] == Point(rows[i].time, rows[i].amount)
  {
    if i > 0 { FillsAt(rows[1..], i - 1); }
  }

  /** make_trades numbers the given series 0, 1, ..., n-1 in list order, and trade i is exactly series i. */
  lemma MakeTradesNumbers(symbol: string, series: seq<Series>, currency: Currency, id: nat)
    requires forall i :: 0 <= i < |series| ==> Increasing(series[i])
    ensures GetTrade(MakeTrades(symbol, series, currency, None).value, id) ==
      if id < |series| && series[id] != [] then Ok(series[id]) else Err(LookupError)
  {
    var rows := Numbered(series, 0);
    WhereSort(rows, WithId(id));
    WhereNumbered(series, 0, id);
    if id < |series| {
      TagOrdered(series[id], id);
      SortOrdered(Tag(series[id], id));
      FillsTag(series[id], id);
    }
  }

  // ---------------------------------------------------------------------
  // concat

  function AllRows(list: seq<Trades>): seq<Row> {
    if list == [] then [] else list[0].rows + AllRows(list[1..])
  }

  /**
   * concat with refresh_id=False: every row of every input is kept, in time
   * order, rows of earlier inputs first at equal timestamps; the symbol and
   * currency are the first input's.
   */
  function Concat(list: seq<Trades>): (r: Result<Trades>)
    ensures r.Ok? <==> list != []
    ensures r.Ok? ==> r.value.symbol == list[0].symbol && r.value.currency == list[0].currency
    ensures r.Ok? ==> Ordered(r.value.rows) && multiset(r.value.rows) == multiset(AllRows(list))
    ensures r.Ok? ==> |r.value.rows| == |AllRows(list)|
  {
    if list == [] then Err(EmptyInput)
    else
      var rows := SortRows(AllRows(list));
      assert |multiset(rows)| == |rows|;
      Ok(Trades(list[0].symbol, list[0].currency, rows))
  }

  /** The number of rows of all inputs together. */
  function TotalRows(list: seq<Trades>): nat {
    if list == [] then 0 else |list[0].rows| + TotalRows(list[1..])
  }

  lemma {:induction false} AllRowsLength(list: seq<Trades>)
    ensures |AllRows(list)| == TotalRows(list)
  {
    if list != [] { AllRowsLength(list[1..]); }
  }

  /** len of a concatenation is the sum of the inputs' lens. */
  lemma ConcatLength(list: seq<Trades>)
    requires list != []
    ensures |Concat(list).value.rows| == TotalRows(list)
  {
    AllRowsLength(list);
  }

  /** The net amount of all inputs at time t. */
  function AmountAt(list: seq<Trades>, t: int): real {
    if list == [] then 0.0 else At(Amount(list[0]), t) + AmountAt(list[1..], t)
  }

  lemma {:induction false} AllRowsAt(list: seq<Trades>, t: int)
    ensures At(Fills(AllRows(list)), t) == AmountAt(list, t)
  {
    if list != [] {
      AllRowsAt(list[1..], t);
      FillsAppend(list[0].rows, AllRows(list[1..]));
      AtAppend(Fills(list[0].rows), Fills(AllRows(list[1..])), t);
    }
  }

  /** amount of a concatenation is, at every timestamp, the sum of the inputs' amounts. */
  lemma ConcatAmount(list: seq<Trades>, t: int)
    requires list != []
    ensures At(Amount(Concat(list).value), t) == AmountAt(list, t)
  {
    FillsSortAt(AllRows(list), t);
    AllRowsAt(list, t);
  }

  /** At each timestamp, a concatenation lists the inputs' rows in input order. */
  lemma ConcatTies(list: seq<Trades>, t: int)
    requires list != []
    ensures Where(Concat(list).value.rows, AtTime(t)) == Where(AllRows(list), AtTime(t))
  {
    assert Concat(list).value.rows == SortRows(AllRows(list));
    SortTies(AllRows(list), t);
  }

  /** Sorting keeps the rows of one timestamp in their order. */
  lemma {:induction false} SortTies(rows: seq<Row>, t: int)
    ensures Where(SortRows(rows), AtTime(t)) == Where(rows, AtTime(t))
  {
    var w := Where(rows, AtTime(t));
    assert Where(SortRows(rows), AtTime(t)) == SortRows(w) by { WhereSort(rows, AtTime(t)); }
    assert Ordered(w) by { WhereAtTime(rows, t); }
    assert SortRows(w) == w by { SortOrdered(w); }
  }

  /** The rows kept at one timestamp all carry it. */
  lemma {:induction false} WhereAtTime(rows: seq<Row>, t: int)
    ensures forall i :: 0 <= i < |Where(rows, AtTime(t))| ==> Where(rows, AtTime(t))[i].time == t
  {
    if rows != [] {
      WhereAtTime(rows[1..], t);
      var h := if rows[0].time == t then [rows[0]] else [];
      assert Where(rows, AtTime(t)) == h + Where(rows[1..], AtTime(t));
    }
  }

  /** concat of a single container leaves it as it is. */
  lemma ConcatSingle(tr: Trades)
    requires Ordered(tr.rows)
    ensures Concat([tr]) == Ok(tr)
  {
    assert AllRows([tr]) == tr.rows + AllRows([]);
    assert tr.rows + [] == tr.rows;
    SortOrdered(tr.rows);
  }

  lemma IdSetAppend(a: seq<Row>, b: seq<Row>)
    ensures IdSet(a + b) == IdSet(a) + IdSet(b)
  {
    assert forall x :: x in a + b <==> x in a || x in b;
  }

  lemma {:induction false} AllRowsIds(list: seq<Trades>, id: nat)
    ensures id in IdSet(AllRows(list)) <==> exists k :: 0 <= k < |list| && id in IdSet(list[k].rows)
  {
    if list != [] {
      AllRowsIds(list[1..], id);
      IdSetAppend(list[0].rows, AllRows(list[1..]));
      if id in IdSet(AllRows(list[1..])) {
        var k :| 0 <= k < |list| - 1 && id in IdSet(list[1..][k].rows);
        assert list[1..][k] == list[k + 1];
      }
      if exists k :: 0 <= k < |list| && id in IdSet(list[k].rows) {
        var k :| 0 <= k < |list| && id in IdSet(list[k].rows);
        if k > 0 { assert list[1..][k - 1] == list[k]; }
      }
    }
  }

  /** With refresh_id=False the ids of a concatenation are exactly the union of the inputs' ids. */
  lemma ConcatIds(list: seq<Trades>, id: nat)
    requires list != []
    ensures id in IdSet(Concat(list).value.rows) <==> exists k :: 0 <= k < |list| && id in IdSet(list[k].rows)
  {
    var rows := Concat(list).value.rows;
    assert forall x :: x in rows <==> x in AllRows(list) by {
      forall x ensures x in rows <==> x in AllRows(list) {
        assert x in rows <==> x in multiset(rows);
      }
    }
    AllRowsIds(list, id);
  }

  // ---------------------------------------------------------------------
  // concat with refresh_id=True

  function ShiftRows(rows: seq<Row>, offset: nat): (r: seq<Row>)
    ensures |r| == |rows|
  {
    if rows == [] then [] else [rows[0].(id := rows[0].id + offset)] + ShiftRows(rows[1..], offset)
  }

  /** The container with every trade id moved up by offset. */
  function Shift(tr: Trades, offset: nat): Trades {
    tr.(rows := ShiftRows(tr.rows, offset))
  }

  function MaxId(rows: seq<Row>): (m: nat)
    requires rows != []
    ensures m in IdSet(rows)
    ensures forall i :: i in IdSet(rows) ==> i <= m
  {
    if |rows| == 1 then
      assert forall x :: x in rows ==> x == rows[0];
      rows[0].id
    else
      var m := MaxId(rows[1..]);
      assert IdSet(rows) == {rows[0].id} + IdSet(rows[1..]) by {
        assert rows == [rows[0]] + rows[1..];
        IdSetAppend([rows[0]], rows[1..]);
        assert IdSet([rows[0]]) == {rows[0].id};
      }
      if rows[0].id > m then rows[0].id else m
  }

  /** The next free id after a container, given the next free id before it. */
  function NextFree(rows: seq<Row>, offset: nat): nat {
    if rows == [] then offset else MaxId(rows) + 1
  }

  /**
   * The inputs of concat(refresh_id=True): each container's ids are moved up
   * by the next free id so far, which then advances past its largest id.
   */
  function Refreshed(list: seq<Trades>, offset: nat): (r: seq<Trades>)
    ensures |r| == |list|
  {
    if list == [] then []
    else
      var head := Shift(list[0], offset);
      [head] + Refreshed(list[1..], NextFree(head.rows, offset))
  }

  /** concat(refresh_id=True), with the next-free-id counter kept in a loop. */
  method ConcatRefresh(list: seq<Trades>) returns (r: Result<Trades>)
    ensures r == Concat(Refreshed(list, 0))
  {
    var shifted: seq<Trades> := [];
    var next: nat := 0;
    var k := 0;
    while k < |list|
      invariant 0 <= k <= |list|
      invariant shifted + Refreshed(list[k..], next) == Refreshed(list, 0)
    {
      var head := Shift(list[k], next);
      assert list[k..][0] == list[k];
      assert list[k..][1..] == list[k + 1..];
      shifted := shifted + [head];
      next := NextFree(head.rows, next);
      k := k + 1;
    }
    assert list[k..] == [];
    assert shifted + [] == shifted;
    r := Concat(shifted);
  }

  lemma IdSetCons(rows: seq<Row>)
    requires rows != []
    ensures IdSet(rows) == {rows[0].id} + IdSet(rows[1..])
  {
    assert rows == [rows[0]] + rows[1..];
    IdSetAppend([rows[0]], rows[1..]);
    assert IdSet([rows[0]]) == {rows[0].id};
  }

  /** The ids of a set moved up by offset. */
  function ShiftSet(ids: set<nat>, offset: nat): set<nat> {
    set i | i in ids :: i + offset
  }

  lemma {:induction false} ShiftSetCard(ids: set<nat>, offset: nat)
    ensures |ShiftSet(ids, offset)| == |ids|
    decreases |ids|
  {
    if ids != {} {
      var x :| x in ids;
      ShiftSetCard(ids - {x}, offset);
      forall y ensures y in ShiftSet(ids, offset) <==> y in ShiftSet(ids - {x}, offset) + {x + offset} {
        if y in ShiftSet(ids, offset) {
          var i :| i in ids && y == i + offset;
          if i != x { assert i in ids - {x}; }
        }
      }
      assert ShiftSet(ids, offset) == ShiftSet(ids - {x}, offset) + {x + offset};
      assert x + offset !in ShiftSet(ids - {x}, offset);
    }
  }

  lemma {:induction false} IdSetShift(rows: seq<Row>, offset: nat)
    ensures IdSet(ShiftRows(rows, offset)) == ShiftSet(IdSet(rows), offset)
  {
    if rows == [] {
      assert IdSet(rows) == {};
      assert IdSet(ShiftRows(rows, offset)) == {};
    } else {
      IdSetShift(rows[1..], offset);
      IdSetCons(rows);
      IdSetCons(ShiftRows(rows, offset));
      assert ShiftRows(rows, offset)[1..] == ShiftRows(rows[1..], offset);
    }
  }

  lemma {:induction false} FillsShift(rows: seq<Row>, offset: nat)
    ensures Fills(ShiftRows(rows, offset)) == Fills(rows)
  {
    if rows != [] {
      FillsShift(rows[1..], offset);
      assert ShiftRows(rows, offset)[1..] == ShiftRows(rows[1..], offset);
    }
  }

  lemma {:induction false} WhereShift(rows: seq<Row>, offset: nat, id: nat)
    ensures Where(ShiftRows(rows, offset), WithId(id + offset)) == ShiftRows(Where(rows, WithId(id)), offset)
  {
    if rows != [] {
      WhereShift(rows[1..], offset, id);
      assert ShiftRows(rows, offset)[1..] == ShiftRows(rows[1..], offset);
      var w := Where(rows[1..], WithId(id));
      if rows[0].id == id {
        assert Where(rows, WithId(id)) == [rows[0]] + w;
        assert ([rows[0]] + w)[0] == rows[0];
        assert ([rows[0]] + w)[1..] == w;
      } else {
        assert Where(rows, WithId(id)) == [] + w;
        assert [] + w == w;
        assert Where(ShiftRows(rows, offset), WithId(id + offset)) == [] + Where(ShiftRows(rows[1..], offset), WithId(id + offset));
      }
    }
  }

  /** Moving ids changes no trade: the trade under id + offset is the trade that was under id. */
  lemma ShiftTrade(tr: Trades, offset: nat, id: nat)
    ensures GetTrade(Shift(tr, offset), id + offset) == GetTrade(tr, id)
  {
    WhereShift(tr.rows, offset, id);
    FillsShift(Where(tr.rows, WithId(id)), offset);
  }

  /** Moving ids changes no amount. */
  lemma ShiftAmount(tr: Trades, offset: nat)
    ensures Amount(Shift(tr, offset)) == Amount(tr)
  {
    FillsShift(tr.rows, offset);
  }

  lemma ShiftZero(rows: seq<Row>)
    ensures ShiftRows(rows, 0) == rows
  {
  }

  /** refresh_id leaves the first container's ids as they are. */
  lemma RefreshFirstUnchanged(list: seq<Trades>)
    requires list != []
    ensures Refreshed(list, 0)[0] == list[0]
  {
    ShiftZero(list[0].rows);
  }

  /**
   * refresh_id on two containers: the first keeps its ids and the second's
   * move up to start one past the first's largest id (by nothing when the
   * first is empty).
   */
  lemma RefreshPair(a: Trades, b: Trades)
    ensures Refreshed([a, b], 0) == [a, Shift(b, NextFree(a.rows, 0))]
    ensures a.rows != [] ==> Refreshed([a, b], 0) == [a, Shift(b, MaxId(a.rows) + 1)]
  {
    ShiftZero(a.rows);
    assert Shift(a, 0) == a;
    assert [a, b][1..] == [b] && [b][1..] == [];
  }

  /** refresh_id moves every id of a container by one constant, so each input keeps its internal trades. */
  lemma {:induction false} RefreshShifts(list: seq<Trades>, offset: nat, k: int)
    requires 0 <= k < |list|
    ensures exists c: nat :: c >= offset && Refreshed(list, offset)[k] == Shift(list[k], c)
  {
    if k > 0 {
      var next := NextFree(Shift(list[0], offset).rows, offset);
      RefreshShifts(list[1..], next, k - 1);
      var c: nat :| c >= next && Refreshed(list[1..], next)[k - 1] == Shift(list[1..][k - 1], c);
      assert list[1..][k - 1] == list[k];
      assert Refreshed(list, offset)[k] == Refreshed(list[1..], next)[k - 1];
      RefreshNextAbove(list[0], offset);
    } else {
      assert Refreshed(list, offset)[0] == Shift(list[0], offset);
    }
  }

  lemma RefreshNextAbove(tr: Trades, offset: nat)
    ensures NextFree(Shift(tr, offset).rows, offset) >= offset
    ensures forall i :: i in IdSet(Shift(tr, offset).rows) ==> offset <= i < NextFree(Shift(tr, offset).rows, offset)
  {
    IdSetShift(tr.rows, offset);
    if tr.rows != [] {
      var m := MaxId(Shift(tr, offset).rows);
      assert m >= offset;
    }
  }

  /** After refresh_id every id of a container is at least the offset it started from. */
  lemma RefreshBelow(list: seq<Trades>, offset: nat, k: int)
    requires 0 <= k < |list|
    ensures forall i :: i in IdSet(Refreshed(list, offset)[k].rows) ==> i >= offset
  {
    RefreshShifts(list, offset, k);
    var c: nat :| c >= offset && Refreshed(list, offset)[k] == Shift(list[k], c);
    IdSetShift(list[k].rows, c);
  }

  /** After refresh_id the containers' id ranges are disjoint and increase in list order. */
  lemma {:induction false} RefreshSeparated(list: seq<Trades>, offset: nat, k: int, l: int)
    requires 0 <= k < l < |list|
    ensures forall a, b :: a in IdSet(Refreshed(list, offset)[k].rows) && b in IdSet(Refreshed(list, offset)[l].rows) ==> a < b
  {
    var next := NextFree(Shift(list[0], offset).rows, offset);
    assert Refreshed(list, offset)[l] == Refreshed(list[1..], next)[l - 1];
    if k == 0 {
      RefreshNextAbove(list[0], offset);
      RefreshBelow(list[1..], next, l - 1);
    } else {
      assert Refreshed(list, offset)[k] == Refreshed(list[1..], next)[k - 1];
      RefreshSeparated(list[1..], next, k - 1, l - 1);
    }
  }

  /** The number of distinct ids of all inputs together, counted per input. */
  function IdCount(list: seq<Trades>): nat {
    if list == [] then 0 else |IdSet(list[0].rows)| + IdCount(list[1..])
  }

  lemma {:induction false} RefreshAllAbove(list: seq<Trades>, offset: nat)
    ensures forall i :: i in IdSet(AllRows(Refreshed(list, offset))) ==> i >= offset
  {
    forall i | i in IdSet(AllRows(Refreshed(list, offset))) ensures i >= offset {
      AllRowsIds(Refreshed(list, offset), i);
      var k :| 0 <= k < |list| && i in IdSet(Refreshed(list, offset)[k].rows);
      RefreshBelow(list, offset, k);
    }
  }

  lemma {:induction false} RefreshIdCount(list: seq<Trades>, offset: nat)
    ensures |IdSet(AllRows(Refreshed(list, offset)))| == IdCount(list)
  {
    var out := Refreshed(list, offset);
    if list == [] {
      assert IdSet(AllRows(out)) == {};
    } else {
      var head := Shift(list[0], offset);
      var next := NextFree(head.rows, offset);
      assert out[1..] == Refreshed(list[1..], next);
      RefreshIdCount(list[1..], next);
      IdSetAppend(head.rows, AllRows(out[1..]));
      RefreshNextAbove(list[0], offset);
      RefreshAllAbove(list[1..], next);
      assert IdSet(head.rows) * IdSet(AllRows(out[1..])) == {};
      IdSetShift(list[0].rows, offset);
      ShiftSetCard(IdSet(list[0].rows), offset);
    }
  }

  /** A list of distinct ids is exactly as long as the set it enumerates. */
  lemma {:induction false} DistinctCard(s: seq<nat>, ids: set<nat>)
    requires forall i, j :: 0 <= i < j < |s| ==> s[i] != s[j]
    requires forall x :: x in s <==> x in ids
    ensures |s| == |ids|
  {
    if s != [] {
      var last := s[|s| - 1];
      var init := s[..|s| - 1];
      assert forall x :: x in init <==> x in ids - {last} by {
        assert s == init + [last];
        forall x | x in init ensures x != last {
          var i :| 0 <= i < |init| && init[i] == x;
          assert s[i] == x;
        }
      }
      DistinctCard(init, ids - {last});
    } else {
      assert forall x :: x !in ids;
      assert ids == {};
    }
  }

  /**
   * concat(refresh_id=True) merges no trades: the result holds as many
   * distinct trades as all inputs together.
   */
  lemma ConcatRefreshIdCount(list: seq<Trades>)
    requires list != []
    ensures |Ids(Concat(Refreshed(list, 0)).value)| == IdCount(list)
  {
    var out := Refreshed(list, 0);
    var rows := Concat(out).value.rows;
    assert IdSet(rows) == IdSet(AllRows(out)) by {
      forall x ensures x in rows <==> x in AllRows(out) {
        assert x in rows <==> x in multiset(rows);
      }
    }
    RefreshIdCount(list, 0);
    DistinctCard(Ids(Concat(out).value), IdSet(rows));
  }
}
