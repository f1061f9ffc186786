/**
 * The trades test suite's fixture and expectations, derived from the
 * general lemmas: ten one-minute amounts cut into five two-minute trades.
 */
module TradesScenario {
  import opened Common
  import opened TimeSeries
  import opened Ledger

  /** The points start+lo .. start+hi-1 of a column of amounts, one per step. */
  function Window(start: int, data: seq<real>, lo: nat, hi: nat): (r: Series)
    requires lo <= hi <= |data|
    ensures |r| == hi - lo
    ensures forall j :: 0 <= j < hi - lo ==> r[j] == Point(start + lo + j, data[lo + j])
  {
    seq(hi - lo, j requires 0 <= j < hi - lo => Point(start + lo + j, data[lo + j]))
  }

  function Min(a: int, b: int): int { if a < b then a else b }

  /** The column cut into consecutive trades of width w from index lo on; the last may be shorter. */
  function Chunks(start: int, data: seq<real>, w: nat, lo: nat): (r: seq<Series>)
    requires 0 < w && lo <= |data|
    decreases |data| - lo
  {
    if lo == |data| then [] else [Window(start, data, lo, Min(lo + w, |data|))] + Chunks(start, data, w, Min(lo + w, |data|))
  }

  /** The fixture loop: one trade per slice data[i:i+w], for i = 0, w, 2w, ... */
  method ChunkTrades(start: int, data: seq<real>, w: nat) returns (r: seq<Series>)
    requires 0 < w
    ensures r == Chunks(start, data, w, 0)
  {
    r := [];
    var i := 0;
    while i < |data|
      invariant 0 <= i <= |data|
      invariant r + Chunks(start, data, w, i) == Chunks(start, data, w, 0)
      decreases |data| - i
    {
      var hi := Min(i + w, |data|);
      assert Chunks(start, data, w, i) == [Window(start, data, i, hi)] + Chunks(start, data, w, hi);
      r := r + [Window(start, data, i, hi)];
      i := hi;
    }
  }

  /** Putting the trades back together gives the whole column. */
  lemma {:induction false} FlattenChunks(start: int, data: seq<real>, w: nat, lo: nat)
    requires 0 < w && lo <= |data|
    ensures Flatten(Chunks(start, data, w, lo)) == Window(start, data, lo, |data|)
    decreases |data| - lo
  {
    if lo < |data| {
      var hi := Min(lo + w, |data|);
      FlattenChunks(start, data, w, hi);
      assert Window(start, data, lo, hi) + Window(start, data, hi, |data|) == Window(start, data, lo, |data|);
    }
  }

  /** Every trade of the fixture is non-empty and in time order. */
  lemma {:induction false} ChunksShape(start: int, data: seq<real>, w: nat, lo: nat)
    requires 0 < w && lo <= |data|
    ensures forall k :: 0 <= k < |Chunks(start, data, w, lo)| ==>
      Chunks(start, data, w, lo)[k] != [] && Increasing(Chunks(start, data, w, lo)[k])
    decreases |data| - lo
  {
    if lo < |data| {
      var hi := Min(lo + w, |data|);
      ChunksShape(start, data, w, hi);
      var c := Chunks(start, data, w, lo);
      assert forall k :: 0 < k < |c| ==> c[k] == Chunks(start, data, w, hi)[k - 1];
    }
  }

  lemma {:induction false} TagAt(s: Series, id: nat, j: int)
    requires 0 <= j < |s|
    ensures Tag(s, id)[j] == Row(s[j].time, s[j].value, id)
  {
    if j > 0 { TagAt(s[1..], id, j - 1); }
  }

  /**
   * The rows of the fixture's trades numbered from c on: row i is fill i,
   * and it belongs to the trade whose slice contains i.
   */
  lemma {:induction false} NumberedChunks(start: int, data: seq<real>, w: nat, lo: nat, c: nat)
    requires 0 < w && lo <= |data|
    requires lo == |data| || lo == c * w
    ensures var rows := Numbered(Chunks(start, data, w, lo), c);
      |rows| == |data| - lo &&
      forall i :: 0 <= i < |rows| ==>
        rows[i].time == start + lo + i && rows[i].amount == data[lo + i] &&
        rows[i].id * w <= lo + i < rows[i].id * w + w
    decreases |data| - lo
  {
    if lo < |data| {
      var hi := Min(lo + w, |data|);
      assert (c + 1) * w == c * w + w;
      NumberedChunks(start, data, w, hi, c + 1);
      var head := Tag(Window(start, data, lo, hi), c);
      var rows := Numbered(Chunks(start, data, w, lo), c);
      assert rows == head + Numbered(Chunks(start, data, w, hi), c + 1);
      forall i | 0 <= i < |head| ensures rows[i] == Row(start + lo + i, data[lo + i], c) {
        TagAt(Window(start, data, lo, hi), c, i);
      }
    }
  }

  /** The ids 0, 1, ..., n-1. */
  function Range(n: nat): (r: seq<nat>)
    ensures |r| == n && forall i :: 0 <= i < n ==> r[i] == i
  {
    seq(n, i requires 0 <= i < n => i)
  }

  lemma {:induction false} NumberedSnoc(series: seq<Series>, s: Series, first: nat)
    ensures Numbered(series + [s], first) == Numbered(series, first) + Tag(s, first + |series|)
  {
    if series == [] {
      assert [s][1..] == [];
    } else {
      var head := Tag(series[0], first);
      var rest := Numbered(series[1..], first + 1);
      var last := Tag(s, first + |series|);
      assert (series + [s])[1..] == series[1..] + [s];
      assert Numbered(series + [s], first) == head + Numbered(series[1..] + [s], first + 1);
      NumberedSnoc(series[1..], s, first + 1);
      assert Numbered(series, first) == head + rest;
      assert head + (rest + last) == (head + rest) + last;
    }
  }

  lemma {:induction false} IdColumnAppend(a: seq<Row>, b: seq<Row>)
    ensures IdColumn(a + b) == IdColumn(a) + IdColumn(b)
  {
    if a == [] {
      assert a + b == b;
    } else {
      assert (a + b)[1..] == a[1..] + b;
      IdColumnAppend(a[1..], b);
    }
  }

  lemma {:induction false} IdColumnTag(s: Series, id: nat)
    ensures IdColumn(Tag(s, id)) == seq(|s|, _ => id)
  {
    if s != [] { IdColumnTag(s[1..], id); }
  }

  /** A run of a new id adds that id once to the distinct ids. */
  lemma {:induction false} UniqueRun(c: seq<nat>, k: nat, m: nat)
    requires k !in c && m >= 1
    ensures Unique(c + seq(m, _ => k)) == Unique(c) + [k]
  {
    var s := c + seq(m, _ => k);
    if m == 1 {
      assert s[..|s| - 1] == c;
    } else {
      var init := c + seq(m - 1, _ => k);
      assert s[..|s| - 1] == init;
      UniqueRun(c, k, m - 1);
    }
  }

  /** Numbering non-empty trades gives them the ids 0 .. n-1, in that order of first appearance. */
  lemma {:induction false} UniqueNumbered(series: seq<Series>)
    requires forall k :: 0 <= k < |series| ==> series[k] != []
    ensures Unique(IdColumn(Numbered(series, 0))) == Range(|series|)
  {
    if series != [] {
      var n := |series|;
      var init, last := series[..n - 1], series[n - 1];
      assert series == init + [last];
      NumberedSnoc(init, last, 0);
      IdColumnAppend(Numbered(init, 0), Tag(last, n - 1));
      IdColumnTag(last, n - 1);
      UniqueNumbered(init);
      var c := IdColumn(Numbered(init, 0));
      assert n - 1 !in Unique(c);
      UniqueRun(c, n - 1, |last|);
      assert Range(n - 1) + [n - 1] == Range(n);
    }
  }

  /** The container the fixture builds: its rows are the numbered trades, already in time order. */
  lemma {:induction false} MakeTradesChunks(symbol: string, start: int, data: seq<real>, w: nat, currency: Currency)
    requires 0 < w
    ensures MakeTrades(symbol, Chunks(start, data, w, 0), currency, None).value.rows == Numbered(Chunks(start, data, w, 0), 0)
  {
    var rows := Numbered(Chunks(start, data, w, 0), 0);
    NumberedChunks(start, data, w, 0, 0);
    SortOrdered(rows);
  }

  /** ids of the fixture: one id per slice, 0, 1, ..., in order. */
  lemma {:induction false} ChunksIds(symbol: string, start: int, data: seq<real>, w: nat, currency: Currency)
    requires 0 < w
    ensures Ids(MakeTrades(symbol, Chunks(start, data, w, 0), currency, None).value) == Range(|Chunks(start, data, w, 0)|)
  {
    MakeTradesChunks(symbol, start, data, w, currency);
    ChunksShape(start, data, w, 0);
    UniqueNumbered(Chunks(start, data, w, 0));
  }

  /** amount of the fixture: the original column, point for point. */
  lemma {:induction false} ChunksAmount(symbol: string, start: int, data: seq<real>, w: nat, currency: Currency)
    requires 0 < w
    ensures Amount(MakeTrades(symbol, Chunks(start, data, w, 0), currency, None).value) == Window(start, data, 0, |data|)
  {
    MakeTradesAmount(symbol, Chunks(start, data, w, 0), currency, None);
    FlattenChunks(start, data, w, 0);
    CollapseIncreasing(Window(start, data, 0, |data|));
  }

  /** get_trade on the fixture: trade k is slice k. */
  lemma {:induction false} ChunksTrade(symbol: string, start: int, data: seq<real>, w: nat, currency: Currency, id: nat)
    requires 0 < w
    ensures var c := Chunks(start, data, w, 0);
      GetTrade(MakeTrades(symbol, c, currency, None).value, id) == if id < |c| then Ok(c[id]) else Err(LookupError)
  {
    ChunksShape(start, data, w, 0);
    MakeTradesNumbers(symbol, Chunks(start, data, w, 0), currency, id);
  }

  // ---------------------------------------------------------------------
  // A container concatenated with a copy of itself

  /** At most one fill per timestamp, in time order. */
  predicate Strict(rows: seq<Row>) {
    forall i, j :: 0 <= i < j < |rows| ==> rows[i].time < rows[j].time
  }

  /** Two containers filled at the same timestamps, one fill per timestamp. */
  predicate Paired(a: seq<Row>, b: seq<Row>) {
    |a| == |b| && Strict(a) && forall i :: 0 <= i < |a| ==> a[i].time == b[i].time
  }

  /** Row by row, a row of a followed by the row of b at the same position. */
  function Interleave(a: seq<Row>, b: seq<Row>): (r: seq<Row>)
    requires |a| == |b|
    ensures |r| == 2 * |a|
  {
    if a == [] then [] else [a[0], b[0]] + Interleave(a[1..], b[1..])
  }

  lemma {:induction false} InterleaveMember(a: seq<Row>, b: seq<Row>)
    requires |a| == |b|
    ensures forall x :: x in Interleave(a, b) <==> x in a || x in b
  {
    if a != [] {
      InterleaveMember(a[1..], b[1..]);
      assert a == [a[0]] + a[1..] && b == [b[0]] + b[1..];
    }
  }

  lemma {:induction false} WhereNone(rows: seq<Row>, t: int)
    requires forall i :: 0 <= i < |rows| ==> rows[i].time != t
    ensures Where(rows, AtTime(t)) == []
  {
    if rows != [] { WhereNone(rows[1..], t); }
  }

  lemma {:induction false} PairedTail(a: seq<Row>, b: seq<Row>)
    requires Paired(a, b) && a != []
    ensures Paired(a[1..], b[1..])
    ensures forall i :: 0 <= i < |a| - 1 ==> a[1..][i].time > a[0].time && b[1..][i].time > a[0].time
  {
  }

  lemma {:induction false} InterleaveWhere(a: seq<Row>, b: seq<Row>, t: int)
    requires Paired(a, b)
    ensures Where(Interleave(a, b), AtTime(t)) == Where(a, AtTime(t)) + Where(b, AtTime(t))
  {
    if a != [] {
      PairedTail(a, b);
      InterleaveWhere(a[1..], b[1..], t);
      var rest := Interleave(a[1..], b[1..]);
      WhereAppend([a[0], b[0]], rest, AtTime(t));
      assert [a[0], b[0]][1..] == [b[0]];
      if t == a[0].time {
        WhereNone(a[1..], t);
        WhereNone(b[1..], t);
      }
    }
  }

  lemma {:induction false} InterleaveOrdered(a: seq<Row>, b: seq<Row>)
    requires Paired(a, b)
    ensures Ordered(Interleave(a, b))
  {
    if a != [] {
      PairedTail(a, b);
      InterleaveOrdered(a[1..], b[1..]);
      var rest := Interleave(a[1..], b[1..]);
      InterleaveMember(a[1..], b[1..]);
      var r := Interleave(a, b);
      forall i, j | 0 <= i < j < |r| ensures r[i].time <= r[j].time {
        if j >= 2 {
          assert r[j] == rest[j - 2] && r[j] in rest;
          if i >= 2 { assert r[i] == rest[i - 2]; }
        }
      }
    }
  }

  /** Rows in time order are determined by the rows they list at each timestamp. */
  lemma {:induction false} OrderedDetermined(a: seq<Row>, b: seq<Row>)
    requires |a| == |b| && Ordered(a) && Ordered(b)
    requires forall t :: Where(a, AtTime(t)) == Where(b, AtTime(t))
    ensures a == b
  {
    if a != [] {
      var x, y := a[0], b[0];
      WhereMember(a, AtTime(y.time));
      WhereMember(b, AtTime(x.time));
      assert Where(a, AtTime(x.time))[0] == x;
      assert Where(b, AtTime(y.time))[0] == y;
      assert x in b && y in a;
      var i :| 0 <= i < |b| && b[i] == x;
      var j :| 0 <= j < |a| && a[j] == y;
      assert x.time == y.time;
      assert x == y;
      forall u ensures Where(a[1..], AtTime(u)) == Where(b[1..], AtTime(u)) {
        var h := if x.time == u then [x] else [];
        assert Where(a, AtTime(u)) == h + Where(a[1..], AtTime(u));
        assert Where(b, AtTime(u)) == h + Where(b[1..], AtTime(u));
        assert (h + Where(a[1..], AtTime(u)))[|h|..] == Where(a[1..], AtTime(u));
        assert (h + Where(b[1..], AtTime(u)))[|h|..] == Where(b[1..], AtTime(u));
      }
      OrderedDetermined(a[1..], b[1..]);
      assert a == [x] + a[1..] && b == [y] + b[1..];
    }
  }

  lemma {:induction false} AllRowsTwo(t1: Trades, t2: Trades)
    ensures AllRows([t1, t2]) == t1.rows + t2.rows
  {
    assert [t1, t2][1..] == [t2] && [t2][1..] == [];
    assert AllRows([t2]) == t2.rows + AllRows([]);
    assert t2.rows + [] == t2.rows;
  }

  /** concat of two containers filled at the same timestamps alternates their rows. */
  lemma {:induction false} ConcatPaired(t1: Trades, t2: Trades)
    requires Paired(t1.rows, t2.rows)
    ensures Concat([t1, t2]).value.rows == Interleave(t1.rows, t2.rows)
  {
    var list := [t1, t2];
    var rows := Concat(list).value.rows;
    AllRowsTwo(t1, t2);
    forall t ensures Where(rows, AtTime(t)) == Where(Interleave(t1.rows, t2.rows), AtTime(t)) {
      ConcatTies(list, t);
      WhereAppend(t1.rows, t2.rows, AtTime(t));
      InterleaveWhere(t1.rows, t2.rows, t);
    }
    InterleaveOrdered(t1.rows, t2.rows);
    OrderedDetermined(rows, Interleave(t1.rows, t2.rows));
  }

  /** Each id followed by itself moved up by off. */
  function Pairs(s: seq<nat>, off: nat): (r: seq<nat>)
    ensures |r| == 2 * |s|
  {
    if s == [] then [] else [s[0], s[0] + off] + Pairs(s[1..], off)
  }

  lemma {:induction false} PairsSnoc(s: seq<nat>, x: nat, off: nat)
    ensures Pairs(s + [x], off) == Pairs(s, off) + [x, x + off]
  {
    if s == [] {
      assert [x][1..] == [];
    } else {
      assert (s + [x])[1..] == s[1..] + [x];
      PairsSnoc(s[1..], x, off);
    }
  }

  lemma {:induction false} PairsMember(s: seq<nat>, off: nat, y: nat)
    ensures y in Pairs(s, off) <==> y in s || (y >= off && y - off in s)
  {
    if s != [] {
      PairsMember(s[1..], off, y);
      assert s == [s[0]] + s[1..];
    }
  }

  lemma {:induction false} ShiftRowsAt(rows: seq<Row>, off: nat, i: int)
    requires 0 <= i < |rows|
    ensures ShiftRows(rows, off)[i] == rows[i].(id := rows[i].id + off)
  {
    FillsShift(rows, off);
    if i > 0 {
      assert ShiftRows(rows, off)[1..] == ShiftRows(rows[1..], off);
      ShiftRowsAt(rows[1..], off, i - 1);
    }
  }

  lemma {:induction false} IdColumnInterleave(a: seq<Row>, off: nat)
    ensures IdColumn(Interleave(a, ShiftRows(a, off))) == Pairs(IdColumn(a), off)
  {
    if a != [] {
      var b := ShiftRows(a, off);
      assert b[1..] == ShiftRows(a[1..], off);
      IdColumnInterleave(a[1..], off);
      var rest := Interleave(a[1..], b[1..]);
      IdColumnAppend([a[0], b[0]], rest);
      assert [a[0], b[0]][1..] == [b[0]];
    }
  }

  lemma {:induction false} UniqueSnoc(s: seq<nat>, x: nat)
    ensures Unique(s + [x]) == if x in s then Unique(s) else Unique(s) + [x]
  {
    assert (s + [x])[..|s|] == s;
  }

  /** Doubling every id leaves the distinct ids as they were. */
  lemma {:induction false} UniquePairsZero(s: seq<nat>)
    ensures Unique(Pairs(s, 0)) == Unique(s)
  {
    if s != [] {
      var init, x := s[..|s| - 1], s[|s| - 1];
      assert s == init + [x];
      var p := Pairs(init, 0);
      PairsSnoc(init, x, 0);
      assert Pairs(s, 0) == (p + [x]) + [x];
      PairsMember(init, 0, x);
      UniqueSnoc(p + [x], x);
      UniqueSnoc(p, x);
      UniqueSnoc(init, x);
      UniquePairsZero(init);
    }
  }

  lemma {:induction false} PairsApartMember(s: seq<nat>, off: nat, x: nat)
    requires forall y :: y in s ==> y < off
    requires x < off
    ensures (x in Pairs(s, off)) == (x in s)
    ensures (x + off in Pairs(s, off) + [x]) == (x in s)
  {
    PairsMember(s, off, x);
    PairsMember(s, off, x + off);
    assert x + off !in s;
  }

  lemma {:induction false} UniquePairsStep(init: seq<nat>, x: nat, off: nat)
    requires forall y :: y in init ==> y < off
    requires x < off
    requires Unique(Pairs(init, off)) == Pairs(Unique(init), off)
    ensures Unique(Pairs(init + [x], off)) == Pairs(Unique(init + [x]), off)
  {
    var p := Pairs(init, off);
    assert Pairs(init + [x], off) == p + [x, x + off] by { PairsSnoc(init, x, off); }
    if x in init {
      assert Unique(p + [x, x + off]) == Unique(p) by { UniqueSeenPair(init, x, off); }
      assert Unique(init + [x]) == Unique(init) by { UniqueSnoc(init, x); }
    } else {
      var u := Unique(init);
      assert Unique(p + [x, x + off]) == Unique(p) + [x, x + off] by { UniqueFreshPair(init, x, off); }
      assert Unique(init + [x]) == u + [x] by { UniqueSnoc(init, x); }
      assert Pairs(u + [x], off) == Pairs(u, off) + [x, x + off] by { PairsSnoc(u, x, off); }
    }
  }

  /** Appending an id already present, and its partner, leaves the distinct paired ids unchanged. */
  lemma UniqueSeenPair(init: seq<nat>, x: nat, off: nat)
    requires forall y :: y in init ==> y < off
    requires x < off && x in init
    ensures Unique(Pairs(init, off) + [x, x + off]) == Unique(Pairs(init, off))
  {
    assert x in Pairs(init, off) && x + off in Pairs(init, off) + [x] by { PairsApartMember(init, off, x); }
    UniqueSeenTwo(Pairs(init, off), x, x + off);
  }

  /** Appending a new id and its partner appends both to the distinct paired ids. */
  lemma UniqueFreshPair(init: seq<nat>, x: nat, off: nat)
    requires forall y :: y in init ==> y < off
    requires x < off && x !in init
    ensures Unique(Pairs(init, off) + [x, x + off]) == Unique(Pairs(init, off)) + [x, x + off]
  {
    assert x !in Pairs(init, off) && x + off !in Pairs(init, off) + [x] by { PairsApartMember(init, off, x); }
    UniqueFreshTwo(Pairs(init, off), x, x + off);
  }

  /** Appending two ids seen before leaves the distinct ids unchanged. */
  lemma UniqueSeenTwo(s: seq<nat>, a: nat, b: nat)
    requires a in s && b in s + [a]
    ensures Unique(s + [a, b]) == Unique(s)
  {
    assert s + [a, b] == (s + [a]) + [b];
    UniqueSnoc(s + [a], b);
    UniqueSnoc(s, a);
  }

  /** Appending two ids, neither seen before, appends both to the distinct ids. */
  lemma UniqueFreshTwo(s: seq<nat>, a: nat, b: nat)
    requires a !in s && b !in s + [a]
    ensures Unique(s + [a, b]) == Unique(s) + [a, b]
  {
    assert s + [a, b] == (s + [a]) + [b];
    UniqueSnoc(s + [a], b);
    UniqueSnoc(s, a);
    assert (Unique(s) + [a]) + [b] == Unique(s) + [a, b];
  }

  /** Following each id by itself moved past every id pairs up the distinct ids the same way. */
  lemma {:induction false} UniquePairsApart(s: seq<nat>, off: nat)
    requires forall x :: x in s ==> x < off
    ensures Unique(Pairs(s, off)) == Pairs(Unique(s), off)
  {
    if s != [] {
      var init, x := s[..|s| - 1], s[|s| - 1];
      assert s == init + [x];
      assert x in s;
      forall y | y in init ensures y < off { assert y in s; }
      UniquePairsApart(init, off);
      UniquePairsStep(init, x, off);
    }
  }

  /** Every fill of a series counted twice. */
  function Doubled(s: Series): (r: Series)
    ensures |r| == |s| && forall i :: 0 <= i < |s| ==> r[i] == Point(s[i].time, 2.0 * s[i].value)
  {
    seq(|s|, i requires 0 <= i < |s| => Point(s[i].time, 2.0 * s[i].value))
  }

  lemma {:induction false} DoubledLookup(s: Series, t: int)
    ensures Times(Doubled(s)) == Times(s) && At(Doubled(s), t) == 2.0 * At(s, t)
  {
    if s != [] {
      assert Doubled(s)[1..] == Doubled(s[1..]);
      DoubledLookup(s[1..], t);
    }
  }

  /** Fills counted twice collapse into the collapsed fills doubled. */
  lemma {:induction false} CollapseTwice(f: Series, g: Series)
    requires Times(g) == Times(f) && forall t :: At(g, t) == At(f, t)
    ensures Collapse(f + g) == Doubled(Collapse(f))
  {
    TimesAppend(f, g);
    forall t ensures At(Collapse(f + g), t) == At(Doubled(Collapse(f)), t) {
      AtAppend(f, g, t);
      DoubledLookup(Collapse(f), t);
    }
    DoubledLookup(Collapse(f), 0);
    Determined(Collapse(f + g), Doubled(Collapse(f)));
  }

  /** concat of a container with a copy of itself keeps its ids, in their order. */
  lemma {:induction false} ConcatSelfIds(tr: Trades)
    requires Strict(tr.rows)
    ensures Ids(Concat([tr, tr]).value) == Ids(tr)
  {
    ConcatPaired(tr, tr);
    ShiftZero(tr.rows);
    IdColumnInterleave(tr.rows, 0);
    UniquePairsZero(IdColumn(tr.rows));
  }

  /** concat of two containers with the same fills doubles the amount. */
  lemma {:induction false} ConcatTwiceAmount(tr: Trades, copy: Trades)
    requires Fills(copy.rows) == Fills(tr.rows)
    ensures Amount(Concat([tr, copy]).value) == Doubled(Amount(tr))
  {
    AllRowsTwo(tr, copy);
    AmountOfRows(Concat([tr, copy]).value, AllRows([tr, copy]));
    FillsAppend(tr.rows, copy.rows);
    CollapseTwice(Fills(tr.rows), Fills(copy.rows));
  }

  /** The inputs of concat with refresh_id, for a container and a copy of itself. */
  lemma {:induction false} RefreshedSelf(tr: Trades)
    requires tr.rows != []
    ensures Refreshed([tr, tr], 0) == [tr, Shift(tr, MaxId(tr.rows) + 1)]
  {
    ShiftZero(tr.rows);
    assert [tr, tr][1..] == [tr] && [tr][1..] == [];
  }

  /** concat of a container with a copy whose ids are moved up by off alternates the two. */
  lemma {:induction false} ConcatShiftedRows(tr: Trades, off: nat)
    requires Strict(tr.rows)
    ensures Concat([tr, Shift(tr, off)]).value.rows == Interleave(tr.rows, ShiftRows(tr.rows, off))
  {
    var copy := Shift(tr, off);
    forall i | 0 <= i < |tr.rows| ensures copy.rows[i].time == tr.rows[i].time {
      ShiftRowsAt(tr.rows, off, i);
    }
    ConcatPaired(tr, copy);
  }

  /** When every id lies below off, rows alternating with their copies moved up by off pair each id with itself plus off. */
  lemma {:induction false} InterleavedIds(c: Trades, tr: Trades, off: nat)
    requires tr.rows != [] && MaxId(tr.rows) < off
    requires c.rows == Interleave(tr.rows, ShiftRows(tr.rows, off))
    ensures Ids(c) == Pairs(Ids(tr), off)
  {
    IdColumnInterleave(tr.rows, off);
    IdColumnSet(tr.rows);
    UniquePairsApart(IdColumn(tr.rows), off);
  }

  /** concat with refresh_id of a container with a copy of itself: each id k is followed by the copy's k + (largest id + 1). */
  lemma {:induction false} ConcatSelfRefreshIds(tr: Trades)
    requires Strict(tr.rows) && tr.rows != []
    ensures Ids(Concat(Refreshed([tr, tr], 0)).value) == Pairs(Ids(tr), MaxId(tr.rows) + 1)
  {
    RefreshedSelf(tr);
    RefreshedIds(Refreshed([tr, tr], 0), tr);
  }

  lemma {:induction false} RefreshedIds(list: seq<Trades>, tr: Trades)
    requires Strict(tr.rows) && tr.rows != []
    requires list == [tr, Shift(tr, MaxId(tr.rows) + 1)]
    ensures Ids(Concat(list).value) == Pairs(Ids(tr), MaxId(tr.rows) + 1)
  {
    ConcatShiftedRows(tr, MaxId(tr.rows) + 1);
    InterleavedIds(Concat(list).value, tr, MaxId(tr.rows) + 1);
  }

  /** concat of a container with a copy of its fills has twice its rows and twice its amount. */
  lemma {:induction false} ConcatCopyRows(tr: Trades, copy: Trades)
    requires Fills(copy.rows) == Fills(tr.rows)
    ensures var c := Concat([tr, copy]).value;
      c.symbol == tr.symbol && |c.rows| == 2 * |tr.rows| && Amount(c) == Doubled(Amount(tr))
  {
    ConcatLength([tr, copy]);
    assert [tr, copy][1..] == [copy] && [copy][1..] == [];
    assert TotalRows([tr, copy]) == |tr.rows| + |copy.rows| + TotalRows([]);
    ConcatTwiceAmount(tr, copy);
  }

  /** concat of a container with a copy of itself has twice its rows and twice its amount. */
  lemma {:induction false} ConcatSelfRows(tr: Trades)
    ensures var c := Concat([tr, tr]).value;
      c.symbol == tr.symbol && |c.rows| == 2 * |tr.rows| && Amount(c) == Doubled(Amount(tr))
  {
    ConcatCopyRows(tr, tr);
  }

  /** The same holds with refresh_id. */
  lemma {:induction false} ConcatRefreshRows(tr: Trades)
    requires tr.rows != []
    ensures var c := Concat(Refreshed([tr, tr], 0)).value;
      c.symbol == tr.symbol && |c.rows| == 2 * |tr.rows| && Amount(c) == Doubled(Amount(tr))
  {
    var list := Refreshed([tr, tr], 0);
    RefreshedSelf(tr);
    FillsShift(tr.rows, MaxId(tr.rows) + 1);
    assert list == [list[0], list[1]];
    ConcatCopyRows(list[0], list[1]);
  }

  // ---------------------------------------------------------------------
  // The fixture: ten one-minute amounts from minute 0 on, in pairs

  const Minutes: seq<real> := [1.0, -2.0, 1.0, 2.0, -4.0, 2.0, 1.0, 0.0, 1.0, 0.0]

  function Fixture(): Trades {
    MakeTrades("USDJPY", Chunks(0, Minutes, 2, 0), JPY, None).value
  }

  /** The five trades of the fixture. */
  lemma {:induction false} FixtureChunks()
    ensures Chunks(0, Minutes, 2, 0) == [
      [Point(0, 1.0), Point(1, -2.0)], [Point(2, 1.0), Point(3, 2.0)], [Point(4, -4.0), Point(5, 2.0)],
      [Point(6, 1.0), Point(7, 0.0)], [Point(8, 1.0), Point(9, 0.0)]]
  {
    assert Chunks(0, Minutes, 2, 10) == [];
    assert Window(0, Minutes, 8, 10) == [Point(8, 1.0), Point(9, 0.0)];
    assert Window(0, Minutes, 6, 8) == [Point(6, 1.0), Point(7, 0.0)];
    assert Window(0, Minutes, 4, 6) == [Point(4, -4.0), Point(5, 2.0)];
    assert Window(0, Minutes, 2, 4) == [Point(2, 1.0), Point(3, 2.0)];
    assert Window(0, Minutes, 0, 2) == [Point(0, 1.0), Point(1, -2.0)];
  }

  /** test_trades_ids */
  lemma {:induction false} TestTradesIds()
    ensures Ids(Fixture()) == [0, 1, 2, 3, 4]
  {
    ChunksIds("USDJPY", 0, Minutes, 2, JPY);
    FixtureChunks();
    RangeFive();
  }

  lemma {:induction false} RangeFive()
    ensures Range(5) == [0, 1, 2, 3, 4]
  {
  }

  /** test_trades_amount */
  lemma {:induction false} TestTradesAmount()
    ensures Amount(Fixture()) == [
      Point(0, 1.0), Point(1, -2.0), Point(2, 1.0), Point(3, 2.0), Point(4, -4.0),
      Point(5, 2.0), Point(6, 1.0), Point(7, 0.0), Point(8, 1.0), Point(9, 0.0)]
  {
    ChunksAmount("USDJPY", 0, Minutes, 2, JPY);
    MinutesWindow();
  }

  lemma {:induction false} MinutesWindow()
    ensures Window(0, Minutes, 0, 10) == [
      Point(0, 1.0), Point(1, -2.0), Point(2, 1.0), Point(3, 2.0), Point(4, -4.0),
      Point(5, 2.0), Point(6, 1.0), Point(7, 0.0), Point(8, 1.0), Point(9, 0.0)]
  {
  }

  /** test_trades_get_trade */
  lemma {:induction false} TestGetTrade()
    ensures GetTrade(Fixture(), 0) == Ok([Point(0, 1.0), Point(1, -2.0)])
  {
    ChunksTrade("USDJPY", 0, Minutes, 2, JPY, 0);
    FixtureChunks();
  }

  /** The mask of the get_any and get_all tests: minutes 0, 4 and 5 of each hour. */
  predicate MinuteMask(t: int) {
    t % 60 == 0 || t % 60 == 4 || t % 60 == 5
  }

  /** Row i of the fixture is fill i, at minute i, in trade i / 2. */
  lemma {:induction false} FixtureShape()
    ensures FixtureLayout(Fixture().rows)
    ensures Fixture().symbol == "USDJPY"
  {
    MakeTradesChunks("USDJPY", 0, Minutes, 2, JPY);
    NumberedChunks(0, Minutes, 2, 0, 0);
  }

  /** Rows laid out as the fixture's: row i at minute i, in trade i / 2. */
  predicate FixtureLayout(rows: seq<Row>) {
    |rows| == 10 && forall i :: 0 <= i < 10 ==> rows[i].time == i && 2 * rows[i].id <= i < 2 * rows[i].id + 2
  }

  lemma {:induction false} LayoutMasked(rows: seq<Row>)
    requires FixtureLayout(rows)
    ensures AnyIds(rows, MinuteMask) == {0, 2}
    ensures SomeUnmasked(rows, MinuteMask) == {0, 1, 3, 4}
  {
    forall id | id in AnyIds(rows, MinuteMask) ensures id == 0 || id == 2 {
      var x :| x in rows && MinuteMask(x.time) && x.id == id;
      var i :| 0 <= i < |rows| && rows[i] == x;
    }
    assert rows[0] in rows && rows[4] in rows;
    forall id | id in SomeUnmasked(rows, MinuteMask) ensures id != 2 && id <= 4 {
      var x :| x in rows && !MinuteMask(x.time) && x.id == id;
      var i :| 0 <= i < |rows| && rows[i] == x;
    }
    assert rows[1] in rows && rows[2] in rows && rows[6] in rows && rows[8] in rows;
  }

  /** The series whose ids, numbered from first on, lie in ids, in list order. */
  function Chosen(series: seq<Series>, first: nat, ids: set<nat>): seq<Series> {
    if series == [] then [] else (if first in ids then [series[0]] else []) + Chosen(series[1..], first + 1, ids)
  }

  lemma {:induction false} WhereTagIn(s: Series, id: nat, ids: set<nat>)
    ensures Where(Tag(s, id), WithIdIn(ids)) == if id in ids then Tag(s, id) else []
  {
    if s != [] { WhereTagIn(s[1..], id, ids); }
  }

  /** Selecting numbered trades by a set of ids keeps exactly the fills of the chosen series. */
  lemma {:induction false} FillsChosen(series: seq<Series>, first: nat, ids: set<nat>)
    ensures Fills(Where(Numbered(series, first), WithIdIn(ids))) == Flatten(Chosen(series, first, ids))
  {
    if series != [] {
      var sel := WithIdIn(ids);
      var head, rest := Tag(series[0], first), Numbered(series[1..], first + 1);
      FillsChosen(series[1..], first + 1, ids);
      WhereAppend(head, rest, sel);
      WhereTagIn(series[0], first, ids);
      FillsAppend(Where(head, sel), Where(rest, sel));
      FillsTag(series[0], first);
      var tail := Chosen(series[1..], first + 1, ids);
      if first in ids {
        assert ([series[0]] + tail)[1..] == tail;
      } else {
        assert [] + tail == tail;
        assert Fills([]) == [];
      }
    }
  }

  /** The fills of trades 0 and 2 of the fixture. */
  lemma {:induction false} ChosenAny()
    ensures Flatten(Chosen([
      [Point(0, 1.0), Point(1, -2.0)], [Point(2, 1.0), Point(3, 2.0)], [Point(4, -4.0), Point(5, 2.0)],
      [Point(6, 1.0), Point(7, 0.0)], [Point(8, 1.0), Point(9, 0.0)]], 0, {0, 2})) == [Point(0, 1.0), Point(1, -2.0), Point(4, -4.0), Point(5, 2.0)]
  {
  }

  /** The fills of trade 2 of the fixture. */
  lemma {:induction false} ChosenAll()
    ensures Flatten(Chosen([
      [Point(0, 1.0), Point(1, -2.0)], [Point(2, 1.0), Point(3, 2.0)], [Point(4, -4.0), Point(5, 2.0)],
      [Point(6, 1.0), Point(7, 0.0)], [Point(8, 1.0), Point(9, 0.0)]], 0, {2})) == [Point(4, -4.0), Point(5, 2.0)]
  {
  }

  lemma {:induction false} CollapseAny()
    ensures Collapse([Point(0, 1.0), Point(1, -2.0), Point(4, -4.0), Point(5, 2.0)]) == [Point(0, 1.0), Point(1, -2.0), Point(4, -4.0), Point(5, 2.0)]
  {
    CollapseIncreasing([Point(0, 1.0), Point(1, -2.0), Point(4, -4.0), Point(5, 2.0)]);
  }

  lemma {:induction false} CollapseAll()
    ensures Collapse([Point(4, -4.0), Point(5, 2.0)]) == [Point(4, -4.0), Point(5, 2.0)]
  {
    CollapseIncreasing([Point(4, -4.0), Point(5, 2.0)]);
  }

  /** test_trades_get_any: the trades with a fill at minute 0, 4 or 5 are trades 0 and 2, whole. */
  lemma {:induction false} TestTradesGetAny()
    ensures Amount(GetAny(Fixture(), MinuteMask)) == [Point(0, 1.0), Point(1, -2.0), Point(4, -4.0), Point(5, 2.0)]
  {
    FixtureShape();
    LayoutMasked(Fixture().rows);
    MakeTradesChunks("USDJPY", 0, Minutes, 2, JPY);
    FixtureChunks();
    FillsChosen(Chunks(0, Minutes, 2, 0), 0, {0, 2});
    ChosenAny();
    CollapseAny();
  }

  /** test_trades_get_all: only trade 2 has every fill at minute 0, 4 or 5. */
  lemma {:induction false} TestTradesGetAll()
    ensures Amount(GetAll(Fixture(), MinuteMask)) == [Point(4, -4.0), Point(5, 2.0)]
  {
    FixtureShape();
    LayoutMasked(Fixture().rows);
    assert {0, 2} - {0, 1, 3, 4} == {2};
    MakeTradesChunks("USDJPY", 0, Minutes, 2, JPY);
    FixtureChunks();
    FillsChosen(Chunks(0, Minutes, 2, 0), 0, {2});
    ChosenAll();
    CollapseAll();
  }

  /** Rows laid out as the fixture's fill once per minute, and their largest trade id is 4. */
  lemma {:induction false} LayoutStrict(rows: seq<Row>)
    requires FixtureLayout(rows)
    ensures Strict(rows) && rows != []
    ensures MaxId(rows) == 4
  {
    var m := MaxId(rows);
    assert rows[9] in rows && rows[9].id == 4;
    assert 4 in IdSet(rows);
    var x :| x in rows && x.id == m;
    var i :| 0 <= i < |rows| && rows[i] == x;
    assert x.id <= 4;
  }

  /** concat of a container with ids 0 to 4 and a copy of itself keeps those ids. */
  lemma {:induction false} ConcatFiveIds(tr: Trades)
    requires FixtureLayout(tr.rows) && Ids(tr) == [0, 1, 2, 3, 4]
    ensures Ids(Concat([tr, tr]).value) == [0, 1, 2, 3, 4]
  {
    LayoutStrict(tr.rows);
    ConcatSelfIds(tr);
  }

  /** With refresh_id the copy's trades become 5 to 9, each next to its original. */
  lemma {:induction false} ConcatRefreshFiveIds(tr: Trades)
    requires FixtureLayout(tr.rows) && Ids(tr) == [0, 1, 2, 3, 4]
    ensures Ids(Concat(Refreshed([tr, tr], 0)).value) == [0, 5, 1, 6, 2, 7, 3, 8, 4, 9]
  {
    LayoutStrict(tr.rows);
    ConcatSelfRefreshIds(tr);
    PairsFive();
  }

  lemma {:induction false} PairsFive()
    ensures Pairs([0, 1, 2, 3, 4], 5) == [0, 5, 1, 6, 2, 7, 3, 8, 4, 9]
  {
  }

  /** test_concat without refresh_id: the symbol, twice the rows, the same ids, twice the amount. */
  lemma {:induction false} TestConcat()
    ensures var c := Concat([Fixture(), Fixture()]).value;
      c.symbol == "USDJPY" && |c.rows| == 20 && Ids(c) == [0, 1, 2, 3, 4] && Amount(c) == Doubled(Amount(Fixture()))
  {
    FixtureShape();
    TestTradesIds();
    ConcatFiveIds(Fixture());
    ConcatSelfRows(Fixture());
  }

  /** test_concat with refresh_id. */
  lemma {:induction false} TestConcatRefresh()
    ensures var c := Concat(Refreshed([Fixture(), Fixture()], 0)).value;
      c.symbol == "USDJPY" && |c.rows| == 20 && Ids(c) == [0, 5, 1, 6, 2, 7, 3, 8, 4, 9] && Amount(c) == Doubled(Amount(Fixture()))
  {
    FixtureShape();
    TestTradesIds();
    ConcatRefreshFiveIds(Fixture());
    ConcatRefreshRows(Fixture());
  }

  /** test_make_trade: two fills at two times stay two points. */
  lemma {:induction false} TestMakeTradeDistinct()
    ensures MakeTrade([Point(0, 0.0), Point(1, 1.0)]) == [Point(0, 0.0), Point(1, 1.0)]
  {
    CollapseIncreasing([Point(0, 0.0), Point(1, 1.0)]);
  }

  /** test_make_trade: two fills at one time are summed. */
  lemma {:induction false} TestMakeTradeSummed()
    ensures MakeTrade([Point(0, 0.0), Point(0, 1.0)]) == [Point(0, 1.0)]
  {
    var f := [Point(0, 0.0), Point(0, 1.0)];
    forall t ensures At(MakeTrade(f), t) == At([Point(0, 1.0)], t) {
      assert f[1..] == [Point(0, 1.0)] && f[1..][1..] == [];
    }
    Determined(MakeTrade(f), [Point(0, 1.0)]);
  }

  /** test_make_trade: fills out of order are summed per time and put in time order. */
  lemma {:induction false} TestMakeTradeUnordered()
    ensures MakeTrade([Point(1, 1.0), Point(0, 1.0), Point(0, 0.0)]) == [Point(0, 1.0), Point(1, 1.0)]
  {
    var f := [Point(1, 1.0), Point(0, 1.0), Point(0, 0.0)];
    var g := [Point(0, 1.0), Point(1, 1.0)];
    forall t ensures At(MakeTrade(f), t) == At(g, t) {
      assert f[1..] == [Point(0, 1.0), Point(0, 0.0)] && f[1..][1..] == [Point(0, 0.0)] && f[1..][1..][1..] == [];
      assert g[1..] == [Point(1, 1.0)] && g[1..][1..] == [];
    }
    Determined(MakeTrade(f), g);
  }
}
