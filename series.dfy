/**
 * Time-indexed series of signed quantities. A timestamp is an integer step;
 * a series is a sequence of (time, value) points, and looking a time up sums
 * every point recorded at it, with zero for a time that never occurs.
 */
module TimeSeries {

  datatype Point = Point(time: int, value: real)

  type Series = seq<Point>

  /** Every timestamp occurs at most once and times strictly increase. */
  predicate Increasing(s: Series) {
    forall i, j :: 0 <= i < j < |s| ==> s[i].time < s[j].time
  }

  function Times(s: Series): set<int> {
    if s == [] then {} else {s[0].time} + Times(s[1..])
  }

  /** Every point of s lies strictly after time lo. */
  predicate After(s: Series, lo: int) {
    forall i :: 0 <= i < |s| ==> s[i].time > lo
  }

  lemma {:induction false} InTimes(s: Series, i: int)
    requires 0 <= i < |s|
    ensures s[i].time in Times(s)
  {
    if i > 0 { InTimes(s[1..], i - 1); }
  }

  lemma {:induction false} TimesAfter(s: Series, lo: int)
    requires After(s, lo)
    ensures forall t :: t in Times(s) ==> t > lo
  {
    if s != [] { TimesAfter(s[1..], lo); }
  }

  /** The sum of the values recorded at time t, zero when t does not occur. */
  function At(s: Series, t: int): real {
    if s == [] then 0.0 else (if s[0].time == t then s[0].value else 0.0) + At(s[1..], t)
  }

  /** The sum of a sequence of reals, taken from the front. */
  function Sum(s: seq<real>): real {
    if s == [] then 0.0 else Sum(s[..|s| - 1]) + s[|s| - 1]
  }

  lemma {:induction false} SumAppend(a: seq<real>, b: seq<real>)
    ensures Sum(a + b) == Sum(a) + Sum(b)
    decreases |b|
  {
    if b != [] {
      assert (a + b)[..|a + b| - 1] == a + b[..|b| - 1];
      SumAppend(a, b[..|b| - 1]);
    } else {
      assert a + b == a;
    }
  }

  lemma {:induction false} TimesAppend(a: Series, b: Series)
    ensures Times(a + b) == Times(a) + Times(b)
  {
    if a == [] {
      assert a + b == b;
    } else {
      assert (a + b)[1..] == a[1..] + b;
      TimesAppend(a[1..], b);
    }
  }

  lemma {:induction false} AtAppend(a: Series, b: Series, t: int)
    ensures At(a + b, t) == At(a, t) + At(b, t)
  {
    if a != [] {
      assert (a + b)[1..] == a[1..] + b;
      AtAppend(a[1..], b, t);
    } else {
      assert a + b == b;
    }
  }

  lemma {:induction false} AtAbsent(s: Series, t: int)
    requires t !in Times(s)
    ensures At(s, t) == 0.0
  {
    if s != [] { AtAbsent(s[1..], t); }
  }

  /** In an increasing series the first point's time occurs nowhere else. */
  lemma HeadOnce(s: Series)
    requires Increasing(s) && s != []
    ensures s[0].time !in Times(s[1..])
    ensures At(s, s[0].time) == s[0].value
  {
    assert After(s[1..], s[0].time);
    TimesAfter(s[1..], s[0].time);
    AtAbsent(s[1..], s[0].time);
  }

  /** In an increasing series, looking up the time of a point gives that point's value. */
  lemma {:induction false} AtIndex(s: Series, i: int)
    requires Increasing(s) && 0 <= i < |s|
    ensures At(s, s[i].time) == s[i].value
  {
    if i == 0 {
      HeadOnce(s);
    } else {
      AtIndex(s[1..], i - 1);
    }
  }

  /**
   * An increasing series whose timestamps all lie in [lo, hi) and include lo
   * starts at lo.
   */
  lemma SpanFirst(s: Series, lo: int, hi: int)
    requires Increasing(s) && lo in Times(s)
    requires forall t :: t in Times(s) ==> lo <= t < hi
    ensures s != [] && s[0].time == lo
    ensures forall p :: p in s ==> lo <= p.time < hi
  {
    forall p | p in s ensures lo <= p.time < hi {
      var i :| 0 <= i < |s| && s[i] == p;
      InTimes(s, i);
    }
    InTimes(s, 0);
    assert After(s, s[0].time - 1);
    TimesAfter(s, s[0].time - 1);
  }

  /** Extending a prefix by one point adds that point's contribution at its time. */
  lemma AtPrefix(s: Series, n: int, t: int)
    requires 0 <= n < |s|
    ensures At(s[..n + 1], t) == At(s[..n], t) + (if s[n].time == t then s[n].value else 0.0)
  {
    assert s[..n + 1] == s[..n] + [s[n]];
    AtSnoc(s[..n], s[n], t);
  }

  /** Extending a prefix by one point adds that point's time. */
  lemma TimesPrefix(s: Series, n: int)
    requires 0 <= n < |s|
    ensures Times(s[..n + 1]) == Times(s[..n]) + {s[n].time}
  {
    assert s[..n + 1] == s[..n] + [s[n]];
    TimesAppend(s[..n], [s[n]]);
    assert [s[n]][1..] == [];
  }

  /** Adds one fill of v at time t: it joins the point already at t, or becomes a new point in time order. */
  function AddFill(s: Series, t: int, v: real): Series {
    if s == [] then [Point(t, v)]
    else if t < s[0].time then [Point(t, v)] + s
    else if t == s[0].time then [Point(t, s[0].value + v)] + s[1..]
    else [s[0]] + AddFill(s[1..], t, v)
  }

  lemma {:induction false} AddFillSpec(s: Series, t: int, v: real)
    requires Increasing(s)
    ensures Increasing(AddFill(s, t, v))
    ensures Times(AddFill(s, t, v)) == Times(s) + {t}
    ensures forall u :: At(AddFill(s, t, v), u) == At(s, u) + (if u == t then v else 0.0)
  {
    var r := AddFill(s, t, v);
    if s == [] {
    } else if t < s[0].time {
      assert r[1..] == s;
    } else if t == s[0].time {
      assert r[1..] == s[1..];
    } else {
      var rest := AddFill(s[1..], t, v);
      AddFillSpec(s[1..], t, v);
      assert r[1..] == rest;
      assert After(s[1..], s[0].time);
      TimesAfter(s[1..], s[0].time);
      forall j | 0 <= j < |rest| ensures rest[j].time > s[0].time { InTimes(rest, j); }
    }
  }

  /**
   * Collapses a series so that each timestamp occurs once, holding the sum of
   * the values recorded at it, with the points in time order.
   */
  function Collapse(s: Series): (r: Series)
    ensures Increasing(r)
    ensures Times(r) == Times(s)
    ensures forall t :: At(r, t) == At(s, t)
  {
    if s == [] then []
    else
      var init, last := s[..|s| - 1], s[|s| - 1];
      var c := Collapse(init);
      assert s == init + [last];
      TimesAppend(init, [last]);
      AddFillSpec(c, last.time, last.value);
      assert forall t :: At(s, t) == At(init, t) + (if last.time == t then last.value else 0.0) by {
        forall t ensures At(s, t) == At(init, t) + (if last.time == t then last.value else 0.0) {
          AtSnoc(init, last, t);
        }
      }
      AddFill(c, last.time, last.value)
  }

  /** An increasing series is determined by its timestamps and the values at them. */
  lemma {:induction false} Determined(a: Series, b: Series)
    requires Increasing(a) && Increasing(b)
    requires Times(a) == Times(b)
    requires forall t :: At(a, t) == At(b, t)
    ensures a == b
    decreases |a|
  {
    if a != [] && b != [] {
      InTimes(a, 0);
      InTimes(b, 0);
      assert After(a[1..], a[0].time);
      assert After(b[1..], b[0].time);
      TimesAfter(a[1..], a[0].time);
      TimesAfter(b[1..], b[0].time);
      assert a[0].time == b[0].time;
      HeadOnce(a);
      HeadOnce(b);
      assert a[0] == b[0];
      forall t ensures At(a[1..], t) == At(b[1..], t) {
        assert At(a, t) == At(b, t);
      }
      Determined(a[1..], b[1..]);
      assert a == [a[0]] + a[1..];
      assert b == [b[0]] + b[1..];
    }
  }

  /** Collapsing an already increasing series changes nothing. */
  lemma CollapseIncreasing(s: Series)
    requires Increasing(s)
    ensures Collapse(s) == s
  {
    Determined(Collapse(s), s);
  }

  lemma AtSnoc(s: Series, x: Point, t: int)
    ensures At(s + [x], t) == At(s, t) + (if x.time == t then x.value else 0.0)
  {
    AtAppend(s, [x], t);
    assert [x][1..] == [];
  }

  /** Dropping the point at index i from b removes exactly its contribution. */
  lemma AtRemove(b: Series, i: int, t: int)
    requires 0 <= i < |b|
    ensures At(b, t) == At(b[..i] + b[i + 1..], t) + (if b[i].time == t then b[i].value else 0.0)
  {
    assert b == (b[..i] + [b[i]]) + b[i + 1..];
    AtAppend(b[..i] + [b[i]], b[i + 1..], t);
    AtSnoc(b[..i], b[i], t);
    AtAppend(b[..i], b[i + 1..], t);
  }

  lemma {:induction false} TimesRemove(b: Series, i: int)
    requires 0 <= i < |b|
    ensures Times(b) == Times(b[..i] + b[i + 1..]) + {b[i].time}
  {
    var p, q := b[..i], b[i + 1..];
    var r := [b[i]] + q;
    assert Times(r) == {b[i].time} + Times(q) by { assert r[1..] == q; }
    assert Times(b) == Times(p) + Times(r) by { assert b == p + r; TimesAppend(p, r); }
    assert Times(p + q) == Times(p) + Times(q) by { TimesAppend(p, q); }
  }

  /** Matching the head of a against some element of b leaves two tails that are again permutations. */
  lemma MatchHead<T>(a: seq<T>, b: seq<T>) returns (i: int)
    requires a != [] && multiset(a) == multiset(b)
    ensures 0 <= i < |b| && b[i] == a[0]
    ensures multiset(a[1..]) == multiset(b[..i] + b[i + 1..])
  {
    assert a[0] in multiset(b);
    i :| 0 <= i < |b| && b[i] == a[0];
    assert b == b[..i] + [b[i]] + b[i + 1..];
    assert a == [a[0]] + a[1..];
    calc {
      multiset(a[1..]);
      multiset(a) - multiset{a[0]};
      multiset(b) - multiset{b[i]};
      multiset(b[..i]) + multiset(b[i + 1..]);
      multiset(b[..i] + b[i + 1..]);
    }
  }

  /** Looking a time up does not depend on the order of the points. */
  lemma {:induction false} AtPermutation(a: Series, b: Series, t: int)
    requires multiset(a) == multiset(b)
    ensures At(a, t) == At(b, t)
    decreases |a|
  {
    if a == [] {
      assert |b| == |multiset(b)| == 0;
    } else {
      var i := MatchHead(a, b);
      AtPermutation(a[1..], b[..i] + b[i + 1..], t);
      AtRemove(b, i, t);
    }
  }

  lemma {:induction false} TimesPermutation(a: Series, b: Series)
    requires multiset(a) == multiset(b)
    ensures Times(a) == Times(b)
    decreases |a|
  {
    if a == [] {
      assert |b| == |multiset(b)| == 0;
    } else {
      var i := MatchHead(a, b);
      TimesPermutation(a[1..], b[..i] + b[i + 1..]);
      TimesRemove(b, i);
    }
  }

  /** Collapsing does not depend on the order in which the points arrive. */
  lemma CollapseOrderFree(a: Series, b: Series)
    requires multiset(a) == multiset(b)
    ensures Collapse(a) == Collapse(b)
  {
    forall t ensures At(a, t) == At(b, t) { AtPermutation(a, b, t); }
    TimesPermutation(a, b);
    Determined(Collapse(a), Collapse(b));
  }
}
