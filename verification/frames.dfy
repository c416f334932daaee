/** Nullable cells: a missing value in a table column. */
module Wrappers {
  datatype Option<+T> = None | Some(value: T)
}

/**
 * The few data-frame primitives the dashboards rely on, stated over
 * sequences of records: boolean-mask selection, column sums, column
 * maxima and the number of distinct values in a column.
 */
module Frames {

  /** The rows of `rows` that satisfy `keep`, in their original order. */
  function Filter<T(!new)>(rows: seq<T>, keep: T -> bool): (r: seq<T>)
    ensures |r| <= |rows|
    ensures forall x :: x in r <==> x in rows && keep(x)
  {
    if rows == [] then []
    else
      assert rows == [rows[0]] + rows[1..];
      (if keep(rows[0]) then [rows[0]] else []) + Filter(rows[1..], keep)
  }

  /** Selection keeps each row exactly as often as the input holds it, or drops it. */
  lemma {:induction false} FilterMultiset<T(!new)>(rows: seq<T>, keep: T -> bool)
    ensures forall x :: multiset(Filter(rows, keep))[x] == if keep(x) then multiset(rows)[x] else 0
  {
    if rows != [] {
      FilterMultiset(rows[1..], keep);
      assert rows == [rows[0]] + rows[1..];
    }
  }

  /** A mask every row passes keeps the table as it is. */
  lemma {:induction false} FilterAll<T(!new)>(rows: seq<T>, keep: T -> bool)
    requires forall x :: x in rows ==> keep(x)
    ensures Filter(rows, keep) == rows
  {
    if rows != [] {
      FilterAll(rows[1..], keep);
    }
  }

  /** Selection distributes over concatenation: it keeps the relative order of rows. */
  lemma {:induction false} FilterConcat<T(!new)>(a: seq<T>, b: seq<T>, keep: T -> bool)
    ensures Filter(a + b, keep) == Filter(a, keep) + Filter(b, keep)
  {
    if a == [] {
      assert a + b == b;
    } else {
      var ab := a + b;
      assert ab[0] == a[0] && ab[1..] == a[1..] + b;
      FilterConcat(a[1..], b, keep);
      var head := if keep(a[0]) then [a[0]] else [];
      calc {
        Filter(ab, keep);
        head + Filter(a[1..] + b, keep);
        head + (Filter(a[1..], keep) + Filter(b, keep));
        (head + Filter(a[1..], keep)) + Filter(b, keep);
        Filter(a, keep) + Filter(b, keep);
      }
    }
  }

  /** Selecting twice with a stronger second mask is selecting once with it. */
  lemma {:induction false} FilterTwice<T(!new)>(rows: seq<T>, wide: T -> bool, narrow: T -> bool)
    requires forall x :: narrow(x) ==> wide(x)
    ensures Filter(Filter(rows, wide), narrow) == Filter(rows, narrow)
  {
    if rows != [] {
      FilterTwice(rows[1..], wide, narrow);
      var head := if wide(rows[0]) then [rows[0]] else [];
      FilterConcat(head, Filter(rows[1..], wide), narrow);
    }
  }

  /** Two selections commute. */
  lemma {:induction false} FilterCommute<T(!new)>(rows: seq<T>, p: T -> bool, q: T -> bool)
    ensures Filter(Filter(rows, p), q) == Filter(Filter(rows, q), p)
  {
    if rows != [] {
      FilterCommute(rows[1..], p, q);
      var hp := if p(rows[0]) then [rows[0]] else [];
      var hq := if q(rows[0]) then [rows[0]] else [];
      FilterConcat(hp, Filter(rows[1..], p), q);
      FilterConcat(hq, Filter(rows[1..], q), p);
    }
  }

  /** A column of the table as the sequence of its cells. */
  function Column<T, V>(rows: seq<T>, f: T -> V): (c: seq<V>)
    ensures |c| == |rows|
    ensures forall i :: 0 <= i < |rows| ==> c[i] == f(rows[i])
  {
    seq(|rows|, i requires 0 <= i < |rows| => f(rows[i]))
  }

  /** The sum of a numeric column; `w` reads the column off a row. */
  function Sum<T>(rows: seq<T>, w: T -> int): int
  {
    if rows == [] then 0 else w(rows[0]) + Sum(rows[1..], w)
  }

  /** Constant weight one: summing it counts rows. */
  function One<T>(x: T): int { 1 }

  lemma {:induction false} SumOne<T>(rows: seq<T>)
    ensures Sum(rows, One) == |rows|
  {
    if rows != [] {
      SumOne(rows[1..]);
    }
  }

  lemma {:induction false} SumConcat<T>(a: seq<T>, b: seq<T>, w: T -> int)
    ensures Sum(a + b, w) == Sum(a, w) + Sum(b, w)
  {
    if a == [] {
      assert a + b == b;
    } else {
      assert (a + b)[0] == a[0];
      assert (a + b)[1..] == a[1..] + b;
      SumConcat(a[1..], b, w);
    }
  }

  /** Taking one row out of a sum. */
  lemma SumRemove<T>(s: seq<T>, i: int, w: T -> int)
    requires 0 <= i < |s|
    ensures Sum(s, w) == w(s[i]) + Sum(s[..i] + s[i + 1..], w)
  {
    assert s == s[..i] + ([s[i]] + s[i + 1..]);
    SumConcat(s[..i], [s[i]] + s[i + 1..], w);
    assert ([s[i]] + s[i + 1..])[1..] == s[i + 1..];
    SumConcat(s[..i], s[i + 1..], w);
  }

  /** A column sum does not depend on the order of the rows. */
  lemma {:induction false} SumPermutation<T>(a: seq<T>, b: seq<T>, w: T -> int)
    requires multiset(a) == multiset(b)
    ensures Sum(a, w) == Sum(b, w)
    decreases |a|
  {
    if a != [] {
      assert a[0] in multiset(b);
      var i :| 0 <= i < |b| && b[i] == a[0];
      RemoveAt(b, i);
      assert a == [a[0]] + a[1..];
      assert multiset(a[1..]) == multiset(a) - multiset{a[0]};
      SumPermutation(a[1..], b[..i] + b[i + 1..], w);
      SumRemove(b, i, w);
    } else {
      assert |b| == |multiset(b)| == 0;
    }
  }

  /** Cutting out the row at `i` removes one occurrence of it. */
  lemma RemoveAt<T>(b: seq<T>, i: int)
    requires 0 <= i < |b|
    ensures multiset(b[..i] + b[i + 1..]) == multiset(b) - multiset{b[i]}
  {
    assert b == b[..i] + [b[i]] + b[i + 1..];
  }

  /** With non-negative weights, dropping rows never increases the sum. */
  lemma {:induction false} SumFilterAtMost<T(!new)>(rows: seq<T>, keep: T -> bool, w: T -> int)
    requires forall x :: x in rows ==> w(x) >= 0
    ensures Sum(Filter(rows, keep), w) <= Sum(rows, w)
  {
    if rows != [] {
      SumFilterAtMost(rows[1..], keep, w);
      var head := if keep(rows[0]) then [rows[0]] else [];
      SumConcat(head, Filter(rows[1..], keep), w);
    }
  }

  /** The largest value of a column over a non-empty table. */
  function MaxOf<T>(rows: seq<T>, f: T -> int): int
    requires rows != []
  {
    if |rows| == 1 then f(rows[0])
    else
      var rest := MaxOf(rows[1..], f);
      if f(rows[0]) >= rest then f(rows[0]) else rest
  }

  /** The maximum is a value of the column, and no cell exceeds it. */
  lemma {:induction false} MaxOfSpec<T>(rows: seq<T>, f: T -> int)
    requires rows != []
    ensures exists x :: x in rows && f(x) == MaxOf(rows, f)
    ensures forall x :: x in rows ==> f(x) <= MaxOf(rows, f)
  {
    if |rows| == 1 {
      assert rows[0] in rows;
    } else {
      MaxOfSpec(rows[1..], f);
      assert forall x :: x in rows ==> x == rows[0] || x in rows[1..];
      if f(rows[0]) < MaxOf(rows[1..], f) {
        var y :| y in rows[1..] && f(y) == MaxOf(rows[1..], f);
        assert y in rows;
      } else {
        assert rows[0] in rows;
      }
    }
  }

  /** The set of values a column takes (its size is pandas' `nunique`). */
  function Values<T, V(==,!new)>(rows: seq<T>, val: T -> V): set<V>
  {
    if rows == [] then {} else {val(rows[0])} + Values(rows[1..], val)
  }

  /**
   * A value is listed exactly when some row has it; there are no more
   * distinct values than rows, and a non-empty column has at least one.
   */
  lemma {:induction false} ValuesSpec<T, V(!new)>(rows: seq<T>, val: T -> V)
    ensures forall v :: v in Values(rows, val) <==> exists x :: x in rows && val(x) == v
    ensures |Values(rows, val)| <= |rows|
    ensures rows != [] ==> |Values(rows, val)| >= 1
  {
    if rows != [] {
      ValuesSpec(rows[1..], val);
      assert forall x :: x in rows ==> x == rows[0] || x in rows[1..];
    }
  }

  /** The largest value depends only on which rows are present. */
  lemma MaxOfSameRows<T>(a: seq<T>, b: seq<T>, f: T -> int)
    requires a != [] && forall x :: x in a <==> x in b
    ensures b != [] && MaxOf(a, f) == MaxOf(b, f)
  {
    assert a[0] in b;
    MaxOfSpec(a, f);
    MaxOfSpec(b, f);
  }

  /** The set of values depends only on which rows are present. */
  lemma ValuesSameRows<T, V(!new)>(a: seq<T>, b: seq<T>, val: T -> V)
    requires forall x :: x in a <==> x in b
    ensures Values(a, val) == Values(b, val)
  {
    ValuesSpec(a, val);
    ValuesSpec(b, val);
  }

  /** Every value of a selection is a value of the whole column. */
  lemma ValuesOfFilter<T(!new), V(!new)>(rows: seq<T>, keep: T -> bool, val: T -> V)
    ensures Values(Filter(rows, keep), val) <= Values(rows, val)
    ensures |Values(Filter(rows, keep), val)| <= |Values(rows, val)|
  {
    var small, big := Values(Filter(rows, keep), val), Values(rows, val);
    ValuesSpec(Filter(rows, keep), val);
    ValuesSpec(rows, val);
    assert small <= big;
    assert big == small + (big - small);
  }
}
