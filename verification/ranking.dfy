/**
 * `sort_values`, `head(n)` and `tail(n)` on a table whose sort key is an
 * integer column. pandas' default sort is an unstable quicksort, so the
 * order among rows with equal keys is left open: a sorted table is ANY
 * permutation of its input that is ordered by the key.
 */
module Ranking {

  function Min(a: int, b: int): int { if a <= b then a else b }

  /** `a` may come before `b` in a table sorted in the given direction. */
  predicate InOrder(a: int, b: int, ascending: bool)
  {
    if ascending then a <= b else a >= b
  }

  predicate SortedBy<T>(s: seq<T>, key: T -> int, ascending: bool)
  {
    forall i, j :: 0 <= i < j < |s| ==> InOrder(key(s[i]), key(s[j]), ascending)
  }

  /** `p` is a possible result of `s.sort_values(key, ascending)`. */
  ghost predicate IsSortValues<T>(p: seq<T>, s: seq<T>, key: T -> int, ascending: bool)
  {
    multiset(p) == multiset(s) && SortedBy(p, key, ascending)
  }

  /** `head(n)`: the first min(n, len) rows. */
  function Head<T>(s: seq<T>, n: nat): (r: seq<T>)
    ensures |r| == Min(n, |s|)
  {
    s[..Min(n, |s|)]
  }

  /** `tail(n)`: the last min(n, len) rows. */
  function Tail<T>(s: seq<T>, n: nat): (r: seq<T>)
    ensures |r| == Min(n, |s|)
  {
    s[|s| - Min(n, |s|)..]
  }

  /** `r` is a possible result of `s.sort_values(key, ascending).head(n)`. */
  ghost predicate IsSortedHead<T(!new)>(r: seq<T>, s: seq<T>, key: T -> int, ascending: bool, n: nat)
  {
    exists p :: IsSortValues(p, s, key, ascending) && r == Head(p, n)
  }

  // ----- one admissible sort: insertion sort -----

  /** Putting a row in front of a sorted table keeps it sorted if it comes no later than any row there. */
  lemma SortedCons<T>(h: T, t: seq<T>, key: T -> int, ascending: bool)
    requires SortedBy(t, key, ascending)
    requires forall y :: y in t ==> InOrder(key(h), key(y), ascending)
    ensures SortedBy([h] + t, key, ascending)
  {
    var r := [h] + t;
    forall i, j | 0 <= i < j < |r| ensures InOrder(key(r[i]), key(r[j]), ascending) {
      assert r[j] == t[j - 1];
      if i > 0 {
        assert r[i] == t[i - 1];
      }
    }
  }

  function Insert<T>(x: T, s: seq<T>, key: T -> int, ascending: bool): (r: seq<T>)
    requires SortedBy(s, key, ascending)
    ensures multiset(r) == multiset(s) + multiset{x}
    ensures SortedBy(r, key, ascending)
  {
    if s == [] then [x]
    else if InOrder(key(x), key(s[0]), ascending) then
      SortedCons(x, s, key, ascending);
      [x] + s
    else
      var rest := Insert(x, s[1..], key, ascending);
      assert s == [s[0]] + s[1..];
      assert forall y :: y in rest ==> InOrder(key(s[0]), key(y), ascending) by {
        forall y | y in rest ensures InOrder(key(s[0]), key(y), ascending) {
          assert y in multiset(rest);
          if y != x {
            assert y in multiset(s[1..]);
            var k :| 0 <= k < |s[1..]| && s[1..][k] == y;
            assert s[k + 1] == y;
          }
        }
      }
      SortedCons(s[0], rest, key, ascending);
      [s[0]] + rest
  }

  /** Sorts by repeated insertion; it realises one of the tie-breaks `IsSortValues` allows. */
  function SortBy<T>(s: seq<T>, key: T -> int, ascending: bool): (r: seq<T>)
    ensures IsSortValues(r, s, key, ascending)
  {
    if s == [] then []
    else
      assert s == [s[0]] + s[1..];
      Insert(s[0], SortBy(s[1..], key, ascending), key, ascending)
  }

  // ----- what a sorted head or tail selects -----

  /**
   * The first n rows of a sorted table are sorted and come no later (in
   * key order) than every row left out.
   */
  lemma HeadOfSorted<T>(p: seq<T>, key: T -> int, ascending: bool, n: nat)
    requires SortedBy(p, key, ascending)
    ensures SortedBy(Head(p, n), key, ascending)
    ensures multiset(p) == multiset(Head(p, n)) + multiset(p[Min(n, |p|)..])
    ensures forall x, y :: x in Head(p, n) && y in multiset(p) - multiset(Head(p, n)) ==>
              InOrder(key(x), key(y), ascending)
  {
    var k := Min(n, |p|);
    assert p == p[..k] + p[k..];
    forall x, y | x in Head(p, n) && y in multiset(p) - multiset(Head(p, n))
      ensures InOrder(key(x), key(y), ascending)
    {
      assert y in p[k..];
      var i :| 0 <= i < k && p[i] == x;
      var j :| 0 <= j < |p| - k && p[k..][j] == y;
      assert p[k + j] == y;
    }
  }

  /**
   * The last n rows of a sorted table are sorted and come no earlier (in
   * key order) than every row left out.
   */
  lemma TailOfSorted<T>(p: seq<T>, key: T -> int, ascending: bool, n: nat)
    requires SortedBy(p, key, ascending)
    ensures SortedBy(Tail(p, n), key, ascending)
    ensures multiset(p) == multiset(p[..|p| - Min(n, |p|)]) + multiset(Tail(p, n))
    ensures forall x, y :: y in Tail(p, n) && x in multiset(p) - multiset(Tail(p, n)) ==>
              InOrder(key(x), key(y), ascending)
  {
    var k := |p| - Min(n, |p|);
    assert p == p[..k] + p[k..];
    forall x, y | y in Tail(p, n) && x in multiset(p) - multiset(Tail(p, n))
      ensures InOrder(key(x), key(y), ascending)
    {
      assert x in p[..k];
      var i :| 0 <= i < k && p[i] == x;
      var j :| 0 <= j < |p| - k && p[k..][j] == y;
      assert p[k + j] == y;
    }
  }

  /**
   * Whatever tie-break the sort uses, `sort_values(...).head(n)` has
   * min(n, len) rows drawn from the table, in key order, and each of them
   * comes no later than every row it leaves out.
   */
  lemma SortedHeadSpec<T(!new)>(r: seq<T>, s: seq<T>, key: T -> int, ascending: bool, n: nat)
    requires IsSortedHead(r, s, key, ascending, n)
    ensures |r| == Min(n, |s|)
    ensures multiset(r) <= multiset(s)
    ensures SortedBy(r, key, ascending)
    ensures forall x, y :: x in r && y in multiset(s) - multiset(r) ==> InOrder(key(x), key(y), ascending)
  {
    var p :| IsSortValues(p, s, key, ascending) && r == Head(p, n);
    assert |p| == |multiset(p)| == |multiset(s)| == |s|;
    HeadOfSorted(p, key, ascending, n);
  }

  /** The first row of a sorted head holds the extreme key of the whole table. */
  lemma SortedHeadFirst<T(!new)>(r: seq<T>, s: seq<T>, key: T -> int, ascending: bool, n: nat, i: int)
    requires IsSortedHead(r, s, key, ascending, n)
    requires n >= 1 && 0 <= i < |s|
    requires forall j :: 0 <= j < |s| ==> InOrder(key(s[i]), key(s[j]), ascending)
    ensures |r| >= 1 && key(r[0]) == key(s[i])
  {
    SortedHeadSpec(r, s, key, ascending, n);
    assert r[0] in multiset(s);
    var j :| 0 <= j < |s| && s[j] == r[0];
    var y := s[i];
    if y in r {
      var k :| 0 <= k < |r| && r[k] == y;
      assert k == 0 || InOrder(key(r[0]), key(r[k]), ascending);
    } else {
      assert y in multiset(s) - multiset(r);
    }
  }

  /** Sorting with insertion sort and taking the head is one admissible result. */
  lemma SortedHeadExists<T(!new)>(s: seq<T>, key: T -> int, ascending: bool, n: nat)
    ensures IsSortedHead(Head(SortBy(s, key, ascending), n), s, key, ascending, n)
  {
    var p := SortBy(s, key, ascending);
    assert IsSortValues(p, s, key, ascending) && Head(p, n) == Head(p, n);
  }

  /**
   * head(n) and tail(n) of one table share a row exactly when the table is
   * non-empty and shorter than 2n; from 2n rows on they are disjoint slices.
   */
  lemma HeadTailOverlap<T>(p: seq<T>, n: nat)
    ensures 0 < |p| < 2 * n ==> p[|p| - Min(n, |p|)] in Head(p, n) && p[|p| - Min(n, |p|)] in Tail(p, n)
    ensures |p| >= 2 * n ==> Head(p, n) + p[n..|p| - n] + Tail(p, n) == p
  {
    if 0 < |p| < 2 * n {
      var k := |p| - Min(n, |p|);
      assert Head(p, n)[k] == p[k];
      assert Tail(p, n)[0] == p[k];
    }
  }

  /**
   * The best/worst pair of panels: `s` sorted into `counts`, its head(n)
   * re-sorted the same way and its tail(n) re-sorted the other way. Each
   * panel has min(n, len) rows drawn from `s`; the best rows come no later
   * than any row left out, the worst no earlier; with fewer than 2n rows
   * the panels share a row, from 2n rows on they are disjoint.
   */
  lemma HeadTailPanels<T>(s: seq<T>, counts: seq<T>, top: seq<T>, bottom: seq<T>, key: T -> int, ascending: bool, n: nat)
    requires IsSortValues(counts, s, key, ascending)
    requires IsSortValues(top, Head(counts, n), key, ascending)
    requires IsSortValues(bottom, Tail(counts, n), key, !ascending)
    ensures |top| == Min(n, |s|) && |bottom| == Min(n, |s|)
    ensures multiset(top) <= multiset(s) && multiset(bottom) <= multiset(s)
    ensures forall x, y :: x in top && y in multiset(s) - multiset(top) ==> InOrder(key(x), key(y), ascending)
    ensures forall x, y :: y in bottom && x in multiset(s) - multiset(bottom) ==> InOrder(key(x), key(y), ascending)
    ensures 0 < |s| < 2 * n ==> exists x :: x in top && x in bottom
    ensures |s| >= 2 * n ==> multiset(top) + multiset(bottom) <= multiset(s)
  {
    assert |counts| == |multiset(counts)| == |s|;
    assert |top| == |multiset(top)| == |Head(counts, n)|;
    assert |bottom| == |multiset(bottom)| == |Tail(counts, n)|;
    HeadOfSorted(counts, key, ascending, n);
    TailOfSorted(counts, key, ascending, n);
    assert forall x :: x in top <==> x in Head(counts, n) by {
      assert forall x :: x in top <==> x in multiset(Head(counts, n));
    }
    assert forall x :: x in bottom <==> x in Tail(counts, n) by {
      assert forall x :: x in bottom <==> x in multiset(Tail(counts, n));
    }
    HeadTailOverlap(counts, n);
    if |s| >= 2 * n {
      var mid := counts[n..|counts| - n];
      assert multiset(counts) == multiset(Head(counts, n)) + multiset(mid) + multiset(Tail(counts, n));
    }
  }

  // ----- keys that occur once -----

  /** No two rows of `s` share a key. */
  ghost predicate DistinctBy<T, K>(s: seq<T>, key: T -> K)
  {
    forall i, j :: 0 <= i < j < |s| ==> key(s[i]) != key(s[j])
  }

  /** A row found at two positions occurs at least twice in the table's multiset. */
  lemma OccursTwice<T>(s: seq<T>, i: int, j: int)
    requires 0 <= i < j < |s|
    ensures s[i] == s[j] ==> multiset(s)[s[i]] >= 2
  {
    assert s == s[..j] + s[j..];
    assert s[..j][i] == s[i];
    assert s[j..][0] == s[j];
    assert multiset(s[..j])[s[i]] >= 1;
    assert multiset(s[j..])[s[j]] >= 1;
  }

  /** Distinct keys imply that no row occurs twice. */
  lemma {:induction false} OccursOnce<T, K>(s: seq<T>, key: T -> K)
    requires DistinctBy(s, key)
    ensures forall x :: multiset(s)[x] <= 1
  {
    if s != [] {
      var rest := s[1..];
      assert s == [s[0]] + rest;
      assert DistinctBy(rest, key);
      OccursOnce(rest, key);
      assert forall k :: 0 <= k < |rest| ==> rest[k] != s[0] by {
        forall k | 0 <= k < |rest| ensures rest[k] != s[0] {
          assert key(s[0]) != key(s[k + 1]);
        }
      }
      assert multiset(rest)[s[0]] == 0;
    }
  }

  /** A permutation of a table whose keys are distinct has distinct keys. */
  lemma DistinctPermutation<T, K>(p: seq<T>, s: seq<T>, key: T -> K)
    requires multiset(p) == multiset(s)
    requires DistinctBy(s, key)
    ensures DistinctBy(p, key)
  {
    OccursOnce(s, key);
    forall i, j | 0 <= i < j < |p| ensures key(p[i]) != key(p[j]) {
      OccursTwice(p, i, j);
      assert p[i] != p[j];
      assert p[i] in multiset(s) && p[j] in multiset(s);
      var a :| 0 <= a < |s| && s[a] == p[i];
      var b :| 0 <= b < |s| && s[b] == p[j];
      assert key(s[a]) != key(s[b]);
    }
  }

  /** Sorted ascending with distinct keys: the keys strictly increase. */
  lemma StrictlyIncreasing<T>(p: seq<T>, key: T -> int)
    requires SortedBy(p, key, true) && DistinctBy(p, key)
    ensures forall i, j :: 0 <= i < j < |p| ==> key(p[i]) < key(p[j])
  {
  }
}
