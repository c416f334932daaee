/**
 * `groupby(key)[column].agg(...)`, `value_counts()` and `nunique()` as
 * aggregated tables: one entry per key present in the input, rows whose
 * key cell is missing belonging to no group (pandas' `dropna=True`).
 */
module GroupBy {
  import opened Wrappers
  import opened Frames
  import opened Ranking

  /** One row of an aggregated table: a group key and that group's aggregate. */
  datatype Entry<K> = Entry(key: K, value: int)

  function KeyOf<K>(e: Entry<K>): K { e.key }

  function ValueOf<K>(e: Entry<K>): int { e.value }

  ghost predicate Distinct<K>(ks: seq<K>)
  {
    forall i, j :: 0 <= i < j < |ks| ==> ks[i] != ks[j]
  }

  /** Some entry of `t` is the group of `k`. */
  ghost predicate HasKey<K>(t: seq<Entry<K>>, k: K)
  {
    exists e :: e in t && e.key == k
  }

  /** The mask of the rows whose key is `k`. */
  function IsKey<T, K(==)>(key: T -> Option<K>, k: K): T -> bool
  {
    x => key(x) == Some(k)
  }

  /** The mask of the rows whose key cell is present. */
  function KeyPresent<T, K>(key: T -> Option<K>): T -> bool
  {
    x => key(x).Some?
  }

  /** The rows of the group of `k`, in their original order. */
  function Select<T(!new), K(==)>(rows: seq<T>, key: T -> Option<K>, k: K): (g: seq<T>)
    ensures forall x :: x in g <==> x in rows && key(x) == Some(k)
  {
    Filter(rows, IsKey(key, k))
  }

  /** The rows whose key cell is present. */
  function NonNull<T(!new), K>(rows: seq<T>, key: T -> Option<K>): (r: seq<T>)
    ensures forall x :: x in r <==> x in rows && key(x).Some?
  {
    Filter(rows, KeyPresent(key))
  }

  /** A group holds each row of its key as often as the input does. */
  lemma SelectMultiset<T(!new), K>(rows: seq<T>, key: T -> Option<K>, k: K)
    ensures forall x :: multiset(Select(rows, key, k))[x] == if key(x) == Some(k) then multiset(rows)[x] else 0
  {
    FilterMultiset(rows, IsKey(key, k));
  }

  /** A group has as many rows as the key column has cells holding its key. */
  lemma {:induction false} SelectCount<T(!new), K>(rows: seq<T>, key: T -> Option<K>, k: K)
    ensures |Select(rows, key, k)| == multiset(Column(rows, key))[Some(k)]
  {
    if rows != [] {
      SelectCount(rows[1..], key, k);
      assert Column(rows, key) == [key(rows[0])] + Column(rows[1..], key);
    }
  }

  /** Grouping after a selection is selecting within the group. */
  lemma SelectOfFilter<T(!new), K>(rows: seq<T>, keep: T -> bool, key: T -> Option<K>, k: K)
    ensures Select(Filter(rows, keep), key, k) == Filter(Select(rows, key, k), keep)
  {
    FilterCommute(rows, keep, IsKey(key, k));
  }

  /** When every key cell is present, no row is dropped. */
  lemma NonNullAll<T(!new), K>(rows: seq<T>, key: T -> Option<K>)
    requires forall x :: x in rows ==> key(x).Some?
    ensures NonNull(rows, key) == rows
  {
    FilterAll(rows, KeyPresent(key));
  }

  /** The distinct present keys, in order of first appearance. */
  function Keys<T(!new), K(==,!new)>(rows: seq<T>, key: T -> Option<K>): (ks: seq<K>)
    ensures Distinct(ks)
    ensures forall k :: k in ks <==> exists x :: x in rows && key(x) == Some(k)
    decreases |rows|
  {
    if rows == [] then []
    else
      var init, last := rows[..|rows| - 1], rows[|rows| - 1];
      var ks := Keys(init, key);
      assert rows == init + [last];
      assert forall x :: x in rows <==> x in init || x == last;
      match key(last)
      case Some(k) => if k in ks then ks else ks + [k]
      case None => ks
  }

  /** One entry per key of `ks`, in that order, with the aggregate of its group. */
  function Tabulate<T(!new), K(==)>(ks: seq<K>, rows: seq<T>, key: T -> Option<K>, agg: seq<T> -> int)
    : (t: seq<Entry<K>>)
    ensures |t| == |ks|
    ensures forall i :: 0 <= i < |ks| ==> t[i] == Entry(ks[i], agg(Select(rows, key, ks[i])))
  {
    if ks == [] then []
    else [Entry(ks[0], agg(Select(rows, key, ks[0])))] + Tabulate(ks[1..], rows, key, agg)
  }

  /**
   * `groupby(key).agg(agg)`: exactly one entry per key present in the rows,
   * holding the aggregate of the rows of that key.
   */
  function GroupAgg<T(!new), K(==,!new)>(rows: seq<T>, key: T -> Option<K>, agg: seq<T> -> int)
    : (t: seq<Entry<K>>)
    ensures |t| == |Keys(rows, key)|
    ensures DistinctBy(t, KeyOf)
    ensures forall k :: HasKey(t, k) <==> exists x :: x in rows && key(x) == Some(k)
    ensures forall e :: e in t ==> e.value == agg(Select(rows, key, e.key))
  {
    var ks := Keys(rows, key);
    var t := Tabulate(ks, rows, key, agg);
    assert forall k :: HasKey(t, k) <==> k in ks by {
      forall k ensures HasKey(t, k) <==> k in ks {
        if k in ks {
          var i :| 0 <= i < |ks| && ks[i] == k;
          assert t[i] in t && t[i].key == k;
        }
      }
    }
    t
  }

  /** A re-ordering of an aggregated table holds the same groups. */
  lemma PermutedKeys<K>(p: seq<Entry<K>>, t: seq<Entry<K>>)
    requires multiset(p) == multiset(t)
    ensures forall e :: e in p <==> e in t
    ensures forall k :: HasKey(p, k) <==> HasKey(t, k)
  {
    assert forall e :: e in p <==> e in multiset(t);
  }

  /**
   * The best/worst pair of panels over an aggregated table, n = 5: `t`
   * sorted by descending value into `counts`, the best panel its head
   * re-sorted descending and the worst its tail re-sorted ascending.
   */
  lemma CountPanels<K>(t: seq<Entry<K>>, counts: seq<Entry<K>>, best: seq<Entry<K>>, worst: seq<Entry<K>>)
    requires IsSortValues(counts, t, ValueOf, false)
    requires IsSortValues(best, Head(counts, 5), ValueOf, false)
    requires IsSortValues(worst, Tail(counts, 5), ValueOf, true)
    ensures |best| == Min(5, |t|) && |worst| == Min(5, |t|)
    ensures multiset(best) <= multiset(t) && multiset(worst) <= multiset(t)
    ensures SortedBy(best, ValueOf, false) && SortedBy(worst, ValueOf, true)
    ensures forall x, y :: x in best && y in multiset(t) - multiset(best) ==> x.value >= y.value
    ensures forall x, y :: y in worst && x in multiset(t) - multiset(worst) ==> x.value >= y.value
    ensures 0 < |t| < 10 ==> exists x :: x in best && x in worst
    ensures |t| >= 10 ==> multiset(best) + multiset(worst) <= multiset(t)
  {
    HeadTailPanels(t, counts, best, worst, ValueOf, false, 5);
  }

  // ----- the groups partition the rows with a present key -----

  /** The sum of `w` over the groups of the keys `ks`. */
  function GroupTotal<T(!new), K(==)>(ks: seq<K>, rows: seq<T>, key: T -> Option<K>, w: T -> int): int
  {
    if ks == [] then 0 else Sum(Select(rows, key, ks[0]), w) + GroupTotal(ks[1..], rows, key, w)
  }

  lemma {:induction false} TabulateTotal<T(!new), K>(
    ks: seq<K>, rows: seq<T>, key: T -> Option<K>, agg: seq<T> -> int, w: T -> int)
    requires forall g :: agg(g) == Sum(g, w)
    ensures Sum(Tabulate(ks, rows, key, agg), ValueOf) == GroupTotal(ks, rows, key, w)
  {
    if ks != [] {
      TabulateTotal(ks[1..], rows, key, agg, w);
    }
  }

  /** Adding a row in front adds its weight to exactly the one group of its key, if that key is listed. */
  lemma {:induction false} GroupTotalStep<T(!new), K>(ks: seq<K>, rows: seq<T>, key: T -> Option<K>, w: T -> int)
    requires rows != [] && Distinct(ks)
    ensures GroupTotal(ks, rows, key, w) ==
            GroupTotal(ks, rows[1..], key, w)
            + (if key(rows[0]).Some? && key(rows[0]).value in ks then w(rows[0]) else 0)
  {
    if ks != [] {
      var k := ks[0];
      assert Distinct(ks[1..]);
      GroupTotalStep(ks[1..], rows, key, w);
      var head := if key(rows[0]) == Some(k) then [rows[0]] else [];
      assert Select(rows, key, k) == head + Select(rows[1..], key, k);
      SumConcat(head, Select(rows[1..], key, k), w);
      assert key(rows[0]) == Some(k) ==> k !in ks[1..];
      assert forall v :: v in ks <==> v == k || v in ks[1..];
    }
  }

  /** Over keys that are distinct and cover every present key, the group sums add up to the total. */
  lemma {:induction false} GroupTotalCovers<T(!new), K>(ks: seq<K>, rows: seq<T>, key: T -> Option<K>, w: T -> int)
    requires Distinct(ks)
    requires forall x :: x in rows && key(x).Some? ==> key(x).value in ks
    ensures GroupTotal(ks, rows, key, w) == Sum(NonNull(rows, key), w)
  {
    if rows == [] {
      GroupTotalEmpty(ks, key, w);
    } else {
      assert forall x :: x in rows[1..] ==> x in rows;
      GroupTotalCovers(ks, rows[1..], key, w);
      GroupTotalStep(ks, rows, key, w);
      var head := if key(rows[0]).Some? then [rows[0]] else [];
      assert NonNull(rows, key) == head + NonNull(rows[1..], key);
      SumConcat(head, NonNull(rows[1..], key), w);
    }
  }

  lemma {:induction false} GroupTotalEmpty<T(!new), K>(ks: seq<K>, key: T -> Option<K>, w: T -> int)
    ensures GroupTotal(ks, [], key, w) == 0
  {
    if ks != [] {
      GroupTotalEmpty(ks[1..], key, w);
    }
  }

  /**
   * A summing aggregation loses nothing: the group sums add up to the sum
   * over every row whose key is present.
   */
  lemma SumOfGroups<T(!new), K(!new)>(rows: seq<T>, key: T -> Option<K>, agg: seq<T> -> int, w: T -> int)
    requires forall g :: agg(g) == Sum(g, w)
    ensures Sum(GroupAgg(rows, key, agg), ValueOf) == Sum(NonNull(rows, key), w)
  {
    var ks := Keys(rows, key);
    TabulateTotal(ks, rows, key, agg, w);
    GroupTotalCovers(ks, rows, key, w);
  }
}
