/**
 * GROUP BY and ORDER BY … DESC LIMIT k over tables of rows.
 *
 * A grouped table has one row per distinct key, listed here in the order
 * in which each key first appears; SQL leaves that order unspecified and
 * nothing proved below depends on it.
 */
module Grouping {
  import opened Tables

  /** No key is listed twice. */
  predicate NoDups<K(==)>(ks: seq<K>) {
    forall i, j :: 0 <= i < j < |ks| ==> ks[i] != ks[j]
  }

  /** The rows that fall into the group of key k. */
  function GroupOf<T(==,!new), K(==)>(s: seq<T>, key: T -> K, k: K): (g: seq<T>)
    ensures |g| <= |s|
    ensures forall t :: t in g <==> t in s && key(t) == k
  {
    Where(s, t => key(t) == k)
  }

  /** A group of a filtered table is the table filtered once, on both conditions. */
  lemma GroupOfWhere<T(!new), K(!new)>(s: seq<T>, p: T -> bool, key: T -> K, k: K, r: T -> bool)
    requires forall t :: (p(t) && key(t) == k) == r(t)
    ensures GroupOf(Where(s, p), key, k) == Where(s, r)
  {
    WhereWhere(s, p, t => key(t) == k, r);
  }

  /** The distinct keys of the table, in order of first appearance. */
  function GroupKeys<T, K(==,!new)>(s: seq<T>, key: T -> K): (ks: seq<K>)
    ensures NoDups(ks)
    ensures forall k :: k in ks <==> exists i :: 0 <= i < |s| && key(s[i]) == k
  {
    if s == [] then []
    else
      var init := s[..|s| - 1];
      var ks' := GroupKeys(init, key);
      var k := key(s[|s| - 1]);
      assert forall i :: 0 <= i < |init| ==> init[i] == s[i];
      if k in ks' then ks' else ks' + [k]
  }

  /** The size of each group, in the order of the given keys. */
  function GroupSizes<T(==,!new), K(==)>(s: seq<T>, key: T -> K, ks: seq<K>): (sizes: seq<nat>)
    ensures |sizes| == |ks|
  {
    seq(|ks|, j requires 0 <= j < |ks| => |GroupOf(s, key, ks[j])|)
  }

  /** Adding one row to a table adds one to the size of its group and to no other. */
  lemma {:induction false} SizesStep<T(!new), K(!new)>(s: seq<T>, key: T -> K, ks: seq<K>)
    requires |s| > 0 && NoDups(ks)
    ensures SumNat(GroupSizes(s, key, ks))
         == SumNat(GroupSizes(s[..|s| - 1], key, ks)) + (if key(s[|s| - 1]) in ks then 1 else 0)
  {
    if ks != [] {
      var ks' := ks[..|ks| - 1];
      SizesStep(s, key, ks');
      assert GroupSizes(s, key, ks)[..|ks| - 1] == GroupSizes(s, key, ks');
      assert GroupSizes(s[..|s| - 1], key, ks)[..|ks| - 1] == GroupSizes(s[..|s| - 1], key, ks');
      assert key(s[|s| - 1]) in ks <==> key(s[|s| - 1]) in ks' || key(s[|s| - 1]) == ks[|ks| - 1];
      assert ks[|ks| - 1] !in ks';
    }
  }

  lemma AbsentKeyEmptyGroup<T(!new), K(!new)>(s: seq<T>, key: T -> K, k: K)
    requires k !in GroupKeys(s, key)
    ensures GroupOf(s, key, k) == []
  {
  }

  /** COUNT(*) over the groups of a GROUP BY adds up to the number of rows. */
  lemma {:induction false} GroupSizesSum<T(!new), K(!new)>(s: seq<T>, key: T -> K)
    ensures SumNat(GroupSizes(s, key, GroupKeys(s, key))) == |s|
  {
    if s != [] {
      var init, x := s[..|s| - 1], s[|s| - 1];
      var d' := GroupKeys(init, key);
      GroupSizesSum(init, key);
      SizesStep(s, key, GroupKeys(s, key));
      if key(x) !in d' {
        assert GroupKeys(s, key) == d' + [key(x)];
        assert GroupSizes(init, key, d' + [key(x)])[..|d'|] == GroupSizes(init, key, d');
        AbsentKeyEmptyGroup(init, key, key(x));
      }
    }
  }

  /** The rows are listed by non-increasing weight (ORDER BY w DESC). */
  predicate NonIncreasing<R>(rows: seq<R>, w: R -> int) {
    forall i, j :: 0 <= i < j < |rows| ==> w(rows[i]) >= w(rows[j])
  }

  /**
   * Puts x into a list ordered heaviest first, in front of the first row
   * that is not heavier than x.
   */
  function InsertBy<R>(x: R, sorted: seq<R>, w: R -> int): (r: seq<R>)
    ensures |r| == |sorted| + 1
  {
    if sorted == [] || w(x) >= w(sorted[0]) then [x] + sorted
    else [sorted[0]] + InsertBy(x, sorted[1..], w)
  }

  /**
   * `ORDER BY w DESC` over a whole table. Among rows of equal weight SQL
   * may return any order; this keeps them in input order, and no contract
   * below says which.
   */
  function SortBy<R>(rows: seq<R>, w: R -> int): (sorted: seq<R>)
    ensures |sorted| == |rows|
  {
    if rows == [] then [] else InsertBy(rows[0], SortBy(rows[1..], w), w)
  }

  /** `ORDER BY w DESC LIMIT k`: the first k rows of the sorted table. */
  function TopBy<R>(rows: seq<R>, w: R -> int, k: nat): (top: seq<R>)
    ensures |top| == if k < |rows| then k else |rows|
  {
    var sorted := SortBy(rows, w);
    if k < |sorted| then sorted[..k] else sorted
  }

  /** Inserting adds x to the rows and nothing else. */
  lemma {:induction false} InsertByMultiset<R>(x: R, sorted: seq<R>, w: R -> int)
    ensures multiset(InsertBy(x, sorted, w)) == multiset(sorted) + multiset{x}
    decreases |sorted|
  {
    if sorted != [] && w(x) < w(sorted[0]) {
      var tail := sorted[1..];
      InsertByMultiset(x, tail, w);
      assert sorted == [sorted[0]] + tail;
      assert InsertBy(x, sorted, w) == [sorted[0]] + InsertBy(x, tail, w);
    }
  }

  /** The rows after the first of an ordered list are ordered too. */
  lemma NonIncreasingTail<R>(rows: seq<R>, w: R -> int)
    requires rows != [] && NonIncreasing(rows, w)
    ensures NonIncreasing(rows[1..], w)
  {
    var tail := rows[1..];
    forall i, j | 0 <= i < j < |tail|
      ensures w(tail[i]) >= w(tail[j])
    {
      assert tail[i] == rows[i + 1] && tail[j] == rows[j + 1];
    }
  }

  /** The first row of an ordered list is a heaviest one. */
  lemma HeadHeaviest<R>(rows: seq<R>, w: R -> int, y: R)
    requires rows != [] && NonIncreasing(rows, w) && y in rows
    ensures w(y) <= w(rows[0])
  {
    var i :| 0 <= i < |rows| && rows[i] == y;
  }

  /** Inserting into an ordered list keeps it ordered. */
  lemma {:induction false} InsertByOrdered<R>(x: R, sorted: seq<R>, w: R -> int)
    requires NonIncreasing(sorted, w)
    ensures NonIncreasing(InsertBy(x, sorted, w), w)
    decreases |sorted|
  {
    if sorted == [] {
    } else if w(x) >= w(sorted[0]) {
      forall y | y in sorted
        ensures w(y) <= w(x)
      {
        HeadHeaviest(sorted, w, y);
      }
      ConsNonIncreasing(x, sorted, w);
    } else {
      var tail := sorted[1..];
      NonIncreasingTail(sorted, w);
      InsertByOrdered(x, tail, w);
      InsertByMultiset(x, tail, w);
      var ins := InsertBy(x, tail, w);
      forall y | y in ins
        ensures w(y) <= w(sorted[0])
      {
        assert y in multiset(ins);
        if y != x {
          assert y in tail;
          HeadHeaviest(sorted, w, y);
        }
      }
      ConsNonIncreasing(sorted[0], ins, w);
    }
  }

  /** Sorting reorders the rows and nothing else, and puts them heaviest first. */
  lemma {:induction false} SortByPermutes<R>(rows: seq<R>, w: R -> int)
    ensures multiset(SortBy(rows, w)) == multiset(rows)
    ensures NonIncreasing(SortBy(rows, w), w)
    decreases |rows|
  {
    if rows != [] {
      var sortedTail := SortBy(rows[1..], w);
      SortByPermutes(rows[1..], w);
      InsertByMultiset(rows[0], sortedTail, w);
      InsertByOrdered(rows[0], sortedTail, w);
      assert rows == [rows[0]] + rows[1..];
    }
  }

  /** The chosen rows are rows of the table, each at most as often as it occurs there, and all of them when k covers the table. */
  lemma TopByMultiset<R>(rows: seq<R>, w: R -> int, k: nat)
    ensures multiset(TopBy(rows, w, k)) <= multiset(rows)
    ensures k >= |rows| ==> multiset(TopBy(rows, w, k)) == multiset(rows)
  {
    var sorted := SortBy(rows, w);
    SortByPermutes(rows, w);
    if k < |sorted| {
      assert sorted == sorted[..k] + sorted[k..];
      assert multiset(sorted) == multiset(sorted[..k]) + multiset(sorted[k..]);
    }
  }

  lemma TopByMembers<R>(rows: seq<R>, w: R -> int, k: nat, x: R)
    requires x in TopBy(rows, w, k)
    ensures x in rows
  {
    TopByMultiset(rows, w, k);
    assert x in multiset(TopBy(rows, w, k));
  }

  /** The chosen rows come heaviest first. */
  lemma TopByOrdered<R>(rows: seq<R>, w: R -> int, k: nat)
    ensures NonIncreasing(TopBy(rows, w, k), w)
  {
    var sorted := SortBy(rows, w);
    SortByPermutes(rows, w);
    var top := TopBy(rows, w, k);
    forall i, j | 0 <= i < j < |top|
      ensures w(top[i]) >= w(top[j])
    {
      assert top[i] == sorted[i] && top[j] == sorted[j];
    }
  }

  /** A row at least as heavy as every row of an ordered list may go in front of it. */
  lemma ConsNonIncreasing<R>(x: R, rows: seq<R>, w: R -> int)
    requires NonIncreasing(rows, w)
    requires forall y :: y in rows ==> w(y) <= w(x)
    ensures NonIncreasing([x] + rows, w)
  {
    var s := [x] + rows;
    forall i, j | 0 <= i < j < |s|
      ensures w(s[i]) >= w(s[j])
    {
      assert s[j] == rows[j - 1];
      if i == 0 {
        assert rows[j - 1] in rows;
      } else {
        assert s[i] == rows[i - 1];
      }
    }
  }

  /** No row left out weighs more than a row chosen. */
  lemma TopByOmittedLighter<R>(rows: seq<R>, w: R -> int, k: nat, r: R, x: R)
    requires r in rows && r !in TopBy(rows, w, k) && x in TopBy(rows, w, k)
    ensures w(r) <= w(x)
  {
    var sorted := SortBy(rows, w);
    var top := TopBy(rows, w, k);
    SortByPermutes(rows, w);
    assert r in multiset(sorted);
    var j :| 0 <= j < |sorted| && sorted[j] == r;
    var i :| 0 <= i < |top| && top[i] == x;
    assert k < |sorted|;
    assert top == sorted[..k];
    assert j >= k;
  }

  /** Rows with distinct keys keep distinct keys in any selection of them. */
  lemma SubTableKeysDistinct<R(!new), K>(rows: seq<R>, sub: seq<R>, key: R -> K, i: nat, j: nat)
    requires forall a, b :: 0 <= a < b < |rows| ==> key(rows[a]) != key(rows[b])
    requires multiset(sub) <= multiset(rows)
    requires i < j < |sub|
    ensures key(sub[i]) != key(sub[j])
  {
    assert sub[i] in multiset(sub) && sub[j] in multiset(sub);
    var a :| 0 <= a < |rows| && rows[a] == sub[i];
    var b :| 0 <= b < |rows| && rows[b] == sub[j];
    if key(sub[i]) == key(sub[j]) {
      assert a == b;
      assert multiset(sub)[sub[i]] >= 2 by {
        assert sub == sub[..i] + [sub[i]] + sub[i + 1..];
        assert sub[j] in sub[i + 1..];
      }
      RowsWithDistinctKeysOnce(rows, key, sub[i]);
    }
  }

  lemma {:induction false} RowsWithDistinctKeysOnce<R(!new), K>(rows: seq<R>, key: R -> K, r: R)
    requires forall a, b :: 0 <= a < b < |rows| ==> key(rows[a]) != key(rows[b])
    ensures multiset(rows)[r] <= 1
  {
    if rows != [] {
      var init := rows[..|rows| - 1];
      RowsWithDistinctKeysOnce(init, key, r);
      assert rows == init + [rows[|rows| - 1]];
      if rows[|rows| - 1] == r {
        assert r !in init;
      }
    }
  }

  /**
   * A grouped table whose j-th row counts the j-th group: its count column
   * adds up to the number of input rows.
   */
  lemma GroupedCountsSum<T(!new), K(!new), R>(s: seq<T>, key: T -> K, rows: seq<R>, count: R -> nat)
    requires |rows| == |GroupKeys(s, key)|
    requires forall j :: 0 <= j < |rows| ==> count(rows[j]) == |GroupOf(s, key, GroupKeys(s, key)[j])|
    ensures SumBy(rows, count) == |s|
  {
    SumByColumn(rows, count, GroupSizes(s, key, GroupKeys(s, key)));
    GroupSizesSum(s, key);
  }

  /** Every group listed by GroupKeys holds at least one row. */
  lemma GroupNonEmpty<T(!new), K(!new)>(s: seq<T>, key: T -> K, k: K)
    requires k in GroupKeys(s, key)
    ensures |GroupOf(s, key, k)| > 0
  {
    var i :| 0 <= i < |s| && key(s[i]) == k;
    assert s[i] in GroupOf(s, key, k);
  }

  /** A list of distinct keys drawn from a set is no longer than the set. */
  lemma {:induction false} DistinctWithin<K>(ks: seq<K>, universe: set<K>)
    requires NoDups(ks) && forall i :: 0 <= i < |ks| ==> ks[i] in universe
    ensures |ks| <= |universe|
  {
    if ks != [] {
      var last := ks[|ks| - 1];
      DistinctWithin(ks[..|ks| - 1], universe - {last});
    }
  }

  /** `SELECT DISTINCT f(x) FROM xs`, as a set. */
  function DistinctValues<X(==), K>(xs: seq<X>, f: X -> K): set<K> {
    set x | x in xs :: f(x)
  }

  lemma DistinctValuesCons<X, K>(xs: seq<X>, f: X -> K)
    requires |xs| > 0
    ensures DistinctValues(xs, f) == {f(xs[0])} + DistinctValues(xs[1..], f)
  {
    var all, rest := DistinctValues(xs, f), DistinctValues(xs[1..], f);
    forall k | k in all
      ensures k == f(xs[0]) || k in rest
    {
      var x :| x in xs && f(x) == k;
      var i :| 0 <= i < |xs| && xs[i] == x;
      if i > 0 {
        assert xs[1..][i - 1] == x;
      }
    }
    forall k | k in rest
      ensures k in all
    {
      var x :| x in xs[1..] && f(x) == k;
      assert x in xs;
    }
  }

  lemma DistinctValuesSnoc<X, K>(xs: seq<X>, x: X, f: X -> K)
    ensures DistinctValues(xs + [x], f) == DistinctValues(xs, f) + {f(x)}
  {
    var all, init := DistinctValues(xs + [x], f), DistinctValues(xs, f);
    forall k | k in all
      ensures k in init || k == f(x)
    {
      var y :| y in xs + [x] && f(y) == k;
      if y != x {
        assert y in xs;
      }
    }
    forall k | k in init
      ensures k in all
    {
      var y :| y in xs && f(y) == k;
      assert y in xs + [x];
    }
  }

  /**
   * A GROUP BY result, one row per distinct key in GroupKeys order, once
   * sorted: ordered by w, one row per key, and a row for exactly the keys
   * that occur in the input.
   */
  lemma SortedGroupRows<T(!new), K(!new), R(!new)>(s: seq<T>, key: T -> K, rows: seq<R>, rowKey: R -> K, w: R -> int)
    requires |rows| == |GroupKeys(s, key)|
    requires forall j :: 0 <= j < |rows| ==> rowKey(rows[j]) == GroupKeys(s, key)[j]
    ensures var sorted := SortBy(rows, w);
      NonIncreasing(sorted, w)
      && (forall r :: r in sorted <==> r in rows)
      && (forall i, j :: 0 <= i < j < |sorted| ==> rowKey(sorted[i]) != rowKey(sorted[j]))
      && DistinctValues(sorted, rowKey) == DistinctValues(s, key)
  {
    var ks := GroupKeys(s, key);
    var sorted := SortBy(rows, w);
    SortByPermutes(rows, w);
    assert forall r :: r in sorted <==> r in rows by {
      forall r ensures r in sorted <==> r in rows {
        assert r in sorted <==> r in multiset(sorted);
      }
    }
    forall i, j | 0 <= i < j < |sorted|
      ensures rowKey(sorted[i]) != rowKey(sorted[j])
    {
      SubTableKeysDistinct(rows, sorted, rowKey, i, j);
    }
    var rowKeys, inputKeys := DistinctValues(sorted, rowKey), DistinctValues(s, key);
    forall k | k in rowKeys
      ensures k in inputKeys
    {
      var r :| r in sorted && rowKey(r) == k;
      var j :| 0 <= j < |rows| && rows[j] == r;
      assert ks[j] in ks;
      var n :| 0 <= n < |s| && key(s[n]) == k;
      assert s[n] in s;
    }
    forall k | k in inputKeys
      ensures k in rowKeys
    {
      var t :| t in s && key(t) == k;
      var n :| 0 <= n < |s| && s[n] == t;
      assert k in ks;
      var j :| 0 <= j < |ks| && ks[j] == k;
      assert rows[j] in sorted;
    }
    assert rowKeys == inputKeys;
  }
}
