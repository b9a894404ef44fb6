/**
 * Tables as sequences of rows: WHERE (a filter that keeps row order and
 * multiplicity), a projection, and sums over a count column.
 */
module Tables {

  /** `SELECT * FROM s WHERE p`. */
  function Where<T(==,!new)>(s: seq<T>, p: T -> bool): (r: seq<T>)
    ensures |r| <= |s|
    ensures forall t :: t in r <==> t in s && p(t)
  {
    if s == [] then []
    else
      var init, last := s[..|s| - 1], s[|s| - 1];
      assert s == init + [last];
      Where(init, p) + if p(last) then [last] else []
  }

  /** WHERE keeps every copy of a row that satisfies p and no copy of one that does not. */
  lemma {:induction false} WhereMultiset<T(!new)>(s: seq<T>, p: T -> bool)
    ensures forall t :: multiset(Where(s, p))[t] == if p(t) then multiset(s)[t] else 0
  {
    if s != [] {
      var init, last := s[..|s| - 1], s[|s| - 1];
      assert s == init + [last];
      WhereMultiset(init, p);
    }
  }

  /** `SELECT f(row) FROM s`. */
  function Map<A, B>(s: seq<A>, f: A -> B): (r: seq<B>)
    ensures |r| == |s| && forall i :: 0 <= i < |s| ==> r[i] == f(s[i])
  {
    seq(|s|, i requires 0 <= i < |s| => f(s[i]))
  }

  lemma {:induction false} WhereConcat<T(!new)>(a: seq<T>, b: seq<T>, p: T -> bool)
    ensures Where(a + b, p) == Where(a, p) + Where(b, p)
    decreases |b|
  {
    if b == [] {
      assert a + b == a;
    } else {
      var b', last := b[..|b| - 1], b[|b| - 1];
      var kept := if p(last) then [last] else [];
      assert b == b' + [last];
      calc {
        Where(a + b, p);
        { assert a + b == (a + b') + [last]; }
        Where((a + b') + [last], p);
        { WhereSnoc(a + b', last, p); }
        Where(a + b', p) + kept;
        { WhereConcat(a, b', p); }
        (Where(a, p) + Where(b', p)) + kept;
        Where(a, p) + (Where(b', p) + kept);
        { WhereSnoc(b', last, p); }
        Where(a, p) + Where(b, p);
      }
    }
  }

  /** A row added at the end is kept at the end when it satisfies p. */
  lemma WhereSnoc<T(!new)>(s: seq<T>, x: T, p: T -> bool)
    ensures Where(s + [x], p) == Where(s, p) + if p(x) then [x] else []
  {
    var c := s + [x];
    assert c[..|c| - 1] == s && c[|c| - 1] == x;
  }

  lemma {:induction false} WhereAll<T(!new)>(s: seq<T>, p: T -> bool)
    requires forall i :: 0 <= i < |s| ==> p(s[i])
    ensures Where(s, p) == s
  {
    if s != [] {
      WhereAll(s[..|s| - 1], p);
    }
  }

  lemma {:induction false} WhereNone<T(!new)>(s: seq<T>, p: T -> bool)
    requires forall i :: 0 <= i < |s| ==> !p(s[i])
    ensures Where(s, p) == []
  {
    if s != [] {
      WhereNone(s[..|s| - 1], p);
    }
  }

  /** Filtering twice is filtering once on the conjunction. */
  lemma {:induction false} WhereWhere<T(!new)>(s: seq<T>, p: T -> bool, q: T -> bool, r: T -> bool)
    requires forall t :: (p(t) && q(t)) == r(t)
    ensures Where(Where(s, p), q) == Where(s, r)
  {
    if s != [] {
      var init, last := s[..|s| - 1], s[|s| - 1];
      WhereWhere(init, p, q, r);
      var tail := if p(last) then [last] else [];
      WhereConcat(Where(init, p), tail, q);
      if p(last) {
        assert Where(tail, q) == Where([], q) + if q(last) then [last] else [] by {
          assert tail[..|tail| - 1] == [];
        }
      }
    }
  }

  lemma {:induction false} MapConcat<A, B>(a: seq<A>, b: seq<A>, f: A -> B)
    ensures Map(a + b, f) == Map(a, f) + Map(b, f)
  {
  }

  lemma MapSnoc<A, B>(a: seq<A>, x: A, f: A -> B)
    ensures Map(a + [x], f) == Map(a, f) + [f(x)]
  {
  }

  /** Two filters that no row satisfies together split a table by size. */
  lemma {:induction false} WhereSplit<T(!new)>(s: seq<T>, p: T -> bool, q: T -> bool)
    requires forall t :: t in s ==> p(t) != q(t)
    ensures |Where(s, p)| + |Where(s, q)| == |s|
  {
    if s != [] {
      WhereSplit(s[..|s| - 1], p, q);
    }
  }

  /** Two filters that no row satisfies together split a table's rows between them. */
  lemma WherePartition<T(!new)>(s: seq<T>, p: T -> bool, q: T -> bool)
    requires forall t :: t in s ==> p(t) != q(t)
    ensures multiset(Where(s, p)) + multiset(Where(s, q)) == multiset(s)
  {
    WhereMultiset(s, p);
    WhereMultiset(s, q);
    forall t
      ensures (multiset(Where(s, p)) + multiset(Where(s, q)))[t] == multiset(s)[t]
    {
      if t !in s {
        assert multiset(s)[t] == 0;
      }
    }
  }

  /** The sum of a nat column. */
  function SumNat(xs: seq<nat>): nat {
    if xs == [] then 0 else SumNat(xs[..|xs| - 1]) + xs[|xs| - 1]
  }

  /** The sum of the column w over the rows. */
  function SumBy<R>(rows: seq<R>, w: R -> nat): nat {
    if rows == [] then 0 else SumBy(rows[..|rows| - 1], w) + w(rows[|rows| - 1])
  }

  /** A column sum is the sum of the projected column. */
  lemma {:induction false} SumByColumn<R>(rows: seq<R>, w: R -> nat, xs: seq<nat>)
    requires |rows| == |xs| && forall j :: 0 <= j < |rows| ==> w(rows[j]) == xs[j]
    ensures SumBy(rows, w) == SumNat(xs)
  {
    if rows != [] {
      SumByColumn(rows[..|rows| - 1], w, xs[..|xs| - 1]);
    }
  }

  lemma {:induction false} SumByConcat<R>(a: seq<R>, b: seq<R>, w: R -> nat)
    ensures SumBy(a + b, w) == SumBy(a, w) + SumBy(b, w)
  {
    if b == [] {
      assert a + b == a;
    } else {
      SumByConcat(a, b[..|b| - 1], w);
      assert (a + b)[..|a + b| - 1] == a + b[..|b| - 1];
    }
  }

  /** Row order does not change a column sum. */
  lemma {:induction false} SumByPermutation<R>(a: seq<R>, b: seq<R>, w: R -> nat)
    requires multiset(a) == multiset(b)
    ensures SumBy(a, w) == SumBy(b, w)
  {
    if a == [] {
      assert |b| == |multiset(b)| == 0;
    } else {
      var a', x := a[..|a| - 1], a[|a| - 1];
      assert x in multiset(b) by {
        assert a == a' + [x];
      }
      var i :| 0 <= i < |b| && b[i] == x;
      var b' := b[..i] + b[i + 1..];
      RemoveOne(a, |a| - 1);
      RemoveOne(b, i);
      assert a[..|a| - 1] + a[|a|..] == a';
      SumByPermutation(a', b', w);
      SumByRemove(b, i, w);
    }
  }

  /** Taking out the row at index i takes one copy of it out of the multiset. */
  lemma RemoveOne<R>(s: seq<R>, i: nat)
    requires i < |s|
    ensures multiset(s[..i] + s[i + 1..]) == multiset(s) - multiset{s[i]}
  {
    assert s == s[..i] + [s[i]] + s[i + 1..];
    assert multiset(s) == multiset(s[..i]) + multiset{s[i]} + multiset(s[i + 1..]);
  }

  /** Taking out the row at index i takes its value out of the column sum. */
  lemma {:induction false} SumByRemove<R>(s: seq<R>, i: nat, w: R -> nat)
    requires i < |s|
    ensures SumBy(s, w) == SumBy(s[..i] + s[i + 1..], w) + w(s[i])
  {
    var init, last := s[..|s| - 1], s[|s| - 1];
    if i == |s| - 1 {
      assert s[..i] + s[i + 1..] == init;
    } else {
      var rest := init[..i] + init[i + 1..];
      SumByRemove(init, i, w);
      assert s[..i] + s[i + 1..] == rest + [last];
      assert (rest + [last])[..|rest|] == rest;
    }
  }
}
