/** Sequence helpers shared by the dashboard engine: distinct values in order of
    first appearance (what a column's `unique()` returns), an order-preserving
    subsequence relation, and a stable insertion sort by an integer rank. */
module Seqs {

  /** No element occurs twice. */
  predicate NoDups<T(==)>(s: seq<T>) {
    forall i, j :: 0 <= i < j < |s| ==> s[i] != s[j]
  }

  /** The set of values occurring in `s`. */
  function Elems<T>(s: seq<T>): set<T> {
    set x | x in s
  }

  function Min(a: int, b: int): int {
    if a <= b then a else b
  }

  /** The column `f` of `rows`: `f` applied to each row, in order. */
  function Column<T, K>(rows: seq<T>, f: T -> K): (c: seq<K>)
    ensures |c| == |rows|
    ensures forall i :: 0 <= i < |rows| ==> c[i] == f(rows[i])
  {
    seq(|rows|, i requires 0 <= i < |rows| => f(rows[i]))
  }

  /** The distinct values of `s`, each once, in order of first appearance. */
  function Distinct<T(==)>(s: seq<T>): (d: seq<T>)
    ensures NoDups(d)
    ensures forall i :: 0 <= i < |s| ==> s[i] in d
    ensures forall i :: 0 <= i < |d| ==> d[i] in s
    ensures |d| <= |s|
    ensures |s| > 0 ==> |d| > 0
    decreases |s|
  {
    if |s| == 0 then []
    else
      var init := s[..|s| - 1];
      var d' := Distinct(init);
      assert s == init + [s[|s| - 1]];
      if s[|s| - 1] in d' then d' else d' + [s[|s| - 1]]
  }

  /** `Distinct` keeps the order of first appearance: whatever is listed before
      a value occurs in `s` before every occurrence of that value. */
  lemma {:induction false} DistinctOrder<T>(s: seq<T>)
    ensures var d := Distinct(s);
      forall i, j, k :: 0 <= i < j < |d| && 0 <= k < |s| && s[k] == d[j] ==> d[i] in s[..k]
  {
    forall i, j, k | 0 <= i < j < |Distinct(s)| && 0 <= k < |s| && s[k] == Distinct(s)[j]
      ensures Distinct(s)[i] in s[..k]
    {
      DistinctOrderAt(s, i, j, k);
    }
  }

  lemma {:induction false} DistinctOrderAt<T>(s: seq<T>, i: nat, j: nat, k: nat)
    requires i < j < |Distinct(s)| && k < |s| && s[k] == Distinct(s)[j]
    ensures Distinct(s)[i] in s[..k]
    decreases |s|
  {
    var n := |s|;
    var init := s[..n - 1];
    var d' := Distinct(init);
    var d := Distinct(s);
    assert s == init + [s[n - 1]];
    assert d == d' || (d == d' + [s[n - 1]] && s[n - 1] !in d');
    assert d[i] == d'[i];
    if k == n - 1 {
      assert d'[i] in init;
      assert s[..k] == init;
    } else {
      assert s[k] == init[k];
      assert init[k] in d';
      assert s[..k] == init[..k];
      if j < |d'| {
        assert d[j] == d'[j];
        DistinctOrderAt(init, i, j, k);
      }
    }
  }

  /** A duplicate-free sequence has as many elements as distinct values. */
  lemma {:induction false} NoDupsCard<T>(s: seq<T>)
    requires NoDups(s)
    ensures |Elems(s)| == |s|
  {
    if |s| > 0 {
      var init := s[..|s| - 1];
      var last := s[|s| - 1];
      assert NoDups(init);
      NoDupsCard(init);
      assert s == init + [last];
      assert Elems(s) == Elems(init) + {last};
      assert last !in Elems(init);
    }
  }

  /** The number of elements of `Distinct(s)` is the number of distinct values of `s`. */
  lemma DistinctCount<T>(s: seq<T>)
    ensures |Distinct(s)| == |Elems(s)|
  {
    var d := Distinct(s);
    NoDupsCard(d);
    assert Elems(d) == Elems(s);
  }

  /** A sequence whose elements are drawn from a duplicate-free one, each at
      most once as often, is duplicate-free; permutations in particular. */
  lemma SubNoDups<T>(a: seq<T>, b: seq<T>)
    requires multiset(b) <= multiset(a)
    requires NoDups(a)
    ensures NoDups(b)
  {
    forall i, j | 0 <= i < j < |b|
      ensures b[i] != b[j]
    {
      if b[i] == b[j] {
        var x := b[i];
        assert b == b[..j] + b[j..];
        assert x in b[..j];
        assert x in b[j..];
        assert multiset(b)[x] >= 2;
        MultiplicityNoDups(a, x);
        assert false;
      }
    }
  }

  /** In a duplicate-free sequence every value occurs at most once. */
  lemma {:induction false} MultiplicityNoDups<T>(s: seq<T>, x: T)
    requires NoDups(s)
    ensures multiset(s)[x] <= 1
  {
    if |s| > 0 {
      assert s == [s[0]] + s[1..];
      assert NoDups(s[1..]);
      MultiplicityNoDups(s[1..], x);
      if s[0] == x {
        assert x !in s[1..];
      }
    }
  }

  /** `a` is `b` with some elements removed and the rest kept in order. */
  predicate IsSubsequence<T(==)>(a: seq<T>, b: seq<T>)
    decreases |b|
  {
    |a| <= |b| &&
    (|a| == 0
     || (a[0] == b[0] && IsSubsequence(a[1..], b[1..]))
     || IsSubsequence(a, b[1..]))
  }

  /** `s` is non-decreasing in `rank`. */
  predicate SortedBy<T>(s: seq<T>, rank: T -> int) {
    forall i, j :: 0 <= i < j < |s| ==> rank(s[i]) <= rank(s[j])
  }

  /** Inserts `x` before the first element whose rank is not smaller. */
  function Insert<T>(x: T, s: seq<T>, rank: T -> int): (r: seq<T>)
    requires SortedBy(s, rank)
    ensures SortedBy(r, rank)
    ensures multiset(r) == multiset(s) + multiset{x}
    ensures forall k :: 0 <= k < |r| ==> r[k] == x || r[k] in s
  {
    if |s| == 0 then [x]
    else if rank(x) <= rank(s[0]) then [x] + s
    else
      var rest := Insert(x, s[1..], rank);
      assert s == [s[0]] + s[1..];
      HeadBelow(s, x, rest, rank);
      [s[0]] + rest
  }

  /** The head of a sorted sequence may go in front of a sorted sequence whose
      elements are higher-ranked ones or come from the tail. */
  lemma HeadBelow<T>(s: seq<T>, x: T, rest: seq<T>, rank: T -> int)
    requires |s| > 0 && SortedBy(s, rank) && rank(s[0]) < rank(x)
    requires SortedBy(rest, rank)
    requires forall k :: 0 <= k < |rest| ==> rest[k] == x || rest[k] in s[1..]
    ensures SortedBy([s[0]] + rest, rank)
  {
    forall k | 0 <= k < |rest|
      ensures rank(s[0]) <= rank(rest[k])
    {
      if rest[k] != x {
        var j :| 0 <= j < |s| - 1 && s[1..][j] == rest[k];
        assert s[j + 1] == rest[k];
      }
    }
  }

  /** A stable sort of `s` into non-decreasing rank. */
  function SortBy<T>(s: seq<T>, rank: T -> int): (r: seq<T>)
    ensures SortedBy(r, rank)
    ensures multiset(r) == multiset(s)
    ensures |r| == |s|
  {
    if |s| == 0 then []
    else
      assert s == [s[0]] + s[1..];
      Insert(s[0], SortBy(s[1..], rank), rank)
  }

  /** The elements of `s` of rank `v`, in their order in `s`. */
  function WithRank<T>(s: seq<T>, rank: T -> int, v: int): seq<T> {
    if |s| == 0 then []
    else (if rank(s[0]) == v then [s[0]] else []) + WithRank(s[1..], rank, v)
  }

  /** `Insert` places `x` ahead of every element of equal rank and moves no
      other element past another of the same rank. */
  lemma {:induction false} InsertWithRank<T>(x: T, s: seq<T>, rank: T -> int, v: int)
    requires SortedBy(s, rank)
    ensures WithRank(Insert(x, s, rank), rank, v) == (if rank(x) == v then [x] else []) + WithRank(s, rank, v)
  {
    if |s| == 0 {
      WithRankCons(x, [], rank, v);
    } else if rank(x) <= rank(s[0]) {
      WithRankCons(x, s, rank, v);
    } else {
      var rest := Insert(x, s[1..], rank);
      assert Insert(x, s, rank) == [s[0]] + rest;
      InsertWithRank(x, s[1..], rank, v);
      WithRankCons(s[0], rest, rank, v);
      assert WithRank(s, rank, v) == (if rank(s[0]) == v then [s[0]] else []) + WithRank(s[1..], rank, v);
      if rank(x) == v {
        assert rank(s[0]) != v;
      }
    }
  }

  lemma WithRankCons<T>(y: T, t: seq<T>, rank: T -> int, v: int)
    ensures WithRank([y] + t, rank, v) == (if rank(y) == v then [y] else []) + WithRank(t, rank, v)
  {
    assert ([y] + t)[1..] == t;
  }

  /** The sort is stable: the elements of any one rank come out in the order
      they went in. */
  lemma {:induction false} SortStable<T>(s: seq<T>, rank: T -> int, v: int)
    ensures WithRank(SortBy(s, rank), rank, v) == WithRank(s, rank, v)
  {
    if |s| > 0 {
      SortStable(s[1..], rank, v);
      InsertWithRank(s[0], SortBy(s[1..], rank), rank, v);
    }
  }

  /** In a sorted sequence, an element that is not among the first `m` ranks
      no lower than every one of them. */
  lemma PrefixBound<T>(s: seq<T>, rank: T -> int, m: nat, x: T, t: T)
    requires SortedBy(s, rank)
    requires m <= |s|
    requires x in s && x !in s[..m]
    requires t in s[..m]
    ensures rank(t) <= rank(x)
  {
    var j :| 0 <= j < |s| && s[j] == x;
    var i :| 0 <= i < m && s[..m][i] == t;
    assert forall k :: 0 <= k < m ==> s[..m][k] == s[k];
    assert m <= j;
  }
}
