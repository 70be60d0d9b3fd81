/** Group-by-and-sum over a sequence of rows, as `groupby(key)[col].sum()` does
    it: one group per distinct key, holding the sum of the column over the rows
    with that key. Groups come in order of first appearance of their key. */
module Grouping {
  import opened Seqs

  /** One output row of a group-by: a key and the summed column. */
  datatype Group<K> = Group(key: K, total: int)

  /** The keys of a sequence of groups. */
  function GroupKeys<K>(gs: seq<Group<K>>): (ks: seq<K>)
    ensures |ks| == |gs|
    ensures forall i :: 0 <= i < |gs| ==> ks[i] == gs[i].key
  {
    seq(|gs|, i requires 0 <= i < |gs| => gs[i].key)
  }

  /** The sum of `val` over all rows. */
  function SumOf<T>(rows: seq<T>, val: T -> int): int {
    if |rows| == 0 then 0 else val(rows[0]) + SumOf(rows[1..], val)
  }

  /** The sum of `val` over the rows whose key is `k`. */
  function TotalOf<T, K(==)>(rows: seq<T>, key: T -> K, val: T -> int, k: K): int {
    if |rows| == 0 then 0
    else (if key(rows[0]) == k then val(rows[0]) else 0) + TotalOf(rows[1..], key, val, k)
  }

  /** The sum of the totals column of a group-by result. */
  function SumTotals<K>(gs: seq<Group<K>>): int {
    if |gs| == 0 then 0 else gs[0].total + SumTotals(gs[1..])
  }

  /** One group per key of `ks`, in that order. */
  function GroupsFor<T, K(==)>(rows: seq<T>, key: T -> K, val: T -> int, ks: seq<K>): (gs: seq<Group<K>>)
    ensures |gs| == |ks|
    ensures forall i :: 0 <= i < |ks| ==> gs[i] == Group(ks[i], TotalOf(rows, key, val, ks[i]))
  {
    if |ks| == 0 then []
    else [Group(ks[0], TotalOf(rows, key, val, ks[0]))] + GroupsFor(rows, key, val, ks[1..])
  }

  /** `groupby(key)[val].sum()`: every key occurs in exactly one group, every
      group's key comes from some row, and the totals column adds up to the
      column's sum over all rows. */
  function GroupSum<T, K(==)>(rows: seq<T>, key: T -> K, val: T -> int): (gs: seq<Group<K>>)
    ensures forall i, j :: 0 <= i < j < |gs| ==> gs[i].key != gs[j].key
    ensures forall i :: 0 <= i < |rows| ==> key(rows[i]) in GroupKeys(gs)
    ensures forall i :: 0 <= i < |gs| ==> gs[i].key in Column(rows, key)
    ensures forall i :: 0 <= i < |gs| ==> gs[i].total == TotalOf(rows, key, val, gs[i].key)
    ensures |gs| == |Elems(Column(rows, key))|
    ensures SumTotals(gs) == SumOf(rows, val)
  {
    var ks := Distinct(Column(rows, key));
    var gs := GroupsFor(rows, key, val, ks);
    assert GroupKeys(gs) == ks;
    DistinctCount(Column(rows, key));
    CoveredSum(rows, key, val, ks);
    gs
  }

  /** Groups over no rows total zero. */
  lemma {:induction false} NoRowsSum<T, K>(key: T -> K, val: T -> int, ks: seq<K>)
    ensures SumTotals(GroupsFor([], key, val, ks)) == 0
  {
    if |ks| > 0 {
      NoRowsSum(key, val, ks[1..]);
    }
  }

  /** A row whose key has no group adds nothing to the groups' totals. */
  lemma {:induction false} AbsentKeySum<T, K>(r: T, rest: seq<T>, key: T -> K, val: T -> int, ks: seq<K>)
    requires key(r) !in ks
    ensures SumTotals(GroupsFor([r] + rest, key, val, ks)) == SumTotals(GroupsFor(rest, key, val, ks))
  {
    if |ks| > 0 {
      assert ([r] + rest)[1..] == rest;
      AbsentKeySum(r, rest, key, val, ks[1..]);
    }
  }

  /** A row whose key has exactly one group adds its value to the groups' totals. */
  lemma {:induction false} PresentKeySum<T, K>(r: T, rest: seq<T>, key: T -> K, val: T -> int, ks: seq<K>)
    requires NoDups(ks)
    requires key(r) in ks
    ensures SumTotals(GroupsFor([r] + rest, key, val, ks))
         == SumTotals(GroupsFor(rest, key, val, ks)) + val(r)
  {
    assert ([r] + rest)[1..] == rest;
    assert NoDups(ks[1..]);
    if ks[0] == key(r) {
      assert key(r) !in ks[1..];
      AbsentKeySum(r, rest, key, val, ks[1..]);
    } else {
      PresentKeySum(r, rest, key, val, ks[1..]);
    }
  }

  /** Groups over duplicate-free keys that cover every row's key account for
      the whole column: sum preservation of a group-by. */
  lemma {:induction false} CoveredSum<T, K>(rows: seq<T>, key: T -> K, val: T -> int, ks: seq<K>)
    requires NoDups(ks)
    requires forall i :: 0 <= i < |rows| ==> key(rows[i]) in ks
    ensures SumTotals(GroupsFor(rows, key, val, ks)) == SumOf(rows, val)
  {
    if |rows| == 0 {
      NoRowsSum(key, val, ks);
    } else {
      assert rows == [rows[0]] + rows[1..];
      CoveredSum(rows[1..], key, val, ks);
      PresentKeySum(rows[0], rows[1..], key, val, ks);
    }
  }

  /** Reordering groups does not change the sum of their totals. */
  lemma {:induction false} InsertSum<K>(g: Group<K>, gs: seq<Group<K>>, rank: Group<K> -> int)
    requires SortedBy(gs, rank)
    ensures SumTotals(Insert(g, gs, rank)) == SumTotals(gs) + g.total
  {
    if |gs| > 0 && rank(g) > rank(gs[0]) {
      InsertSum(g, gs[1..], rank);
      assert ([gs[0]] + Insert(g, gs[1..], rank))[1..] == Insert(g, gs[1..], rank);
    } else if |gs| > 0 {
      assert ([g] + gs)[1..] == gs;
    }
  }

  /** Sorting groups does not change the sum of their totals. */
  lemma {:induction false} SortSum<K>(gs: seq<Group<K>>, rank: Group<K> -> int)
    ensures SumTotals(SortBy(gs, rank)) == SumTotals(gs)
  {
    if |gs| > 0 {
      SortSum(gs[1..], rank);
      InsertSum(gs[0], SortBy(gs[1..], rank), rank);
    }
  }
}
