/** The derived views computed from the filtered table: the KPI header, the
    zone aggregate behind the map, the revenue trajectory, and the
    leaderboards; and the whole pipeline from the loaded table and a selection
    to either the views or the reason the dashboard halted. */
module Views {
  import opened Results
  import opened Seqs
  import opened Grouping
  import opened Periods
  import opened Zones
  import opened Table
  import opened Filter

  /** How many rows the top and bottom leaderboards show. */
  const BoardSize: nat := 10

  // ----- KPI header -----

  /** Total revenue, total volume and the number of active outlets. */
  datatype Kpis = Kpis(revenue: int, volume: int, outlets: nat)

  /** `nunique()` of the `Store Name` column. */
  function Outlets(rows: seq<Record>): (n: nat)
    ensures n == |Elems(Column(rows, StoreOf))|
    ensures |rows| > 0 ==> 1 <= n <= |rows|
  {
    DistinctCount(Column(rows, StoreOf));
    |Distinct(Column(rows, StoreOf))|
  }

  /** The KPI header: sums of `Amount` and `Unit Sold` and the distinct store
      count. The dashboard computes it only for a non-empty filtered table, for
      which there is at least one and at most one outlet per row. */
  function KpisOf(rows: seq<Record>): (k: Kpis)
    ensures k.revenue == SumOf(rows, AmountOf) && k.volume == SumOf(rows, UnitsOf)
    ensures k.outlets == |Elems(Column(rows, StoreOf))|
    ensures |rows| > 0 ==> 1 <= k.outlets <= |rows|
  {
    Kpis(SumOf(rows, AmountOf), SumOf(rows, UnitsOf), Outlets(rows))
  }

  // ----- Zone aggregate (map view) -----

  /** The group-by key of the map view. */
  datatype ZoneKey = ZoneKey(zone: string, lat: real, lon: real)

  /** One map beacon: a zone with its anchor and its summed amount and volume. */
  datatype ZoneTotal = ZoneTotal(key: ZoneKey, amount: int, units: int)

  function ZoneKeyOf(r: Record): ZoneKey {
    ZoneKey(r.zone, r.lat, r.lon)
  }

  function KeyZone(k: ZoneKey): string {
    k.zone
  }

  function ZoneRowsFor(rows: seq<Record>, ks: seq<ZoneKey>): (za: seq<ZoneTotal>)
    ensures |za| == |ks|
    ensures forall i :: 0 <= i < |ks| ==>
      za[i] == ZoneTotal(ks[i], TotalOf(rows, ZoneKeyOf, AmountOf, ks[i]), TotalOf(rows, ZoneKeyOf, UnitsOf, ks[i]))
  {
    if |ks| == 0 then []
    else
      [ZoneTotal(ks[0], TotalOf(rows, ZoneKeyOf, AmountOf, ks[0]), TotalOf(rows, ZoneKeyOf, UnitsOf, ks[0]))]
        + ZoneRowsFor(rows, ks[1..])
  }

  function AmountColumn(za: seq<ZoneTotal>): int {
    if |za| == 0 then 0 else za[0].amount + AmountColumn(za[1..])
  }

  function UnitsColumn(za: seq<ZoneTotal>): int {
    if |za| == 0 then 0 else za[0].units + UnitsColumn(za[1..])
  }

  /** The beacons' columns are the totals of the two group-by sums over the same keys. */
  lemma {:induction false} ZoneColumns(rows: seq<Record>, ks: seq<ZoneKey>)
    ensures AmountColumn(ZoneRowsFor(rows, ks)) == SumTotals(GroupsFor(rows, ZoneKeyOf, AmountOf, ks))
    ensures UnitsColumn(ZoneRowsFor(rows, ks)) == SumTotals(GroupsFor(rows, ZoneKeyOf, UnitsOf, ks))
  {
    if |ks| > 0 {
      ZoneColumns(rows, ks[1..]);
    }
  }

  /** `groupby(['Zone', 'Lat', 'Lon'])[['Amount', 'Unit Sold']].sum()`: one
      beacon per distinct key, each key taken from some row, each beacon
      holding its rows' sums, and both columns adding up to the KPI totals. */
  function ZoneAggregate(rows: seq<Record>): (za: seq<ZoneTotal>)
    ensures forall i, j :: 0 <= i < j < |za| ==> za[i].key != za[j].key
    ensures forall i :: 0 <= i < |rows| ==> exists j :: 0 <= j < |za| && za[j].key == ZoneKeyOf(rows[i])
    ensures forall j :: 0 <= j < |za| ==> za[j].key in Column(rows, ZoneKeyOf)
    ensures forall j :: 0 <= j < |za| ==>
      za[j].amount == TotalOf(rows, ZoneKeyOf, AmountOf, za[j].key) &&
      za[j].units == TotalOf(rows, ZoneKeyOf, UnitsOf, za[j].key)
    ensures |za| == |Elems(Column(rows, ZoneKeyOf))|
    ensures AmountColumn(za) == KpisOf(rows).revenue
    ensures UnitsColumn(za) == KpisOf(rows).volume
  {
    ZoneKeyFacts(rows, Distinct(Column(rows, ZoneKeyOf)), ZoneRowsFor(rows, Distinct(Column(rows, ZoneKeyOf))));
    ZoneSumFacts(rows, Distinct(Column(rows, ZoneKeyOf)), ZoneRowsFor(rows, Distinct(Column(rows, ZoneKeyOf))));
    ZoneRowsFor(rows, Distinct(Column(rows, ZoneKeyOf)))
  }

  lemma ZoneKeyFacts(rows: seq<Record>, ks: seq<ZoneKey>, za: seq<ZoneTotal>)
    requires ks == Distinct(Column(rows, ZoneKeyOf)) && za == ZoneRowsFor(rows, ks)
    ensures forall i, j :: 0 <= i < j < |za| ==> za[i].key != za[j].key
    ensures forall i :: 0 <= i < |rows| ==> exists j :: 0 <= j < |za| && za[j].key == ZoneKeyOf(rows[i])
    ensures forall j :: 0 <= j < |za| ==> za[j].key in Column(rows, ZoneKeyOf)
    ensures |za| == |Elems(Column(rows, ZoneKeyOf))|
  {
    DistinctCount(Column(rows, ZoneKeyOf));
    forall i | 0 <= i < |rows|
      ensures exists j :: 0 <= j < |za| && za[j].key == ZoneKeyOf(rows[i])
    {
      assert Column(rows, ZoneKeyOf)[i] == ZoneKeyOf(rows[i]);
      var j :| 0 <= j < |ks| && ks[j] == ZoneKeyOf(rows[i]);
      assert za[j].key == ks[j];
    }
  }

  lemma ZoneSumFacts(rows: seq<Record>, ks: seq<ZoneKey>, za: seq<ZoneTotal>)
    requires ks == Distinct(Column(rows, ZoneKeyOf)) && za == ZoneRowsFor(rows, ks)
    ensures AmountColumn(za) == SumOf(rows, AmountOf)
    ensures UnitsColumn(za) == SumOf(rows, UnitsOf)
  {
    ZoneColumns(rows, ks);
    assert forall i :: 0 <= i < |rows| ==> Column(rows, ZoneKeyOf)[i] == ZoneKeyOf(rows[i]);
    CoveredSum(rows, ZoneKeyOf, AmountOf, ks);
    CoveredSum(rows, ZoneKeyOf, UnitsOf, ks);
  }

  /** An injective map keeps the size of a set. */
  lemma {:induction false} InjectiveImageCard(xs: set<ZoneKey>)
    requires forall a, b :: a in xs && b in xs && KeyZone(a) == KeyZone(b) ==> a == b
    ensures |set a | a in xs :: KeyZone(a)| == |xs|
  {
    if xs != {} {
      var a :| a in xs;
      var rest := xs - {a};
      InjectiveImageCard(rest);
      assert (set b | b in xs :: KeyZone(b)) == (set b | b in rest :: KeyZone(b)) + {KeyZone(a)};
      assert KeyZone(a) !in (set b | b in rest :: KeyZone(b));
    }
  }

  /** On a loaded table, where each record's coordinates are its zone's
      anchor, the map view has exactly one beacon per distinct zone. */
  lemma ZoneAggregatePerZone(rows: seq<Record>)
    requires forall i :: 0 <= i < |rows| ==> Anchored(rows[i])
    ensures |ZoneAggregate(rows)| == |Elems(Column(rows, ZoneOf))|
  {
    var keys := Elems(Column(rows, ZoneKeyOf));
    forall a, b | a in keys && b in keys && KeyZone(a) == KeyZone(b)
      ensures a == b
    {
      var i :| 0 <= i < |rows| && Column(rows, ZoneKeyOf)[i] == a;
      var j :| 0 <= j < |rows| && Column(rows, ZoneKeyOf)[j] == b;
      assert Anchored(rows[i]) && Anchored(rows[j]);
    }
    InjectiveImageCard(keys);
    assert (set a | a in keys :: KeyZone(a)) == Elems(Column(rows, ZoneOf)) by {
      forall z | z in Elems(Column(rows, ZoneOf))
        ensures z in (set a | a in keys :: KeyZone(a))
      {
        var i :| 0 <= i < |rows| && Column(rows, ZoneOf)[i] == z;
        assert Column(rows, ZoneKeyOf)[i] in keys;
      }
    }
  }

  // ----- Revenue trajectory -----

  /** A row's amount keyed by its date, for rows that have one. */
  datatype Dated = Dated(date: Period, amount: int)

  function DatedKey(d: Dated): Period { d.date }
  function DatedAmount(d: Dated): int { d.amount }

  /** The rows with a date, in order; `groupby` drops rows whose key is null. */
  function DatedRows(rows: seq<Record>): (ds: seq<Dated>)
    ensures |ds| <= |rows|
  {
    if |rows| == 0 then []
    else
      match rows[0].date
      case Some(p) => [Dated(p, rows[0].amount)] + DatedRows(rows[1..])
      case None => DatedRows(rows[1..])
  }

  /** The revenue of the rows without a date. */
  function UndatedRevenue(rows: seq<Record>): int {
    if |rows| == 0 then 0
    else (if rows[0].date.None? then rows[0].amount else 0) + UndatedRevenue(rows[1..])
  }

  /** The dated rows and the undated rows together hold all the revenue. */
  lemma {:induction false} DatedSplit(rows: seq<Record>)
    ensures SumOf(DatedRows(rows), DatedAmount) + UndatedRevenue(rows) == SumOf(rows, AmountOf)
  {
    if |rows| > 0 {
      DatedSplit(rows[1..]);
      if rows[0].date.Some? {
        assert DatedRows(rows)[1..] == DatedRows(rows[1..]);
      }
    }
  }

  /** A date's total over the dated rows is the revenue of the rows with that date. */
  lemma {:induction false} DatedTotal(rows: seq<Record>, p: Period)
    ensures TotalOf(DatedRows(rows), DatedKey, DatedAmount, p) == TotalOf(rows, DateOf, AmountOf, Some(p))
  {
    if |rows| > 0 {
      DatedTotal(rows[1..], p);
      if rows[0].date.Some? {
        assert DatedRows(rows)[1..] == DatedRows(rows[1..]);
      }
    }
  }

  /** Every date of a row occurs among the dated rows' keys. */
  lemma {:induction false} DatedKeys(rows: seq<Record>, i: nat)
    requires i < |rows| && rows[i].date.Some?
    ensures rows[i].date.value in Column(DatedRows(rows), DatedKey)
  {
    var ds := DatedRows(rows);
    if i == 0 {
      assert Column(ds, DatedKey)[0] == rows[0].date.value;
    } else {
      DatedKeys(rows[1..], i - 1);
      var rest := DatedRows(rows[1..]);
      var k :| 0 <= k < |rest| && Column(rest, DatedKey)[k] == rows[i].date.value;
      if rows[0].date.Some? {
        assert ds[k + 1] == rest[k];
        assert Column(ds, DatedKey)[k + 1] == rows[i].date.value;
      } else {
        assert ds == rest;
      }
    }
  }

  /** Every dated row's date is the date of some row. */
  lemma {:induction false} DatedFromRows(rows: seq<Record>, k: nat)
    requires k < |DatedRows(rows)|
    ensures Some(DatedRows(rows)[k].date) in Column(rows, DateOf)
  {
    var ds := DatedRows(rows);
    if rows[0].date.Some? && k == 0 {
      assert Column(rows, DateOf)[0] == rows[0].date;
    } else {
      var k' := if rows[0].date.Some? then k - 1 else k;
      assert ds[k] == DatedRows(rows[1..])[k'];
      DatedFromRows(rows[1..], k');
      var j :| 0 <= j < |rows| - 1 && Column(rows[1..], DateOf)[j] == Some(ds[k].date);
      assert Column(rows, DateOf)[j + 1] == Some(ds[k].date);
    }
  }

  function SeriesRank(g: Group<Period>): int { Rank(g.key) }

  /** Groups drawn from groups with distinct keys, by sorting or cutting,
      have distinct keys. */
  lemma SortedKeysDistinct<K>(gs: seq<Group<K>>, s: seq<Group<K>>)
    requires forall i, j :: 0 <= i < j < |gs| ==> gs[i].key != gs[j].key
    requires multiset(s) <= multiset(gs)
    ensures forall i, j :: 0 <= i < j < |s| ==> s[i].key != s[j].key
  {
    assert NoDups(gs);
    SubNoDups(gs, s);
    forall i, j | 0 <= i < j < |s|
      ensures s[i].key != s[j].key
    {
      assert s[i] in multiset(gs) && s[j] in multiset(gs);
      var a :| 0 <= a < |gs| && gs[a] == s[i];
      var b :| 0 <= b < |gs| && gs[b] == s[j];
      assert a != b;
    }
  }

  /** `groupby('Date')[['Amount']].sum().sort_values('Date')`: one point per
      distinct non-null date, dates strictly ascending, each point holding the
      revenue of its date's rows; the points plus the undated rows account for
      the KPI revenue. */
  function RevenueSeries(rows: seq<Record>): (series: seq<Group<Period>>)
    ensures forall i, j :: 0 <= i < j < |series| ==> Before(series[i].key, series[j].key)
    ensures forall i :: 0 <= i < |rows| && rows[i].date.Some? ==>
      rows[i].date.value in GroupKeys(series)
    ensures forall j :: 0 <= j < |series| ==> Some(series[j].key) in Column(rows, DateOf)
    ensures forall j :: 0 <= j < |series| ==>
      series[j].total == TotalOf(rows, DateOf, AmountOf, Some(series[j].key))
    ensures SumTotals(series) + UndatedRevenue(rows) == KpisOf(rows).revenue
  {
    var ds := DatedRows(rows);
    var gs := GroupSum(ds, DatedKey, DatedAmount);
    var series := SortBy(gs, SeriesRank);
    SeriesFacts(rows, ds, gs, series);
    series
  }

  lemma SeriesFacts(rows: seq<Record>, ds: seq<Dated>, gs: seq<Group<Period>>, series: seq<Group<Period>>)
    requires ds == DatedRows(rows)
    requires gs == GroupSum(ds, DatedKey, DatedAmount)
    requires series == SortBy(gs, SeriesRank)
    ensures forall i, j :: 0 <= i < j < |series| ==> Before(series[i].key, series[j].key)
    ensures forall i :: 0 <= i < |rows| && rows[i].date.Some? ==>
      rows[i].date.value in GroupKeys(series)
    ensures forall j :: 0 <= j < |series| ==> Some(series[j].key) in Column(rows, DateOf)
    ensures forall j :: 0 <= j < |series| ==>
      series[j].total == TotalOf(rows, DateOf, AmountOf, Some(series[j].key))
    ensures SumTotals(series) + UndatedRevenue(rows) == SumOf(rows, AmountOf)
  {
    SeriesAscending(gs, series);
    forall i | 0 <= i < |rows| && rows[i].date.Some?
      ensures rows[i].date.value in GroupKeys(series)
    {
      SeriesCovers(rows, ds, gs, series, i);
    }
    forall j | 0 <= j < |series|
      ensures Some(series[j].key) in Column(rows, DateOf)
      ensures series[j].total == TotalOf(rows, DateOf, AmountOf, Some(series[j].key))
    {
      SeriesPoint(rows, ds, gs, series, j);
    }
    SortSum(gs, SeriesRank);
    DatedSplit(rows);
  }

  lemma SeriesAscending(gs: seq<Group<Period>>, series: seq<Group<Period>>)
    requires forall i, j :: 0 <= i < j < |gs| ==> gs[i].key != gs[j].key
    requires series == SortBy(gs, SeriesRank)
    ensures forall i, j :: 0 <= i < j < |series| ==> Before(series[i].key, series[j].key)
  {
    SortedKeysDistinct(gs, series);
    forall i, j | 0 <= i < j < |series|
      ensures Before(series[i].key, series[j].key)
    {
      assert SeriesRank(series[i]) <= SeriesRank(series[j]);
      RankOrder(series[i].key, series[j].key);
    }
  }

  lemma SeriesCovers(rows: seq<Record>, ds: seq<Dated>, gs: seq<Group<Period>>, series: seq<Group<Period>>, i: nat)
    requires ds == DatedRows(rows)
    requires gs == GroupSum(ds, DatedKey, DatedAmount)
    requires multiset(series) == multiset(gs)
    requires i < |rows| && rows[i].date.Some?
    ensures rows[i].date.value in GroupKeys(series)
  {
    DatedKeys(rows, i);
    var k :| 0 <= k < |ds| && Column(ds, DatedKey)[k] == rows[i].date.value;
    assert DatedKey(ds[k]) in GroupKeys(gs);
    var a :| 0 <= a < |gs| && GroupKeys(gs)[a] == rows[i].date.value;
    assert gs[a] in multiset(series);
    var b :| 0 <= b < |series| && series[b] == gs[a];
    assert GroupKeys(series)[b] == rows[i].date.value;
  }

  lemma SeriesPoint(rows: seq<Record>, ds: seq<Dated>, gs: seq<Group<Period>>, series: seq<Group<Period>>, j: nat)
    requires ds == DatedRows(rows)
    requires gs == GroupSum(ds, DatedKey, DatedAmount)
    requires multiset(series) == multiset(gs)
    requires j < |series|
    ensures Some(series[j].key) in Column(rows, DateOf)
    ensures series[j].total == TotalOf(rows, DateOf, AmountOf, Some(series[j].key))
  {
    assert series[j] in multiset(gs);
    var a :| 0 <= a < |gs| && gs[a] == series[j];
    assert gs[a].key in Column(ds, DatedKey);
    var k :| 0 <= k < |ds| && Column(ds, DatedKey)[k] == gs[a].key;
    DatedFromRows(rows, k);
    DatedTotal(rows, gs[a].key);
  }

  // ----- Leaderboards -----

  function NegTotal<K>(g: Group<K>): int { -g.total }
  function Total<K>(g: Group<K>): int { g.total }

  /** A sorted sequence splits into the first `m` elements and the rest. */
  lemma PrefixMultiset<T>(s: seq<T>, m: nat)
    requires m <= |s|
    ensures multiset(s[..m]) <= multiset(s)
  {
    assert s == s[..m] + s[m..];
  }

  /** `nlargest(n)`: the min(n, |gs|) largest totals, largest first; every
      group left out totals no more than any group listed. */
  function TopN<K>(gs: seq<Group<K>>, n: nat): (top: seq<Group<K>>)
    ensures |top| == Min(n, |gs|)
    ensures multiset(top) <= multiset(gs)
    ensures forall i, j :: 0 <= i < j < |top| ==> top[i].total >= top[j].total
    ensures forall a, i :: 0 <= a < |gs| && gs[a] !in top && 0 <= i < |top| ==> gs[a].total <= top[i].total
  {
    var sorted := SortBy(gs, NegTotal);
    var m := Min(n, |gs|);
    PrefixMultiset(sorted, m);
    CutBound(gs, sorted, NegTotal, m);
    sorted[..m]
  }

  /** `nsmallest(n)`: the min(n, |gs|) smallest totals, smallest first; every
      group left out totals no less than any group listed. */
  function BottomN<K>(gs: seq<Group<K>>, n: nat): (bottom: seq<Group<K>>)
    ensures |bottom| == Min(n, |gs|)
    ensures multiset(bottom) <= multiset(gs)
    ensures forall i, j :: 0 <= i < j < |bottom| ==> bottom[i].total <= bottom[j].total
    ensures forall a, i :: 0 <= a < |gs| && gs[a] !in bottom && 0 <= i < |bottom| ==> gs[a].total >= bottom[i].total
  {
    var sorted := SortBy(gs, Total);
    var m := Min(n, |gs|);
    PrefixMultiset(sorted, m);
    CutBound(gs, sorted, Total, m);
    sorted[..m]
  }

  /** Every group of `gs` outside the first `m` of a sorting of `gs` ranks no
      lower than each of those `m`. */
  lemma CutBound<K>(gs: seq<Group<K>>, sorted: seq<Group<K>>, rank: Group<K> -> int, m: nat)
    requires SortedBy(sorted, rank) && multiset(sorted) == multiset(gs)
    requires m <= |sorted|
    ensures forall a, i :: 0 <= a < |gs| && gs[a] !in sorted[..m] && 0 <= i < m ==>
      rank(sorted[..m][i]) <= rank(gs[a])
  {
    forall a, i | 0 <= a < |gs| && gs[a] !in sorted[..m] && 0 <= i < m
      ensures rank(sorted[..m][i]) <= rank(gs[a])
    {
      assert gs[a] in multiset(sorted);
      PrefixBound(sorted, rank, m, gs[a], sorted[..m][i]);
    }
  }

  /** `sort_values(ascending=False)`: every group, largest total first. */
  function Descending<K>(gs: seq<Group<K>>): (board: seq<Group<K>>)
    ensures multiset(board) == multiset(gs)
    ensures forall i, j :: 0 <= i < j < |board| ==> board[i].total >= board[j].total
  {
    SortBy(gs, NegTotal)
  }

  /** Entries drawn from a group-by result are distinct keys of the rows,
      each with its rows' summed value. */
  lemma BoardEntries<T, K>(rows: seq<T>, key: T -> K, val: T -> int, board: seq<Group<K>>)
    requires multiset(board) <= multiset(GroupSum(rows, key, val))
    ensures forall i :: 0 <= i < |board| ==>
      board[i].key in Column(rows, key) && board[i].total == TotalOf(rows, key, val, board[i].key)
    ensures forall i, j :: 0 <= i < j < |board| ==> board[i].key != board[j].key
  {
    var gs := GroupSum(rows, key, val);
    forall i | 0 <= i < |board|
      ensures board[i].key in Column(rows, key)
      ensures board[i].total == TotalOf(rows, key, val, board[i].key)
    {
      assert board[i] in multiset(gs);
    }
    SortedKeysDistinct(gs, board);
  }

  /** A key of the rows missing from a board is the key of a group the board
      left out. */
  lemma LeftOutGroup<T, K>(rows: seq<T>, key: T -> K, val: T -> int, board: seq<Group<K>>, k: K)
    returns (a: nat)
    requires k in Column(rows, key) && k !in GroupKeys(board)
    ensures a < |GroupSum(rows, key, val)| && GroupSum(rows, key, val)[a].key == k
    ensures GroupSum(rows, key, val)[a] !in board
  {
    var gs := GroupSum(rows, key, val);
    var j :| 0 <= j < |rows| && Column(rows, key)[j] == k;
    assert key(rows[j]) in GroupKeys(gs);
    a :| 0 <= a < |gs| && GroupKeys(gs)[a] == k;
    forall b | 0 <= b < |board|
      ensures board[b] != gs[a]
    {
      assert GroupKeys(board)[b] != k;
    }
  }

  /** The `nlargest` cut-off in terms of keys: no key of the rows left off the
      board totals more than a listed one. */
  lemma TopCutoff<T, K>(rows: seq<T>, key: T -> K, val: T -> int, top: seq<Group<K>>)
    requires forall a, i :: 0 <= a < |GroupSum(rows, key, val)| && GroupSum(rows, key, val)[a] !in top && 0 <= i < |top| ==>
      GroupSum(rows, key, val)[a].total <= top[i].total
    ensures forall k, i :: k in Column(rows, key) && k !in GroupKeys(top) && 0 <= i < |top| ==>
      TotalOf(rows, key, val, k) <= top[i].total
  {
    forall k, i | k in Column(rows, key) && k !in GroupKeys(top) && 0 <= i < |top|
      ensures TotalOf(rows, key, val, k) <= top[i].total
    {
      var a := LeftOutGroup(rows, key, val, top, k);
    }
  }

  /** The `nsmallest` cut-off in terms of keys: no key of the rows left off the
      board totals less than a listed one. */
  lemma BottomCutoff<T, K>(rows: seq<T>, key: T -> K, val: T -> int, bottom: seq<Group<K>>)
    requires forall a, i :: 0 <= a < |GroupSum(rows, key, val)| && GroupSum(rows, key, val)[a] !in bottom && 0 <= i < |bottom| ==>
      GroupSum(rows, key, val)[a].total >= bottom[i].total
    ensures forall k, i :: k in Column(rows, key) && k !in GroupKeys(bottom) && 0 <= i < |bottom| ==>
      TotalOf(rows, key, val, k) >= bottom[i].total
  {
    forall k, i | k in Column(rows, key) && k !in GroupKeys(bottom) && 0 <= i < |bottom|
      ensures TotalOf(rows, key, val, k) >= bottom[i].total
    {
      var a := LeftOutGroup(rows, key, val, bottom, k);
    }
  }

  /** Top 10 stores by revenue: min(10, outlets) distinct stores, each with
      its revenue, largest first; no store left off has more revenue than a
      listed one. */
  function TopStores(rows: seq<Record>): (top: seq<Group<string>>)
    ensures |top| == Min(BoardSize, KpisOf(rows).outlets)
    ensures forall i :: 0 <= i < |top| ==>
      top[i].key in Column(rows, StoreOf) && top[i].total == TotalOf(rows, StoreOf, AmountOf, top[i].key)
    ensures forall i, j :: 0 <= i < j < |top| ==> top[i].key != top[j].key
    ensures forall i, j :: 0 <= i < j < |top| ==> top[i].total >= top[j].total
    ensures forall s, i :: s in Column(rows, StoreOf) && s !in GroupKeys(top) && 0 <= i < |top| ==>
      TotalOf(rows, StoreOf, AmountOf, s) <= top[i].total
  {
    var top := TopN(GroupSum(rows, StoreOf, AmountOf), BoardSize);
    BoardEntries(rows, StoreOf, AmountOf, top);
    TopCutoff(rows, StoreOf, AmountOf, top);
    top
  }

  /** Bottom 10 stores by revenue: min(10, outlets) distinct stores, each with
      its revenue, smallest first; no store left off has less revenue than a
      listed one. */
  function BottomStores(rows: seq<Record>): (bottom: seq<Group<string>>)
    ensures |bottom| == Min(BoardSize, KpisOf(rows).outlets)
    ensures forall i :: 0 <= i < |bottom| ==>
      bottom[i].key in Column(rows, StoreOf) && bottom[i].total == TotalOf(rows, StoreOf, AmountOf, bottom[i].key)
    ensures forall i, j :: 0 <= i < j < |bottom| ==> bottom[i].key != bottom[j].key
    ensures forall i, j :: 0 <= i < j < |bottom| ==> bottom[i].total <= bottom[j].total
    ensures forall s, i :: s in Column(rows, StoreOf) && s !in GroupKeys(bottom) && 0 <= i < |bottom| ==>
      TotalOf(rows, StoreOf, AmountOf, s) >= bottom[i].total
  {
    var bottom := BottomN(GroupSum(rows, StoreOf, AmountOf), BoardSize);
    BoardEntries(rows, StoreOf, AmountOf, bottom);
    BottomCutoff(rows, StoreOf, AmountOf, bottom);
    bottom
  }

  /** Top 10 SKUs by volume: min(10, distinct SKUs) distinct SKUs, each with
      its volume, largest first; no SKU left off has more volume than a
      listed one. */
  function TopSkus(rows: seq<Record>): (top: seq<Group<string>>)
    ensures |top| == Min(BoardSize, |Elems(Column(rows, SkuOf))|)
    ensures forall i :: 0 <= i < |top| ==>
      top[i].key in Column(rows, SkuOf) && top[i].total == TotalOf(rows, SkuOf, UnitsOf, top[i].key)
    ensures forall i, j :: 0 <= i < j < |top| ==> top[i].key != top[j].key
    ensures forall i, j :: 0 <= i < j < |top| ==> top[i].total >= top[j].total
    ensures forall s, i :: s in Column(rows, SkuOf) && s !in GroupKeys(top) && 0 <= i < |top| ==>
      TotalOf(rows, SkuOf, UnitsOf, s) <= top[i].total
  {
    var top := TopN(GroupSum(rows, SkuOf, UnitsOf), BoardSize);
    BoardEntries(rows, SkuOf, UnitsOf, top);
    TopCutoff(rows, SkuOf, UnitsOf, top);
    top
  }

  /** All zones by revenue, with no cut-off: every distinct zone exactly once
      with its revenue, largest first. */
  function ZoneBoard(rows: seq<Record>): (board: seq<Group<string>>)
    ensures |board| == |Elems(Column(rows, ZoneOf))|
    ensures forall i :: 0 <= i < |rows| ==> rows[i].zone in GroupKeys(board)
    ensures forall i :: 0 <= i < |board| ==>
      board[i].key in Column(rows, ZoneOf) && board[i].total == TotalOf(rows, ZoneOf, AmountOf, board[i].key)
    ensures forall i, j :: 0 <= i < j < |board| ==> board[i].key != board[j].key
    ensures forall i, j :: 0 <= i < j < |board| ==> board[i].total >= board[j].total
  {
    ZoneBoardFacts(rows);
    Descending(GroupSum(rows, ZoneOf, AmountOf))
  }

  lemma ZoneBoardFacts(rows: seq<Record>)
    ensures var board := Descending(GroupSum(rows, ZoneOf, AmountOf));
      && |board| == |Elems(Column(rows, ZoneOf))|
      && (forall i :: 0 <= i < |rows| ==> rows[i].zone in GroupKeys(board))
      && (forall i :: 0 <= i < |board| ==>
            board[i].key in Column(rows, ZoneOf) && board[i].total == TotalOf(rows, ZoneOf, AmountOf, board[i].key))
      && (forall i, j :: 0 <= i < j < |board| ==> board[i].key != board[j].key)
  {
    var gs := GroupSum(rows, ZoneOf, AmountOf);
    var board := Descending(gs);
    assert |board| == |multiset(board)| == |multiset(gs)| == |gs|;
    BoardEntries(rows, ZoneOf, AmountOf, board);
    PermutedKeys(gs, board);
  }

  /** Reordering groups keeps every key. */
  lemma PermutedKeys<K>(gs: seq<Group<K>>, board: seq<Group<K>>)
    requires multiset(board) == multiset(gs)
    ensures forall k :: k in GroupKeys(gs) ==> k in GroupKeys(board)
  {
    forall k | k in GroupKeys(gs)
      ensures k in GroupKeys(board)
    {
      var a :| 0 <= a < |gs| && GroupKeys(gs)[a] == k;
      assert gs[a] in multiset(board);
      var b :| 0 <= b < |board| && board[b] == gs[a];
      assert GroupKeys(board)[b] == k;
    }
  }

  // ----- The pipeline -----

  /** Everything the dashboard renders for one selection. */
  datatype Dashboard = Dashboard(
    periods: seq<string>,
    filtered: seq<Record>,
    kpis: Kpis,
    zones: seq<ZoneTotal>,
    series: seq<Group<Period>>,
    topStores: seq<Group<string>>,
    bottomStores: seq<Group<string>>,
    topSkus: seq<Group<string>>,
    zoneBoard: seq<Group<string>>)

  /** The views of a non-empty filtered table. They agree with each other: the
      map's beacons add up to the KPI revenue and volume, the revenue series
      plus the undated rows' revenue is the KPI revenue, the store boards are
      cut at min(10, outlets), and the zone board has one entry per zone. */
  function ViewsOf(periods: seq<string>, rows: seq<Record>): (d: Dashboard)
    ensures d.kpis.revenue == SumOf(rows, AmountOf) && d.kpis.volume == SumOf(rows, UnitsOf)
    ensures AmountColumn(d.zones) == d.kpis.revenue && UnitsColumn(d.zones) == d.kpis.volume
    ensures SumTotals(d.series) + UndatedRevenue(d.filtered) == d.kpis.revenue
    ensures |d.topStores| == Min(BoardSize, d.kpis.outlets) && |d.bottomStores| == Min(BoardSize, d.kpis.outlets)
    ensures |d.zoneBoard| == |Elems(Column(d.filtered, ZoneOf))|
    ensures d.periods == periods && d.filtered == rows && d.kpis == KpisOf(rows)
    ensures d.zones == ZoneAggregate(rows) && d.series == RevenueSeries(rows)
    ensures d.topStores == TopStores(rows) && d.bottomStores == BottomStores(rows)
    ensures d.topSkus == TopSkus(rows) && d.zoneBoard == ZoneBoard(rows)
  {
    Dashboard(periods, rows, KpisOf(rows), ZoneAggregate(rows), RevenueSeries(rows),
              TopStores(rows), BottomStores(rows), TopSkus(rows), ZoneBoard(rows))
  }

  /** From the loaded table and a selection to the rendered views: the period
      selector's sort halts on a label the strict conversion rejects, and an
      empty filtered table halts before any view is computed. */
  function Render(table: seq<Record>, sel: Selection): (r: Result<Dashboard, Halt>)
    ensures r.Failure? && r.error.UnparseablePeriod? <==> !AllStrict(Column(table, MonthOf))
    ensures r.Failure? && r.error.UnparseablePeriod? ==>
      r.error.text in Column(table, MonthOf) && Convert(r.error.text).Rejected?
    ensures r.Failure? && r.error.NoMatchingRows? <==>
      AllStrict(Column(table, MonthOf)) &&
      forall i :: 0 <= i < |table| ==> !Passes(table[i], AcceptedFor(table, sel))
    ensures r.Success? ==> r.value.periods == PeriodOptions(Column(table, MonthOf)).value
    ensures r.Success? ==> r.value == ViewsOf(r.value.periods, r.value.filtered)
    ensures r.Success? ==> r.value.filtered == FilterRows(table, sel) && |r.value.filtered| > 0
    ensures r.Success? ==> 1 <= r.value.kpis.outlets <= |r.value.filtered|
  {
    var options := PeriodOptions(Column(table, MonthOf));
    if options.Failure? then Failure(options.error)
    else
      var kept := ApplyFilter(table, sel);
      if kept.Failure? then Failure(kept.error)
      else Success(ViewsOf(options.value, kept.value))
  }

  /** The whole script: load the raw rows, then render. */
  function Run(raws: seq<Row>, coerce: string -> Option<Period>, sel: Selection): Result<Dashboard, Halt> {
    Render(Load(raws, coerce), sel)
  }

  /** Rows without a date contribute nothing to the revenue series. */
  lemma {:induction false} AllDatedNoUndated(rows: seq<Record>)
    requires forall i :: 0 <= i < |rows| ==> rows[i].date.Some?
    ensures UndatedRevenue(rows) == 0
  {
    if |rows| > 0 {
      AllDatedNoUndated(rows[1..]);
    }
  }

  /** Filtering keeps only rows of the table, so a fully dated table filters
      to fully dated rows. */
  lemma FilteredDated(table: seq<Record>, sel: Selection)
    requires forall i :: 0 <= i < |table| ==> table[i].date.Some?
    ensures forall i :: 0 <= i < |FilterRows(table, sel)| ==> FilterRows(table, sel)[i].date.Some?
  {
    var rows := FilterRows(table, sel);
    forall i | 0 <= i < |rows|
      ensures rows[i].date.Some?
    {
      assert rows[i] in multiset(table);
    }
  }

  /** A rendered dashboard over a fully dated table has a revenue series that
      adds up to the KPI revenue exactly. */
  lemma DatedSeriesIsRevenue(table: seq<Record>, sel: Selection)
    requires Render(table, sel).Success?
    requires forall i :: 0 <= i < |table| ==> table[i].date.Some?
    ensures SumTotals(Render(table, sel).value.series) == Render(table, sel).value.kpis.revenue
  {
    var rows := FilterRows(table, sel);
    FilteredDated(table, sel);
    AllDatedNoUndated(rows);
    RenderedViews(table, sel);
    var series := RevenueSeries(rows);
    assert SumTotals(series) + UndatedRevenue(rows) == KpisOf(rows).revenue;
  }

  /** Filtering keeps only rows of the table, so the rows of a strictly
      dated table filter to strictly dated rows. */
  lemma FilteredStrictlyDated(table: seq<Record>, sel: Selection)
    requires forall i :: 0 <= i < |table| ==> StrictlyDated(table[i])
    ensures forall i :: 0 <= i < |FilterRows(table, sel)| ==> StrictlyDated(FilterRows(table, sel)[i])
  {
    var rows := FilterRows(table, sel);
    forall i | 0 <= i < |rows|
      ensures StrictlyDated(rows[i])
    {
      assert rows[i] in multiset(table);
    }
  }

  /** The revenue series plus the revenue of the undated rows is the KPI
      revenue; when no row is undated, the series alone is. */
  lemma SeriesSplit(rows: seq<Record>)
    ensures SumTotals(RevenueSeries(rows)) + UndatedRevenue(rows) == KpisOf(rows).revenue
    ensures (forall i :: 0 <= i < |rows| ==> rows[i].date.Some?) ==>
      SumTotals(RevenueSeries(rows)) == KpisOf(rows).revenue
  {
    if forall i :: 0 <= i < |rows| ==> rows[i].date.Some? {
      AllDatedNoUndated(rows);
    }
  }

  /** When the dashboard renders, no label made the strict conversion raise,
      so the loader took the strict branch: every filtered row's date is the
      period its label names, and it is null exactly for a null text. The
      revenue series plus those rows' revenue is the KPI revenue, and without
      null texts the series adds up to the KPI revenue exactly. The permissive
      date fallback never reaches a view. */
  lemma RenderedSeriesIsRevenue(raws: seq<Row>, coerce: string -> Option<Period>, sel: Selection)
    requires Run(raws, coerce, sel).Success?
    ensures var d := Run(raws, coerce, sel).value;
      forall i :: 0 <= i < |d.filtered| ==> StrictlyDated(d.filtered[i])
    ensures var d := Run(raws, coerce, sel).value;
      SumTotals(d.series) + UndatedRevenue(d.filtered) == d.kpis.revenue
    ensures var d := Run(raws, coerce, sel).value;
      (forall i :: 0 <= i < |d.filtered| ==> d.filtered[i].month2 !in NullTexts) ==>
        SumTotals(d.series) == d.kpis.revenue
  {
    var table := Load(raws, coerce);
    var d := Run(raws, coerce, sel).value;
    assert Render(table, sel) == Success(d);
    assert AllStrict(Column(table, MonthOf));
    LoadedStrict(raws, coerce);
    RenderedStrict(table, sel, d);
  }

  /** A loaded table whose labels all convert is strictly dated. */
  lemma LoadedStrict(raws: seq<Row>, coerce: string -> Option<Period>)
    requires AllStrict(Column(Load(raws, coerce), MonthOf))
    ensures forall i :: 0 <= i < |Load(raws, coerce)| ==> StrictlyDated(Load(raws, coerce)[i])
  {
    assert Column(Load(raws, coerce), MonthOf) == RawLabels(raws);
    StrictLoadDates(raws, coerce);
  }

  /** The same for a table whose rows are all strictly dated. */
  lemma RenderedStrict(table: seq<Record>, sel: Selection, d: Dashboard)
    requires Render(table, sel) == Success(d)
    requires forall i :: 0 <= i < |table| ==> StrictlyDated(table[i])
    ensures forall i :: 0 <= i < |d.filtered| ==> StrictlyDated(d.filtered[i])
    ensures SumTotals(d.series) + UndatedRevenue(d.filtered) == d.kpis.revenue
    ensures (forall i :: 0 <= i < |d.filtered| ==> d.filtered[i].month2 !in NullTexts) ==>
      SumTotals(d.series) == d.kpis.revenue
  {
    assert d == ViewsOf(d.periods, d.filtered) && d.filtered == FilterRows(table, sel);
    FilteredStrict(table, sel);
  }

  /** Filtering a strictly dated table keeps it strictly dated; the revenue
      series of the filtered rows plus their undated revenue is their KPI
      revenue, and without null texts the series alone is. */
  lemma FilteredStrict(table: seq<Record>, sel: Selection)
    requires forall i :: 0 <= i < |table| ==> StrictlyDated(table[i])
    ensures var rows := FilterRows(table, sel);
      forall i :: 0 <= i < |rows| ==> StrictlyDated(rows[i])
    ensures var rows := FilterRows(table, sel);
      SumTotals(RevenueSeries(rows)) + UndatedRevenue(rows) == KpisOf(rows).revenue
    ensures var rows := FilterRows(table, sel);
      (forall i :: 0 <= i < |rows| ==> rows[i].month2 !in NullTexts) ==>
        SumTotals(RevenueSeries(rows)) == KpisOf(rows).revenue
  {
    var rows := FilterRows(table, sel);
    FilteredStrictlyDated(table, sel);
    SeriesSplit(rows);
    if forall i :: 0 <= i < |rows| ==> rows[i].month2 !in NullTexts {
      assert forall i :: 0 <= i < |rows| ==> rows[i].date.Some?;
    }
  }

  /** A rendered dashboard is the views of the filtered table. */
  lemma RenderedViews(table: seq<Record>, sel: Selection)
    requires Render(table, sel).Success?
    ensures Render(table, sel).value.filtered == FilterRows(table, sel)
    ensures Render(table, sel).value.series == RevenueSeries(FilterRows(table, sel))
    ensures Render(table, sel).value.kpis == KpisOf(FilterRows(table, sel))
  {
  }

  /** A label the strict conversion rejects halts the run, however the
      permissive fallback would have dated it. */
  lemma UnparseableLabelHalts(raws: seq<Row>, coerce: string -> Option<Period>, sel: Selection, i: nat)
    requires i < |raws| && Convert(raws[i].month2).Rejected?
    ensures Run(raws, coerce, sel).Failure? && Run(raws, coerce, sel).error.UnparseablePeriod?
  {
    var table := Load(raws, coerce);
    assert Column(table, MonthOf)[i] == raws[i].month2;
  }
}
