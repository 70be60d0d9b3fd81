/** Small worked tables: the zone group-by and the zone filter on three
    November 2024 lines. */
module Scenarios {
  import opened Results
  import opened Seqs
  import opened Grouping
  import opened Periods
  import opened Zones
  import opened Table
  import opened Filter
  import opened Views

  /** A loaded November 2024 line for `zone` with the given amount. */
  function Line(zone: string, amount: int): Record {
    Record("Nov'24", Some(Period(2024, 11)), zone, LatOf(zone), LonOf(zone),
           "Care", "Pads", "SKU1", "Store " + zone, amount, 1)
  }

  /** Zones North, North, South with amounts 100, 200, 300: grouping by zone
      gives North 300 and South 300. */
  lemma ZoneTotalsScenario()
    ensures var t := [Line("North", 100), Line("North", 200), Line("South", 300)];
      GroupSum(t, ZoneOf, AmountOf) == [Group("North", 300), Group("South", 300)]
  {
    var t := [Line("North", 100), Line("North", 200), Line("South", 300)];
    var c := Column(t, ZoneOf);
    assert c == ["North", "North", "South"];
    assert c[..2][..1] == ["North"];
    assert c[..2] == ["North", "North"];
    assert Distinct(c) == ["North", "South"];
  }

  /** On the same table, choosing only zone South keeps the one South line,
      whose revenue is 300. */
  lemma SouthOnlyScenario()
    ensures var t := [Line("North", 100), Line("North", 200), Line("South", 300)];
      FilterRows(t, Selection([], ["South"], [])) == [t[2]] &&
      KpisOf(FilterRows(t, Selection([], ["South"], []))).revenue == 300
  {
    var t := [Line("North", 100), Line("North", 200), Line("South", 300)];
    var acc := AcceptedFor(t, Selection([], ["South"], []));
    assert acc.zones == {"South"};
    assert !Passes(t[0], acc);
    assert !Passes(t[1], acc);
    assert t[2].month2 in Column(t, MonthOf);
    assert t[2].category in Column(t, CategoryOf);
    assert Passes(t[2], acc);
    assert t[1..][1..] == [t[2]];
    assert t[1..] == [t[1], t[2]];
    assert [t[2]][1..] == [];
  }
}
