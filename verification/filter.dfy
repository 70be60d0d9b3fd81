/** The global filter: each dimension's effective accepted values (an empty
    selection accepts every value of the column), the conjunctive, stable
    row filter, and the halt on an empty result. */
module Filter {
  import opened Results
  import opened Seqs
  import opened Table

  /** What the sidebar returned: chosen periods, zones and categories. */
  datatype Selection = Selection(months: seq<string>, zones: seq<string>, categories: seq<string>)

  /** The values each dimension accepts once the empty-means-all rule is applied. */
  datatype Accepted = Accepted(months: set<string>, zones: set<string>, categories: set<string>)

  /** A dimension's effective values: the chosen ones, or, when none are chosen,
      every distinct value of that column in the table. */
  function Effective(chosen: seq<string>, column: seq<string>): (eff: set<string>)
    ensures |chosen| == 0 ==> forall v :: v in eff <==> v in column
    ensures |chosen| > 0 ==> forall v :: v in eff <==> v in chosen
  {
    if |chosen| == 0 then Elems(column) else Elems(chosen)
  }

  /** The three effective value sets for `table` under `sel`. */
  function AcceptedFor(table: seq<Record>, sel: Selection): Accepted {
    Accepted(Effective(sel.months, Column(table, MonthOf)),
             Effective(sel.zones, Column(table, ZoneOf)),
             Effective(sel.categories, Column(table, CategoryOf)))
  }

  /** A row is kept when all three of its dimensions are accepted. */
  predicate Passes(r: Record, acc: Accepted) {
    r.month2 in acc.months && r.zone in acc.zones && r.category in acc.categories
  }

  /** Boolean-mask selection: the rows that pass, in their original order, each
      kept as often as it occurs. */
  function Select(rows: seq<Record>, acc: Accepted): (kept: seq<Record>)
    ensures IsSubsequence(kept, rows)
    ensures forall x :: multiset(kept)[x] == if Passes(x, acc) then multiset(rows)[x] else 0
    ensures forall i :: 0 <= i < |kept| ==> Passes(kept[i], acc)
  {
    if |rows| == 0 then []
    else
      var rest := Select(rows[1..], acc);
      assert rows == [rows[0]] + rows[1..];
      if Passes(rows[0], acc) then
        assert ([rows[0]] + rest)[1..] == rest;
        [rows[0]] + rest
      else rest
  }

  /** `df_filtered` for a selection. */
  function FilterRows(table: seq<Record>, sel: Selection): seq<Record> {
    Select(table, AcceptedFor(table, sel))
  }

  /** The filter followed by the empty-result halt. */
  function ApplyFilter(table: seq<Record>, sel: Selection): (r: Result<seq<Record>, Halt>)
    ensures r.Failure? <==> forall i :: 0 <= i < |table| ==> !Passes(table[i], AcceptedFor(table, sel))
    ensures r.Failure? ==> r.error == NoMatchingRows
    ensures r.Success? ==> r.value == FilterRows(table, sel) && |r.value| > 0
  {
    var kept := FilterRows(table, sel);
    if |kept| == 0 then
      assert forall i :: 0 <= i < |table| ==> multiset(kept)[table[i]] == 0;
      Failure(NoMatchingRows)
    else
      assert kept[0] in multiset(kept);
      Success(kept)
  }

  /** A record is in the filtered table exactly when it is in the table and its
      period, zone and category are all accepted. */
  lemma FilterMembership(table: seq<Record>, sel: Selection, x: Record)
    ensures var acc := AcceptedFor(table, sel);
      x in FilterRows(table, sel) <==>
        x in table && x.month2 in acc.months && x.zone in acc.zones && x.category in acc.categories
  {
    var kept := FilterRows(table, sel);
    assert x in kept <==> x in multiset(kept);
    assert x in table <==> x in multiset(table);
  }

  /** Selecting rows that all pass changes nothing. */
  lemma {:induction false} SelectAllPass(rows: seq<Record>, acc: Accepted)
    requires forall i :: 0 <= i < |rows| ==> Passes(rows[i], acc)
    ensures Select(rows, acc) == rows
  {
    if |rows| > 0 {
      SelectAllPass(rows[1..], acc);
    }
  }

  /** Applying the same selection to the filtered table gives it back: a
      dimension with chosen values accepts the same values as before, and an
      empty one now accepts the values of the filtered rows, which include
      every row's own value. */
  lemma FilterIdempotent(table: seq<Record>, sel: Selection)
    ensures FilterRows(FilterRows(table, sel), sel) == FilterRows(table, sel)
  {
    var kept := FilterRows(table, sel);
    var acc' := AcceptedFor(kept, sel);
    forall i | 0 <= i < |kept|
      ensures Passes(kept[i], acc')
    {
      assert Column(kept, MonthOf)[i] == kept[i].month2;
      assert Column(kept, ZoneOf)[i] == kept[i].zone;
      assert Column(kept, CategoryOf)[i] == kept[i].category;
    }
    SelectAllPass(kept, acc');
  }

  /** With no choices in any dimension every row of the table is kept. */
  lemma EmptySelectionKeepsAll(table: seq<Record>)
    ensures FilterRows(table, Selection([], [], [])) == table
  {
    var acc := AcceptedFor(table, Selection([], [], []));
    forall i | 0 <= i < |table|
      ensures Passes(table[i], acc)
    {
      assert Column(table, MonthOf)[i] == table[i].month2;
      assert Column(table, ZoneOf)[i] == table[i].zone;
      assert Column(table, CategoryOf)[i] == table[i].category;
    }
    SelectAllPass(table, acc);
  }
}
