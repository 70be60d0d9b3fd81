/** The loaded sales table: raw spreadsheet rows, and the records the loader
    derives from them by parsing the period label into a date and attaching
    the zone's anchor coordinates. */
module Table {
  import opened Results
  import opened Zones
  import opened Periods
  import opened Seqs

  /** One raw sales line with the columns the engine reads. Amounts are exact
      integers (the smallest currency unit). */
  datatype Row = Row(
    month2: string, zone: string, category: string, subCategory: string,
    sku: string, storeName: string, amount: int, unitsSold: int)

  /** One loaded sales line: the raw columns plus `Date`, `Lat` and `Lon`. */
  datatype Record = Record(
    month2: string, date: Option<Period>, zone: string, lat: real, lon: real,
    category: string, subCategory: string, sku: string, storeName: string,
    amount: int, unitsSold: int)

  /** The `Month2` column of the raw rows. */
  function RawLabels(raws: seq<Row>): (ls: seq<string>)
    ensures |ls| == |raws|
    ensures forall i :: 0 <= i < |raws| ==> ls[i] == raws[i].month2
  {
    seq(|raws|, i requires 0 <= i < |raws| => raws[i].month2)
  }

  /** No label of the column makes the strict conversion raise, so converting
      the whole column with the strict format succeeds. */
  predicate AllStrict(labels: seq<string>) {
    forall i :: 0 <= i < |labels| ==> Converts(labels[i])
  }

  /** The `Date` column. Converting the column with the strict format either
      succeeds for every row, giving each label's period or a null date for a
      null text, or raises, in which case every row is converted again by the
      permissive `coerce`, which yields no date where it fails. */
  function LoadDates(labels: seq<string>, coerce: string -> Option<Period>): (ds: seq<Option<Period>>)
    ensures |ds| == |labels|
    ensures AllStrict(labels) ==> forall i :: 0 <= i < |labels| ==> ds[i] == Parse(labels[i])
    ensures AllStrict(labels) ==> forall i :: 0 <= i < |labels| ==> (ds[i].None? <==> labels[i] in NullTexts)
    ensures !AllStrict(labels) ==> forall i :: 0 <= i < |labels| ==> ds[i] == coerce(labels[i])
  {
    if AllStrict(labels) then seq(|labels|, i requires 0 <= i < |labels| => Parse(labels[i]))
    else seq(|labels|, i requires 0 <= i < |labels| => coerce(labels[i]))
  }

  function ToRecord(raw: Row, date: Option<Period>): Record {
    Record(raw.month2, date, raw.zone, LatOf(raw.zone), LonOf(raw.zone),
           raw.category, raw.subCategory, raw.sku, raw.storeName, raw.amount, raw.unitsSold)
  }

  /** The record carries the raw row's columns unchanged. */
  predicate Carries(rec: Record, raw: Row) {
    && rec.month2 == raw.month2 && rec.zone == raw.zone && rec.category == raw.category
    && rec.subCategory == raw.subCategory && rec.sku == raw.sku && rec.storeName == raw.storeName
    && rec.amount == raw.amount && rec.unitsSold == raw.unitsSold
  }

  /** The record's coordinates are its zone's anchor. */
  predicate Anchored(rec: Record) {
    rec.lat == LatOf(rec.zone) && rec.lon == LonOf(rec.zone)
  }

  /** The loader's standardisation: one record per raw row, in the same order,
      with the raw columns kept, the `Date` column converted, and `Lat`/`Lon`
      looked up from the zone. */
  function Load(raws: seq<Row>, coerce: string -> Option<Period>): (table: seq<Record>)
    ensures |table| == |raws|
    ensures forall i :: 0 <= i < |raws| ==> Carries(table[i], raws[i]) && Anchored(table[i])
    ensures forall i :: 0 <= i < |raws| ==> table[i].date == LoadDates(RawLabels(raws), coerce)[i]
  {
    var ds := LoadDates(RawLabels(raws), coerce);
    seq(|raws|, i requires 0 <= i < |raws| => ToRecord(raws[i], ds[i]))
  }

  /** The record's date is what the strict conversion made of its label. */
  predicate StrictlyDated(rec: Record) {
    rec.date == Parse(rec.month2) && (rec.date.None? <==> rec.month2 in NullTexts)
  }

  /** When no label makes the strict conversion raise, every record's date is
      the period its own label names, or null exactly for a null text; the
      permissive fallback is never consulted. */
  lemma StrictLoadDates(raws: seq<Row>, coerce: string -> Option<Period>)
    requires AllStrict(RawLabels(raws))
    ensures forall i :: 0 <= i < |raws| ==> Load(raws, coerce)[i].date == Parse(raws[i].month2)
    ensures forall i :: 0 <= i < |raws| ==>
      (Load(raws, coerce)[i].date.None? <==> raws[i].month2 in NullTexts)
    ensures forall i :: 0 <= i < |raws| ==> StrictlyDated(Load(raws, coerce)[i])
    ensures AllStrict(Column(Load(raws, coerce), MonthOf))
  {
    var table := Load(raws, coerce);
    assert Column(table, MonthOf) == RawLabels(raws);
  }

  // Column accessors, used as group-by keys and summed columns.

  function MonthOf(r: Record): string { r.month2 }
  function ZoneOf(r: Record): string { r.zone }
  function CategoryOf(r: Record): string { r.category }
  function StoreOf(r: Record): string { r.storeName }
  function SkuOf(r: Record): string { r.sku }
  function DateOf(r: Record): Option<Period> { r.date }
  function AmountOf(r: Record): int { r.amount }
  function UnitsOf(r: Record): int { r.unitsSold }
}
