# PeeSafe Sales Intelligence — filter-and-aggregate engine in Dafny

This project models the data engine of the PeeSafe Sales Intelligence dashboard
(`web_dashboard.py`), a single-page Streamlit app. The engine loads a table of sales
lines. It parses each `Month2` period label such as `Nov'24` into a date and attaches
the zone's anchor coordinates. It then applies the sidebar's period / zone / category
selection, in which an empty choice means "all values". From the filtered table it
computes the KPI header, the zone aggregate behind the map, the revenue trajectory
and the leaderboards. Rendering is not modelled.

Modules (one file each):

- `Results`: `Option`, `Result`, and `Halt`, the two reasons the dashboard stops before
  it renders: a period label the strict parse rejects, or a selection no row passes.
- `Seqs`: distinct values in order of first appearance (a column's `unique()`), the
  subsequence relation, and a stable insertion sort by an integer rank.
- `Grouping`: `groupby(key)[col].sum()` over any row type, with its sum-preservation lemmas.
- `Zones`: the five-entry `ZONE_COORDS` table and its lookup, which falls back to Central.
- `Periods`: the strict `%b'%y` parse and conversion, chronological order, and the sorted period selector.
- `Table`: raw rows, loaded records, and the loader's date conversion and coordinate lookup.
- `Filter`: the empty-means-all rule, the conjunctive stable filter, and the empty-result halt.
- `Views`: the KPI header, zone aggregate, revenue series, leaderboards, and the whole pipeline.
- `Scenarios`: small worked tables.

What the code does at the points where it is easy to misread:

- **A rejected period label halts the dashboard; it does not get a null date.**
  Line 47 does convert the column permissively when the strict conversion at
  line 45 raises. But line 67 then sorts the distinct labels using the strict
  conversion as the sort key, and that raises on the same label. Python
  computes every key, even for a single label. So no view is ever rendered from
  such a table, and `Views.Render` returns `UnparseablePeriod`.
- **Null texts convert to a null date without raising.** pandas' datetime
  conversion treats the texts `""`, `NaT`, `nat`, `NAT`, `nan`, `NaN` and `NAN`
  as "not a time" before it applies the format, so line 45 keeps the strict
  branch and gives those rows a null date, and line 67 does not raise on them
  (`Periods.Convert`). The readers already turn `""`, `nan` and `NaN` into
  missing values, but `NaT`, `nat`, `NAT` and `NAN` reach the conversion as
  text. In a dashboard the model renders, every filtered row is dated with its
  own label's period, or is null exactly when its label is one of these texts.
  The revenue series plus the null rows' revenue equals the KPI revenue, and
  without null texts the series alone does (`Views.RenderedSeriesIsRevenue`).
  The conversion also turns the exact texts `now` and `today` into the current
  timestamp without raising. A clock reading is not a month, so the model does
  not cover these two texts: it rejects them and halts where the dashboard
  renders (see "Left out").
  The null-date behaviour of the series is also proved for arbitrary tables
  (`Views.RevenueSeries`).
- **Leaderboards may tie.** `nlargest` / `nsmallest` / `sort_values` order by
  total, and equal totals are possible, so the boards are non-increasing (or
  non-decreasing), not strictly ordered. Tie order is not stated.
- **Row values are not validated, but the columns must exist.** Loading stops
  on a file-reading error (lines 31-41). It also stops with an uncaught
  exception in three cases:
  - the `Month2` column is missing: the bare `except` at line 46 catches line
    45's `KeyError`, but line 47 raises it again;
  - the `Zone` column is missing (line 53);
  - there is no `ASP` column, and `Amount` or `Unit Sold` is missing or not
    numeric (line 50).
  No check of the row values themselves is made, so none is modelled.

## Model

| member | source | states |
|---|---|---|
| Zones.EntryFor | web_dashboard.py:53-54 | a zone resolves to itself when it is a key of the coordinate table and to Central otherwise |
| Zones.Lookup | web_dashboard.py:20-26 | a known zone gets exactly its table entry; any other zone string gets Central's (21.14, 79.08); the result is always one of the five anchors |
| Zones.AnchorFromOneEntry | web_dashboard.py:53-54 | although Lat and Lon are looked up separately, both come from the same table entry, Central's for an unknown zone |
| Zones.KnownAnchorsDistinct | web_dashboard.py:20-26 | the five known zones have pairwise different anchors |
| Zones.UnknownZoneIsCentral | web_dashboard.py:53-54 | "Unknown" and the wrongly-cased "north" both get Central's anchor |
| Periods.MonthNumber | web_dashboard.py:45 | `%b` matches an English month abbreviation regardless of ASCII case and yields that month's number |
| Periods.YearOf | web_dashboard.py:45 | `%y` maps 00-68 to 2000-2068 and 69-99 to 1969-1999, keeping the last two digits |
| Periods.Parse | web_dashboard.py:45 | the `%b'%y` format match only accepts a six-character label with an apostrophe and two digits, and yields a year a two-digit year can denote |
| Periods.ParseFormat | web_dashboard.py:45 | parsing a period's canonical `Mon'YY` label gives the period back |
| Periods.ParseIff | web_dashboard.py:45 | a label parses to a period exactly when it equals that period's canonical label up to ASCII case and the year is in range; anything else fails |
| Periods.Convert | web_dashboard.py:45 | the strict conversion gives a null date exactly for the texts read as not-a-time (`""`, `NaT`, `nat`, `NAT`, `nan`, `NaN`, `NAN`) and the parsed period exactly when the format matches; in the model every other text raises, which leaves out the clock words `now` and `today` |
| Periods.ParseExamples | web_dashboard.py:45 | "Nov'24" is November 2024, "Jan'70" is January 1970, "garbage" and "November'24" fail the format; "NaT" and "NAN" convert to a null date and "garbage" raises |
| Periods.RankOrder | web_dashboard.py:67 | the sort key orders periods by (year, month) and tells distinct periods apart |
| Periods.FirstUnparseable | web_dashboard.py:67 | finds a label whose strict conversion raises exactly when one exists |
| Periods.PeriodOptions | web_dashboard.py:67 | the period selector succeeds exactly when no label makes the strict conversion raise; it then lists each distinct label once, a permutation of `unique()`, in non-decreasing (year, month) order when every label names a period; otherwise it halts naming a label that raises |
| Periods.OptionsStable | web_dashboard.py:67 | distinct labels naming the same period, such as "Nov'24" and "NOV'24", keep their order of first appearance, as Python's stable `sorted` does |
| Seqs.Distinct | web_dashboard.py:77-79 | `unique()` lists every value of the column exactly once and nothing else |
| Seqs.DistinctOrder | web_dashboard.py:67-79 | `unique()` keeps the order of first appearance: a value listed before another occurs in the column before every occurrence of the other |
| Seqs.SortBy | web_dashboard.py:67 | sorting yields a permutation of its input in non-decreasing key order |
| Seqs.SortStable | web_dashboard.py:67 | the sort is stable: the elements of each rank come out in the order they went in |
| Table.LoadDates | web_dashboard.py:44-47 | when no label makes the modelled strict conversion raise, the Date column is each label's parsed period, null exactly for the not-a-time texts; otherwise it is the permissive conversion of every label (clock words left out) |
| Table.Load | web_dashboard.py:43-54 | one record per raw row, in order, with the raw columns unchanged and Lat/Lon equal to the zone's anchor |
| Table.StrictLoadDates | web_dashboard.py:44-47 | when no label makes the strict conversion raise, every record's date is the period its own label names, and it is null exactly for a not-a-time text |
| Filter.Effective | web_dashboard.py:77-79 | an empty choice accepts exactly the values present in the column; a non-empty choice accepts exactly the chosen values |
| Filter.Select | web_dashboard.py:81-85 | the mask keeps an order-preserving subsequence of the table holding every passing row as often as it occurs and no failing row |
| Filter.FilterMembership | web_dashboard.py:81-85 | a record is in the filtered table exactly when it is in the table and its period, zone and category are all accepted |
| Filter.ApplyFilter | web_dashboard.py:81-89 | the dashboard halts with the empty-result state exactly when no row passes all three dimensions; otherwise the filtered table is non-empty |
| Filter.FilterIdempotent | web_dashboard.py:77-85 | applying the same selection to the filtered table returns it unchanged |
| Filter.EmptySelectionKeepsAll | web_dashboard.py:77-85 | with nothing chosen in any dimension every row is kept, in order |
| Grouping.GroupSum | web_dashboard.py:117 | a group-by sum has one group per distinct key, each key taken from a row, each group holding its rows' total, and the totals add up to the column's sum |
| Grouping.CoveredSum | web_dashboard.py:117 | summing per key over duplicate-free keys that cover every row gives the column's total |
| Grouping.SortSum | web_dashboard.py:136 | sorting groups leaves the sum of their totals unchanged |
| Views.Outlets | web_dashboard.py:95 | the outlet count is the number of distinct store names, between 1 and the row count for a non-empty table |
| Views.KpisOf | web_dashboard.py:92-95 | revenue and volume are the sums of Amount and Unit Sold, and there are 1 to row-count outlets for a non-empty table |
| Views.ZoneAggregate | web_dashboard.py:117 | one row per distinct (Zone, Lat, Lon), each with its rows' Amount and Unit Sold sums, whose columns add up to the KPI revenue and volume |
| Views.ZoneAggregatePerZone | web_dashboard.py:117 | on a loaded table the zone aggregate has exactly one row per distinct zone |
| Views.DatedSplit | web_dashboard.py:136 | dated rows and undated rows together hold all the revenue |
| Views.RevenueSeries | web_dashboard.py:136 | one point per distinct non-null date, dates strictly ascending, each point the revenue of its date's rows; points plus undated revenue equal the KPI revenue |
| Views.TopN | web_dashboard.py:193 | `nlargest(n)` lists min(n, groups) groups drawn from the input, non-increasing, and no group left out totals more than a listed one |
| Views.BottomN | web_dashboard.py:201 | `nsmallest(n)` lists min(n, groups) groups drawn from the input, non-decreasing, and no group left out totals less than a listed one |
| Views.Descending | web_dashboard.py:218 | the descending sort is a permutation of its input with non-increasing totals |
| Views.BoardEntries | web_dashboard.py:193-218 | leaderboard entries are distinct keys of the rows, each with its rows' summed value |
| Views.TopCutoff | web_dashboard.py:193 | after `nlargest`, no key of the rows missing from the board totals more than a listed one |
| Views.BottomCutoff | web_dashboard.py:201 | after `nsmallest`, no key of the rows missing from the board totals less than a listed one |
| Views.TopStores | web_dashboard.py:193 | the top-stores board lists min(10, outlets) distinct stores with their revenue, largest first, and no store left off has more revenue than a listed one |
| Views.BottomStores | web_dashboard.py:201 | the bottom-stores board lists min(10, outlets) distinct stores with their revenue, smallest first, and no store left off has less revenue than a listed one |
| Views.TopSkus | web_dashboard.py:210 | the top-products board lists min(10, distinct SKUs) distinct SKUs with their volume, largest first, and no SKU left off has more volume than a listed one |
| Views.ZoneBoard | web_dashboard.py:218 | the zone board lists every distinct zone exactly once with its revenue, largest first, with no cut-off |
| Views.ViewsOf | web_dashboard.py:92-218 | the views of the filtered rows agree with each other: the map's beacons add up to the KPI revenue and volume, the revenue series plus the undated rows' revenue is the KPI revenue, both store boards hold min(10, outlets) entries, and the zone board one per zone |
| Views.Render | web_dashboard.py:67-89 | the dashboard halts on a rejected period label exactly when some label makes the modelled strict conversion raise (clock words left out), halts with no data exactly when none does but no row passes, and otherwise renders the views of the non-empty filtered table under the sorted period selector |
| Views.UnparseableLabelHalts | web_dashboard.py:67 | one label whose strict conversion raises halts the whole run, whatever the permissive conversion made of it |
| Views.DatedSeriesIsRevenue | web_dashboard.py:136 | over a fully dated table the rendered revenue series adds up to the KPI revenue |
| Views.RenderedSeriesIsRevenue | web_dashboard.py:44-67 | in every rendered dashboard each filtered row is dated with its own label's period, null exactly for a not-a-time label; the revenue series plus the null rows' revenue is the KPI revenue, and without such labels the series alone is |
| Views.RenderedStrict | web_dashboard.py:81-136 | a dashboard rendered from a strictly dated table has strictly dated rows, and its series plus undated revenue is its KPI revenue, the series alone without not-a-time labels |
| Views.LoadedStrict | web_dashboard.py:44-47 | a loaded table whose labels all convert has every record strictly dated |
| Views.FilteredStrict | web_dashboard.py:81-136 | filtering a strictly dated table keeps every row strictly dated, and the filtered rows' revenue series plus their undated revenue is their KPI revenue, the series alone when no label is a not-a-time text |
| Views.SeriesSplit | web_dashboard.py:92-136 | the revenue series plus the undated rows' revenue is the KPI revenue, and the series alone is when every row is dated |
| Scenarios.ZoneTotalsScenario | web_dashboard.py:117 | zones North, North, South with amounts 100, 200, 300 group to North 300 and South 300 |
| Scenarios.SouthOnlyScenario | web_dashboard.py:81-92 | on that table, choosing only South keeps the one South line, with revenue 300 |

## Left out

- Streamlit UI: page configuration, sidebar widgets, tabs, columns, metric formatting and `st.error`/`st.warning`. Only their outcome is modelled: a halt, or the computed views. This is presentation (web_dashboard.py:7-12, 62-74, 97-109).
- The sidebar restricts choices to values present in the table. The model accepts any chosen values, which is more general.
- File reading (`read_csv` / `read_excel`, the `.csv` dispatch) and its error exits are I/O through a library. The model starts from the rows already read.
- Missing columns: the typed `Row` assumes every column the engine reads is present, and that `Amount` and `Unit Sold` are numbers. The uncaught exits at lines 47, 50 and 53 for a missing `Month2`, `Amount`/`Unit Sold` or `Zone` column, or a non-numeric amount, are not modelled.
- `@st.cache_data` is process-level memoisation, not logic.
- The permissive date fallback (`errors='coerce'`) depends on pandas/dateutil heuristics. It is a parameter, `coerce`, of `Table.Load`, applied label by label. In pandas 2 it guesses one format from the first non-null label and applies it to the whole column, so a row's result also depends on the other labels, and it can yield day-level dates; the model's results are month-granular and otherwise unconstrained. As proved, they never reach a rendered view.
- ASP derivation (`Amount / Unit Sold`) and `ASP.mean()` are floating-point division and mean.
- Amount and Unit Sold are exact integers. Float64 rounding in pandas sums and NaN-skipping are not modelled. Text columns are assumed non-null; a missing `Month2` value would convert to a null date like the not-a-time texts.
- The sunburst's category → subcategory → SKU summation and the price/volume OLS scatter belong to the charting library. Map, line-chart rendering and dataframe styling are rendering.
- The strict parse's `\d` and IGNORECASE also accept non-ASCII Unicode digits and case variants. Only ASCII digits and ASCII case are modelled. The month names are the English (C locale) abbreviations.
- pandas orders a group-by's keys by sorting them. Here groups come in order of first appearance. The order is modelled where the dashboard shows it: the revenue series is sorted by date, and the leaderboards are sorted by total.
- Views.TopN: does not state which of several equally-totalled groups `nlargest(keep='first')` keeps at the cut-off, or their order. Only totals are constrained.
- Views.BottomN: likewise for `nsmallest`.
- Periods.Convert: rejects the exact texts `now` and `today`. pandas 2's strict conversion turns them into the current timestamp without raising, and the dashboard then renders with such a row dated at the current instant. A clock reading is not a month-granular period and the clock is outside the model. For these two labels, Table.LoadDates, Views.Render and Views.RenderedSeriesIsRevenue therefore describe the model, which halts with `UnparseablePeriod`, and not the dashboard.
- Periods.PeriodOptions: does not state the order when some label converts to a null date. NaT compares false against every date, so the keyed sort's result then depends on the sort algorithm's internals.
- Views.Descending: does not state tie order. `sort_values` uses an unstable sort by default.
