/** Reporting-period labels such as "Nov'24": the strict `%b'%y` parse, the
    chronological order of periods, and the sorted period selector. */
module Periods {
  import opened Results
  import opened Seqs

  type Month = m: int | 1 <= m <= 12 witness 1

  /** A calendar month; the parsed date is the first day of it. */
  datatype Period = Period(year: int, month: Month)

  /** The English month abbreviations `%b` accepts. */
  const Abbrevs: seq<string> :=
    ["Jan", "Feb", "Mar", "Apr", "May", "Jun", "Jul", "Aug", "Sep", "Oct", "Nov", "Dec"]

  /** The same abbreviations in lower case, against which input is matched. */
  const LowerAbbrevs: seq<string> :=
    ["jan", "feb", "mar", "apr", "may", "jun", "jul", "aug", "sep", "oct", "nov", "dec"]

  /** ASCII lower-casing of one character. */
  function Lower(c: char): char {
    if 'A' <= c <= 'Z' then (c as int + 32) as char else c
  }

  function LowerStr(s: string): (r: string)
    ensures |r| == |s|
    ensures forall i :: 0 <= i < |s| ==> r[i] == Lower(s[i])
  {
    seq(|s|, i requires 0 <= i < |s| => Lower(s[i]))
  }

  predicate EqualIgnoringCase(a: string, b: string) {
    LowerStr(a) == LowerStr(b)
  }

  predicate IsDigit(c: char) {
    '0' <= c <= '9'
  }

  function DigitValue(c: char): (d: int)
    requires IsDigit(c)
    ensures 0 <= d <= 9
  {
    c as int - '0' as int
  }

  function DigitChar(d: int): (c: char)
    requires 0 <= d <= 9
    ensures IsDigit(c) && DigitValue(c) == d
  {
    (d + '0' as int) as char
  }

  /** Month numbers by lower-case abbreviation. */
  const MonthByName: map<string, Month> := map[
    "jan" := 1, "feb" := 2, "mar" := 3, "apr" := 4, "may" := 5, "jun" := 6,
    "jul" := 7, "aug" := 8, "sep" := 9, "oct" := 10, "nov" := 11, "dec" := 12]

  lemma MonthByNameMatches()
    ensures forall k :: k in MonthByName ==> LowerAbbrevs[MonthByName[k] - 1] == k
    ensures forall i :: 0 <= i < 12 ==> LowerAbbrevs[i] in MonthByName && MonthByName[LowerAbbrevs[i]] == i + 1
  {
  }

  /** The month a `%b` field names, matched without regard to ASCII case. */
  function MonthNumber(name: string): (m: Option<Month>)
    ensures m.Some? ==> LowerStr(name) == LowerAbbrevs[m.value - 1]
    ensures m.None? ==> forall i :: 0 <= i < 12 ==> LowerStr(name) != LowerAbbrevs[i]
  {
    MonthByNameMatches();
    var key := LowerStr(name);
    if key in MonthByName then Some(MonthByName[key]) else None
  }

  /** `%y`: two-digit years 00-68 are 2000-2068, and 69-99 are 1969-1999. */
  function YearOf(yy: int): (y: int)
    requires 0 <= yy <= 99
    ensures 1969 <= y <= 2068 && y % 100 == yy
  {
    if yy <= 68 then 2000 + yy else 1900 + yy
  }

  /** The years a `%y` field can denote. */
  predicate InRange(p: Period) {
    1969 <= p.year <= 2068
  }

  /** The strict `%b'%y` parse: a three-letter month abbreviation in any ASCII
      case, an apostrophe and exactly two digits, and nothing else. */
  function Parse(text: string): (p: Option<Period>)
    ensures p.Some? ==> InRange(p.value)
    ensures p.Some? ==> |text| == 6 && text[3] == '\'' && IsDigit(text[4]) && IsDigit(text[5])
  {
    if |text| != 6 || text[3] != '\'' || !IsDigit(text[4]) || !IsDigit(text[5]) then None
    else
      match MonthNumber(text[..3])
      case None => None
      case Some(m) => Some(Period(YearOf(10 * DigitValue(text[4]) + DigitValue(text[5])), m))
  }

  /** Texts the datetime conversion reads as "not a time" before it applies any
      format: they become a null date (NaT) instead of failing the format. */
  const NullTexts: set<string> := {"", "NaT", "nat", "NAT", "nan", "NaN", "NAN"}

  /** What the strict conversion makes of one text: a period, a null date, or
      a failure that raises. */
  datatype Conversion = Converted(period: Period) | NotATime | Rejected

  /** No null text has the shape of a `%b'%y` label. */
  lemma NullTextsUnparsed(text: string)
    requires text in NullTexts
    ensures Parse(text).None?
  {
  }

  /** `pd.to_datetime(text, format="%b'%y")`: a null text gives a null date;
      any other text is parsed with the strict format, and raises when the
      format does not match. */
  function Convert(text: string): (c: Conversion)
    ensures c.NotATime? <==> text in NullTexts
    ensures c.Rejected? <==> text !in NullTexts && Parse(text).None?
    ensures c.Converted? <==> Parse(text).Some?
    ensures c.Converted? ==> Parse(text) == Some(c.period)
  {
    if text in NullTexts then
      NullTextsUnparsed(text);
      NotATime
    else
      match Parse(text)
      case Some(p) => Converted(p)
      case None => Rejected
  }

  /** The strict conversion of `text` does not raise. */
  predicate Converts(text: string) {
    !Convert(text).Rejected?
  }

  /** The canonical label of a period, as `strftime("%b'%y")` writes it. */
  function Format(p: Period): (s: string)
    requires InRange(p)
    ensures |s| == 6
  {
    var yy := p.year % 100;
    Abbrevs[p.month - 1] + "'" + [DigitChar(yy / 10), DigitChar(yy % 10)]
  }

  /** Where the pieces of a canonical label sit. */
  lemma FormatShape(p: Period)
    requires InRange(p)
    ensures Format(p)[..3] == Abbrevs[p.month - 1]
    ensures Format(p)[3] == '\''
    ensures Format(p)[4] == DigitChar(p.year % 100 / 10)
    ensures Format(p)[5] == DigitChar(p.year % 100 % 10)
  {
  }

  lemma AbbrevLower(m: Month)
    ensures LowerStr(Abbrevs[m - 1]) == LowerAbbrevs[m - 1]
  {
    var a := Abbrevs[m - 1];
    assert |a| == 3;
    assert LowerStr(a) == [Lower(a[0]), Lower(a[1]), Lower(a[2])];
  }

  /** A name whose lower-case form is a month's abbreviation names that month. */
  lemma MonthNumberOf(name: string, m: Month)
    requires LowerStr(name) == LowerAbbrevs[m - 1]
    ensures MonthNumber(name) == Some(m)
  {
    MonthByNameMatches();
  }

  /** Formatting and then parsing gives the period back. */
  lemma ParseFormat(p: Period)
    requires InRange(p)
    ensures Parse(Format(p)) == Some(p)
  {
    var s := Format(p);
    var yy := p.year % 100;
    FormatShape(p);
    AbbrevLower(p.month);
    MonthNumberOf(s[..3], p.month);
    assert 10 * DigitValue(s[4]) + DigitValue(s[5]) == yy;
  }

  /** A label parses to `p` exactly when it is `p`'s canonical label up to
      ASCII case and `p`'s year is one a two-digit year can denote. */
  lemma ParseIff(s: string, p: Period)
    ensures Parse(s) == Some(p) <==> InRange(p) && EqualIgnoringCase(s, Format(p))
  {
    if Parse(s) == Some(p) {
      ParsedIsFormat(s, p);
    }
    if InRange(p) && EqualIgnoringCase(s, Format(p)) {
      FormatIsParsed(s, p);
    }
  }

  /** What a successful parse has read off its input. */
  lemma ParsedFields(s: string, p: Period)
    requires Parse(s) == Some(p)
    ensures MonthNumber(s[..3]) == Some(p.month)
    ensures p.year == YearOf(10 * DigitValue(s[4]) + DigitValue(s[5]))
  {
  }

  lemma ParsedIsFormat(s: string, p: Period)
    requires Parse(s) == Some(p)
    ensures EqualIgnoringCase(s, Format(p))
  {
    ParsedFields(s, p);
    var f := Format(p);
    FormatShape(p);
    AbbrevLower(p.month);
    var yy := 10 * DigitValue(s[4]) + DigitValue(s[5]);
    assert p.year % 100 == yy;
    assert LowerStr(s[..3]) == LowerStr(f[..3]);
    forall i | 0 <= i < 6
      ensures LowerStr(s)[i] == LowerStr(f)[i]
    {
      if i < 3 {
        assert LowerStr(s[..3])[i] == Lower(s[i]);
        assert LowerStr(f[..3])[i] == Lower(f[i]);
      } else if i == 4 {
        assert s[4] == DigitChar(yy / 10);
      } else if i == 5 {
        assert s[5] == DigitChar(yy % 10);
      }
    }
  }

  lemma FormatIsParsed(s: string, p: Period)
    requires InRange(p) && EqualIgnoringCase(s, Format(p))
    ensures Parse(s) == Some(p)
  {
    var f := Format(p);
    var yy := p.year % 100;
    FormatShape(p);
    AbbrevLower(p.month);
    assert |s| == 6;
    assert Lower(s[3]) == Lower(f[3]);
    assert Lower(s[4]) == Lower(f[4]);
    assert Lower(s[5]) == Lower(f[5]);
    assert s[3] == '\'' && s[4] == DigitChar(yy / 10) && s[5] == DigitChar(yy % 10);
    assert LowerStr(s[..3]) == LowerStr(f[..3]) by {
      forall i | 0 <= i < 3
        ensures LowerStr(s[..3])[i] == LowerStr(f[..3])[i]
      {
        assert LowerStr(s)[i] == LowerStr(f)[i];
      }
    }
    MonthNumberOf(s[..3], p.month);
  }

  /** "Nov'24" is November 2024, "garbage" and "November'24" are rejected,
      and "NaT" converts to a null date without raising. */
  lemma ParseExamples()
    ensures Parse("Nov'24") == Some(Period(2024, 11))
    ensures Parse("Jan'70") == Some(Period(1970, 1))
    ensures Parse("garbage") == None
    ensures Parse("November'24") == None
    ensures Convert("NaT") == NotATime && Convert("NAN") == NotATime
    ensures Convert("garbage") == Rejected
    ensures Convert("Nov'24") == Converted(Period(2024, 11))
  {
    assert Format(Period(2024, 11)) == "Nov'24";
    ParseFormat(Period(2024, 11));
    assert Format(Period(1970, 1)) == "Jan'70";
    ParseFormat(Period(1970, 1));
  }

  /** Chronological order on periods: earlier year, or same year and earlier month. */
  predicate Before(p: Period, q: Period) {
    p.year < q.year || (p.year == q.year && p.month < q.month)
  }

  /** Months counted from year 0; the sort key of a period. */
  function Rank(p: Period): int {
    12 * p.year + (p.month - 1)
  }

  /** The rank orders periods chronologically and tells distinct periods apart. */
  lemma RankOrder(p: Period, q: Period)
    ensures Before(p, q) <==> Rank(p) < Rank(q)
    ensures Rank(p) == Rank(q) <==> p == q
  {
  }

  /** The sort key of a label: the rank of its parsed period. */
  function LabelRank(text: string): int {
    match Parse(text)
    case Some(p) => Rank(p)
    case None => 0
  }

  /** The first text whose strict conversion raises, if any. */
  function FirstUnparseable(labels: seq<string>): (r: Option<string>)
    ensures r.None? <==> forall i :: 0 <= i < |labels| ==> Converts(labels[i])
    ensures r.Some? ==> r.value in labels && Convert(r.value).Rejected?
  {
    if |labels| == 0 then None
    else if !Converts(labels[0]) then Some(labels[0])
    else FirstUnparseable(labels[1..])
  }

  /** Every label names a period, and no label names a period earlier than
      one listed before it. */
  predicate Chronological(opts: seq<string>) {
    forall i, j :: 0 <= i < j < |opts| ==>
      Parse(opts[i]).Some? && Parse(opts[j]).Some? &&
      !Before(Parse(opts[j]).value, Parse(opts[i]).value)
  }

  /** The period selector: the column's distinct labels sorted by their
      strictly converted date. A text the conversion rejects raises inside the
      sort and halts the dashboard; a null text does not raise. When every
      label names a period the order is chronological. */
  function PeriodOptions(labels: seq<string>): (r: Result<seq<string>, Halt>)
    ensures r.Success? <==> forall i :: 0 <= i < |labels| ==> Converts(labels[i])
    ensures r.Failure? ==>
      r.error.UnparseablePeriod? && r.error.text in labels && Convert(r.error.text).Rejected?
    ensures r.Success? ==> multiset(r.value) == multiset(Distinct(labels))
    ensures r.Success? ==> NoDups(r.value)
    ensures r.Success? ==> forall i :: 0 <= i < |r.value| ==> Converts(r.value[i])
    ensures r.Success? && (forall i :: 0 <= i < |labels| ==> Parse(labels[i]).Some?) ==>
      Chronological(r.value)
  {
    var unique := Distinct(labels);
    UniqueConverts(labels);
    match FirstUnparseable(unique)
    case Some(bad) => Failure(UnparseablePeriod(bad))
    case None =>
      SortedOptions(labels);
      Success(SortBy(unique, LabelRank))
  }

  /** The distinct labels all convert exactly when the labels do. */
  lemma UniqueConverts(labels: seq<string>)
    ensures (forall i :: 0 <= i < |labels| ==> Converts(labels[i])) <==>
      (forall j :: 0 <= j < |Distinct(labels)| ==> Converts(Distinct(labels)[j]))
  {
    var unique := Distinct(labels);
    if forall i :: 0 <= i < |labels| ==> Converts(labels[i]) {
      forall j | 0 <= j < |unique|
        ensures Converts(unique[j])
      {
        var i :| 0 <= i < |labels| && labels[i] == unique[j];
      }
    }
    if forall j :: 0 <= j < |unique| ==> Converts(unique[j]) {
      forall i | 0 <= i < |labels|
        ensures Converts(labels[i])
      {
        var j :| 0 <= j < |unique| && unique[j] == labels[i];
      }
    }
  }

  /** Sorting the distinct labels, none of which the conversion rejects, lists
      each once; chronologically when every one of them names a period. */
  lemma SortedOptions(labels: seq<string>)
    requires forall i :: 0 <= i < |labels| ==> Converts(labels[i])
    ensures var sorted := SortBy(Distinct(labels), LabelRank);
      && multiset(sorted) == multiset(Distinct(labels))
      && NoDups(sorted)
      && (forall i :: 0 <= i < |sorted| ==> Converts(sorted[i]))
      && ((forall i :: 0 <= i < |labels| ==> Parse(labels[i]).Some?) ==> Chronological(sorted))
  {
    var unique := Distinct(labels);
    var sorted := SortBy(unique, LabelRank);
    SubNoDups(unique, sorted);
    forall i | 0 <= i < |sorted|
      ensures sorted[i] in labels
    {
      assert sorted[i] in multiset(unique);
    }
    if forall i :: 0 <= i < |labels| ==> Parse(labels[i]).Some? {
      OptionsChronological(sorted);
    }
  }

  /** Distinct labels naming the same period, such as "Nov'24" and "NOV'24",
      keep their order of first appearance in the selector. */
  lemma OptionsStable(labels: seq<string>, p: Period)
    requires forall i :: 0 <= i < |labels| ==> Parse(labels[i]).Some?
    ensures PeriodOptions(labels).Success?
    ensures WithRank(PeriodOptions(labels).value, LabelRank, Rank(p)) ==
      WithRank(Distinct(labels), LabelRank, Rank(p))
  {
    assert forall i :: 0 <= i < |labels| ==> Converts(labels[i]);
    UniqueConverts(labels);
    assert PeriodOptions(labels) == Success(SortBy(Distinct(labels), LabelRank));
    SortStable(Distinct(labels), LabelRank, Rank(p));
  }

  lemma OptionsChronological(sorted: seq<string>)
    requires SortedBy(sorted, LabelRank)
    requires forall i :: 0 <= i < |sorted| ==> Parse(sorted[i]).Some?
    ensures forall i, j :: 0 <= i < j < |sorted| ==>
      !Before(Parse(sorted[j]).value, Parse(sorted[i]).value)
  {
    forall i, j | 0 <= i < j < |sorted|
      ensures !Before(Parse(sorted[j]).value, Parse(sorted[i]).value)
    {
      assert LabelRank(sorted[i]) <= LabelRank(sorted[j]);
      RankOrder(Parse(sorted[j]).value, Parse(sorted[i]).value);
    }
  }
}
