/** The query command: a filter query (field name / value pairs, an optional record
    limit and an optional minimum date) against one NCBI table. Without filters
    the command lists the table's search fields instead. The minimum date comes
    from `--since` or from a since-date file, which a successful run rewrites with
    the date type and today's date. */
module NcbiQueryProcessor {
  import opened Util

  const DEFAULT_DATE_TYPE: string := "pdat"
  const DEFAULT_LIMIT: int := INT_MAX
  const ODD_FILTERS_ERROR: string := "Filtering parameters must be evenly matched:  name value name value..."
  const LIMIT_ERROR: string := "Record limit must be at least 1."
  const INVALID_SINCE_ERROR: string := "Invalid since-date."
  const SINCE_FILE_ERROR: string := "Since-date file has invalid data."
  const FIELD_LIST_HEADER: string := "name\tlong_name\tdescription"

  /** The error for a field name the table does not have. */
  function NameError(name: string, table: string): string {
    "Invalid field name \"" + name + "\" for table " + table + "."
  }

  // ---------------------------------------------------------------- dates

  /** A `LocalDate`. */
  datatype Date = Date(year: int, month: int, day: int)

  const YEAR_MIN: int := -999_999_999
  const YEAR_MAX: int := 999_999_999

  /** The ISO (proleptic Gregorian) leap-year rule. Only whether a remainder is zero
      matters, so Java's truncating `%` and Dafny's agree here. */
  predicate LeapYear(y: int) {
    y % 4 == 0 && (y % 100 != 0 || y % 400 == 0)
  }

  function DaysInMonth(y: int, m: int): int {
    if m == 2 then (if LeapYear(y) then 29 else 28)
    else if m == 4 || m == 6 || m == 9 || m == 11 then 30
    else 31
  }

  /** The dates `LocalDate.of` accepts. */
  predicate ValidDate(d: Date) {
    YEAR_MIN <= d.year <= YEAR_MAX && 1 <= d.month <= 12 && 1 <= d.day <= DaysInMonth(d.year, d.month)
  }

  /** `LocalDate.of(year, month, day)`; an impossible date is a DateTimeException. */
  function LocalDateOf(year: int, month: int, day: int, text: string): (r: Result<Date>)
    ensures r.Ok? <==> ValidDate(Date(year, month, day))
    ensures r.Ok? ==> r.value == Date(year, month, day)
  {
    if ValidDate(Date(year, month, day)) then Ok(Date(year, month, day)) else Err(DateTime(text))
  }

  /** Length of the run of ASCII digits (`\d`) at the start of `s`. */
  function DigitRun(s: string): (k: nat)
    ensures k <= |s| && (forall i :: 0 <= i < k ==> IsDigit(s[i])) && (k < |s| ==> !IsDigit(s[k]))
  {
    if s == [] || !IsDigit(s[0]) then 0 else 1 + DigitRun(s[1..])
  }

  /** `s` is a full match of `\d+(?:-\d+)` repeated to at most `n` runs of digits
      in all: digit runs separated by single hyphens. */
  predicate DigitGroups(s: string, n: nat)
    decreases n
  {
    var k := DigitRun(s);
    n >= 1 && k > 0 && (k == |s| || (s[k] == '-' && DigitGroups(s[k + 1..], n - 1)))
  }

  /** `DATE_PATTERN` as written, `\d+(?:-\d+(?:\d+)?)?`: the inner group only makes
      the second digit run longer, so at most two runs match. */
  predicate MatchesAsWritten(s: string) {
    DigitGroups(s, 2)
  }

  /** The pattern the date option describes (`YYYY-MM-DD`, with the month and day
      optional), `\d+(?:-\d+(?:-\d+)?)?`: at most three runs. */
  predicate MatchesCorrected(s: string) {
    DigitGroups(s, 3)
  }

  /** Splitting a matched string on hyphens gives its one to `n` digit runs. */
  lemma {:induction false} DigitGroupsSplit(s: string, n: nat)
    requires DigitGroups(s, n)
    ensures 1 <= |Split(s, '-')| <= n
    ensures forall i :: 0 <= i < |Split(s, '-')| ==> Split(s, '-')[i] != [] && AllDigits(Split(s, '-')[i])
    decreases n
  {
    var k := DigitRun(s);
    assert s[0] != '-';
    assert TokenEnd(s, '-') == k;
    var parts := Split(s, '-');
    assert parts == [s[..k]] + Split(s[k..], '-');
    if k == |s| {
      assert s[k..] == [];
    } else {
      assert s[k..][1..] == s[k + 1..];
      assert Split(s[k..], '-') == Split(s[k + 1..], '-');
      DigitGroupsSplit(s[k + 1..], n - 1);
    }
  }

  /** The since-date of `--since`, with a date pattern of at most `groups` digit
      runs: the date type is checked, then the pattern; the parts are read day,
      month, year, a missing month or day counting as 1. */
  function SinceDateWith(s: string, groups: nat, dateType: string, validateDateType: string -> Outcome): Result<Date> {
    var v := validateDateType(dateType);
    if v.Fail? then Err(v.error)
    else if !DigitGroups(s, groups) then Err(ParseFailure(INVALID_SINCE_ERROR))
    else
      DigitGroupsSplit(s, groups);
      DateOfParts(Split(s, '-'), s)
  }

  /** The date of the hyphen-separated parts of `s`: day, then month, then year are
      read with `Integer.valueOf`, a missing day or month counting as 1. */
  function DateOfParts(parts: seq<string>, s: string): Result<Date>
    requires |parts| >= 1
  {
    var day := if |parts| > 2 then ParseInt(parts[2]) else Ok(1);
    var month := if |parts| > 1 then ParseInt(parts[1]) else Ok(1);
    var year := ParseInt(parts[0]);
    if day.Err? then Err(day.error)
    else if month.Err? then Err(month.error)
    else if year.Err? then Err(year.error)
    else LocalDateOf(year.value, month.value, day.value, s)
  }

  /** The since-date handling as written. */
  function SinceDateAsWritten(s: string, dateType: string, validateDateType: string -> Outcome): Result<Date> {
    SinceDateWith(s, 2, dateType, validateDateType)
  }

  /** The since-date handling with the corrected pattern, which the model uses. */
  function SinceDate(s: string, dateType: string, validateDateType: string -> Outcome): Result<Date> {
    SinceDateWith(s, 3, dateType, validateDateType)
  }

  /** A year alone gives January 1 of that year. */
  lemma SinceDateYear(y: string, groups: nat, dateType: string, validateDateType: string -> Outcome)
    requires groups >= 1 && validateDateType(dateType) == Pass
    requires y != [] && AllDigits(y) && DigitsValue(y) <= YEAR_MAX
    ensures SinceDateWith(y, groups, dateType, validateDateType) == Ok(Date(DigitsValue(y), 1, 1))
  {
    SplitYear(y, groups);
    DateOfYear(y);
  }

  lemma SplitYear(y: string, groups: nat)
    requires groups >= 1 && y != [] && AllDigits(y)
    ensures DigitGroups(y, groups) && Split(y, '-') == [y]
  {
    DigitRunAll(y, []);
    assert y + [] == y;
    assert '-' !in y;
    SplitWithoutSep(y, '-');
  }

  lemma DateOfYear(y: string)
    requires y != [] && AllDigits(y) && DigitsValue(y) <= YEAR_MAX
    ensures DateOfParts([y], y) == Ok(Date(DigitsValue(y), 1, 1))
  {
  }

  /** A year and a month give the first day of that month. */
  lemma SinceDateYearMonth(y: string, m: string, groups: nat, dateType: string, validateDateType: string -> Outcome)
    requires groups >= 2 && validateDateType(dateType) == Pass
    requires y != [] && AllDigits(y) && DigitsValue(y) <= YEAR_MAX
    requires m != [] && AllDigits(m) && 1 <= DigitsValue(m) <= 12
    ensures SinceDateWith(y + "-" + m, groups, dateType, validateDateType) == Ok(Date(DigitsValue(y), DigitsValue(m), 1))
  {
    SplitYearMonth(y, m, groups);
    DateOfYearMonth(y, m, y + "-" + m);
  }

  lemma SplitYearMonth(y: string, m: string, groups: nat)
    requires groups >= 2 && y != [] && AllDigits(y) && m != [] && AllDigits(m)
    ensures DigitGroups(y + "-" + m, groups) && Split(y + "-" + m, '-') == [y, m]
  {
    var s := y + "-" + m;
    DigitGroupsOne(y, "-" + m);
    assert s == y + ("-" + m) && s[|y| + 1..] == m;
    SplitYear(m, groups - 1);
    assert '-' !in y && '-' !in m;
    SplitJoinTwo(y, m, '-');
  }

  lemma DateOfYearMonth(y: string, m: string, s: string)
    requires y != [] && AllDigits(y) && DigitsValue(y) <= YEAR_MAX
    requires m != [] && AllDigits(m) && 1 <= DigitsValue(m) <= 12
    ensures DateOfParts([y, m], s) == Ok(Date(DigitsValue(y), DigitsValue(m), 1))
  {
  }

  lemma {:induction false} DigitRunAll(a: string, rest: string)
    requires AllDigits(a) && (rest == [] || !IsDigit(rest[0]))
    ensures DigitRun(a + rest) == |a|
  {
    if a != [] {
      assert (a + rest)[1..] == a[1..] + rest;
      DigitRunAll(a[1..], rest);
    } else {
      assert a + rest == rest;
    }
  }

  /** A digit run followed by a hyphen: the first group ends at the hyphen. */
  lemma DigitGroupsOne(a: string, rest: string)
    requires a != [] && AllDigits(a) && rest != [] && rest[0] == '-'
    ensures DigitRun(a + rest) == |a| && (a + rest)[|a|] == '-' && (a + rest)[|a| + 1..] == rest[1..]
  {
    DigitRunAll(a, rest);
  }

  // ---------------------------------------------------------------- ISO dates

  function Digit(n: int): (c: char)
    requires 0 <= n < 10
    ensures IsDigit(c) && c as int - '0' as int == n
  {
    ('0' as int + n) as char
  }

  function Pad2(n: int): string
    requires 0 <= n < 100
  {
    [Digit(n / 10), Digit(n % 10)]
  }

  function Pad4(n: int): string
    requires 0 <= n < 10000
  {
    [Digit(n / 1000), Digit(n / 100 % 10), Digit(n / 10 % 10), Digit(n % 10)]
  }

  /** The dates `LocalDate.toString` writes as `YYYY-MM-DD`. */
  predicate IsoDate(d: Date) {
    ValidDate(d) && 0 <= d.year <= 9999
  }

  /** `LocalDate.toString` for a four-digit year. */
  function FormatDate(d: Date): (s: string)
    requires IsoDate(d)
  {
    Pad4(d.year) + "-" + Pad2(d.month) + "-" + Pad2(d.day)
  }

  /** `LocalDate.parse` (ISO_LOCAL_DATE, strict) for a four-digit year: two hyphens
      in place and a real date; anything else is a DateTimeParseException. */
  function ParseIsoDate(s: string): Result<Date> {
    if |s| == 10 && s[4] == '-' && s[7] == '-' && AllDigits(s[..4]) && AllDigits(s[5..7]) && AllDigits(s[8..]) then
      var d := Date(DigitsValue(s[..4]), DigitsValue(s[5..7]), DigitsValue(s[8..]));
      if ValidDate(d) then Ok(d) else Err(DateParse(s))
    else Err(DateParse(s))
  }

  lemma DigitsValueSnoc(s: string, c: char)
    requires AllDigits(s) && IsDigit(c)
    ensures AllDigits(s + [c]) && DigitsValue(s + [c]) == DigitsValue(s) * 10 + (c as int - '0' as int)
  {
    assert (s + [c])[..|s|] == s;
  }

  lemma Pad2Value(n: int)
    requires 0 <= n < 100
    ensures AllDigits(Pad2(n)) && DigitsValue(Pad2(n)) == n
  {
    DigitsValueSnoc([], Digit(n / 10));
    assert [] + [Digit(n / 10)] == [Digit(n / 10)];
    DigitsValueSnoc([Digit(n / 10)], Digit(n % 10));
  }

  lemma Pad4Value(n: int)
    requires 0 <= n < 10000
    ensures AllDigits(Pad4(n)) && DigitsValue(Pad4(n)) == n
  {
    var q1 := n / 10;
    var q2 := n / 100;
    var q3 := n / 1000;
    DivTen(n, q1, q2, q3);
    var a, b, c, d := Digit(q3), Digit(q2 % 10), Digit(q1 % 10), Digit(n % 10);
    DigitsValueSnoc([], a);
    assert [] + [a] == [a];
    DigitsValueSnoc([a], b);
    assert [a] + [b] == [a, b];
    DigitsValueSnoc([a, b], c);
    assert [a, b] + [c] == [a, b, c];
    DigitsValueSnoc([a, b, c], d);
    assert [a, b, c] + [d] == Pad4(n);
  }

  /** The decimal digits of a four-digit number, one division at a time. */
  lemma DivTen(n: int, q1: int, q2: int, q3: int)
    requires 0 <= n < 10000 && q1 == n / 10 && q2 == n / 100 && q3 == n / 1000
    ensures q1 * 10 + n % 10 == n
    ensures q2 * 10 + q1 % 10 == q1
    ensures q3 * 10 + q2 % 10 == q2
    ensures 0 <= q3 < 10
  {
  }

  /** The pieces of a written date: four digits, a hyphen, two, a hyphen, two. */
  lemma FormatDateParts(d: Date)
    requires IsoDate(d)
    ensures var s := FormatDate(d);
      && |s| == 10 && s[4] == '-' && s[7] == '-'
      && s[..4] == Pad4(d.year) && s[5..7] == Pad2(d.month) && s[8..] == Pad2(d.day)
      && s == Pad4(d.year) + "-" + (Pad2(d.month) + "-" + Pad2(d.day))
      && s[5..] == Pad2(d.month) + "-" + Pad2(d.day)
      && '\t' !in s
  {
  }

  /** Reading back a written date gives the date. */
  lemma ParseFormatDate(d: Date)
    requires IsoDate(d)
    ensures ParseIsoDate(FormatDate(d)) == Ok(d)
  {
    FormatDateParts(d);
    Pad4Value(d.year);
    Pad2Value(d.month);
    Pad2Value(d.day);
  }

  /** Three digit runs joined by hyphens are more than the pattern as written
      matches. */
  lemma ThreeRunsUnmatched(a: string, b: string, c: string)
    requires a != [] && b != [] && c != [] && AllDigits(a) && AllDigits(b) && AllDigits(c)
    ensures !MatchesAsWritten(a + "-" + (b + "-" + c))
  {
    var t := b + "-" + c;
    assert t == b + ("-" + c);
    DigitGroupsOne(b, "-" + c);
    assert !DigitGroups(t, 1);
    var rest := "-" + t;
    assert rest[1..] == t;
    DigitGroupsOne(a, rest);
    assert a + "-" + t == a + rest;
  }

  /** As written, no `YYYY-MM-DD` date passes the date check of `--since`. */
  lemma AsWrittenRejectsIsoDates(d: Date, dateType: string, validateDateType: string -> Outcome)
    requires IsoDate(d) && validateDateType(dateType) == Pass
    ensures SinceDateAsWritten(FormatDate(d), dateType, validateDateType) == Err(ParseFailure(INVALID_SINCE_ERROR))
  {
    FormatDateParts(d);
    Pad4Value(d.year);
    Pad2Value(d.month);
    Pad2Value(d.day);
    ThreeRunsUnmatched(Pad4(d.year), Pad2(d.month), Pad2(d.day));
  }

  /** The option's own example, `2018-10-20`, is refused as written. */
  lemma AsWrittenRejectsExample(validateDateType: string -> Outcome)
    requires validateDateType(DEFAULT_DATE_TYPE) == Pass
    ensures SinceDateAsWritten("2018-10-20", DEFAULT_DATE_TYPE, validateDateType) == Err(ParseFailure(INVALID_SINCE_ERROR))
  {
    assert "2018-10-20" == "2018" + "-" + ("10" + "-" + "20");
    ThreeRunsUnmatched("2018", "10", "20");
  }

  /** With the corrected pattern a written date is read back as itself. */
  lemma SinceDateParsesIsoDates(d: Date, dateType: string, validateDateType: string -> Outcome)
    requires IsoDate(d) && validateDateType(dateType) == Pass
    ensures SinceDate(FormatDate(d), dateType, validateDateType) == Ok(d)
  {
    SplitIso(d);
    DateOfIso(d);
  }

  /** A written date is three digit runs. */
  lemma SplitIso(d: Date)
    requires IsoDate(d)
    ensures DigitGroups(FormatDate(d), 3)
    ensures Split(FormatDate(d), '-') == [Pad4(d.year), Pad2(d.month), Pad2(d.day)]
  {
    FormatDateParts(d);
    Pad4Value(d.year);
    Pad2Value(d.month);
    Pad2Value(d.day);
    SplitThree(Pad4(d.year), Pad2(d.month), Pad2(d.day));
  }

  /** Three digit runs joined by hyphens split back into the three runs. */
  lemma SplitThree(y: string, m: string, dd: string)
    requires y != [] && m != [] && dd != [] && AllDigits(y) && AllDigits(m) && AllDigits(dd)
    ensures DigitGroups(y + "-" + (m + "-" + dd), 3)
    ensures Split(y + "-" + (m + "-" + dd), '-') == [y, m, dd]
  {
    GroupsThree(y, m, dd);
    SplitYearMonth(m, dd, 2);
    SplitAfterToken(y, m + "-" + dd);
  }

  lemma GroupsThree(y: string, m: string, dd: string)
    requires y != [] && m != [] && dd != [] && AllDigits(y) && AllDigits(m) && AllDigits(dd)
    ensures DigitGroups(y + "-" + (m + "-" + dd), 3)
  {
    var t := m + "-" + dd;
    var s := y + "-" + t;
    assert s == y + ("-" + t);
    DigitGroupsOne(y, "-" + t);
    assert s[|y| + 1..] == t;
    SplitYearMonth(m, dd, 2);
  }

  /** A digit run, a hyphen and a rest split into the run and the rest's tokens. */
  lemma SplitAfterToken(y: string, t: string)
    requires y != [] && AllDigits(y)
    ensures Split(y + "-" + t, '-') == [y] + Split(t, '-')
  {
    var rest := "-" + t;
    var s := y + "-" + t;
    assert s == y + rest;
    assert '-' !in y;
    TokenEndPrefix(y, rest, '-');
    assert s[0] == y[0] && s[0] != '-';
    assert s[..|y|] == y && s[|y|..] == rest;
    assert rest[1..] == t;
  }

  lemma DateOfIso(d: Date)
    requires IsoDate(d)
    ensures DateOfParts([Pad4(d.year), Pad2(d.month), Pad2(d.day)], FormatDate(d)) == Ok(d)
  {
    Pad4Value(d.year);
    Pad2Value(d.month);
    Pad2Value(d.day);
  }

  // ---------------------------------------------------------------- since-date file

  /** The since-date file: a date type and an ISO date, split on tabs into exactly
      two parts. */
  function SinceFromFile(content: string, validateDateType: string -> Outcome): Result<(string, Date)> {
    var parts := Split(content, '\t');
    if |parts| != 2 then Err(IOError(SINCE_FILE_ERROR))
    else
      var v := validateDateType(parts[0]);
      if v.Fail? then Err(v.error)
      else
        match ParseIsoDate(parts[1])
        case Err(e) => Err(e)
        case Ok(d) => Ok((parts[0], d))
  }

  /** What `postProcess` writes to the since-date file. */
  function SinceFileContent(dateType: string, today: Date): string
    requires IsoDate(today)
  {
    dateType + "\t" + FormatDate(today)
  }

  /** The file a run writes is read back by the next run as the same date type and
      date, when the date type is a valid one without tabs. */
  lemma SinceFileRoundTrip(dateType: string, today: Date, validateDateType: string -> Outcome)
    requires IsoDate(today) && dateType != [] && '\t' !in dateType && validateDateType(dateType) == Pass
    ensures SinceFromFile(SinceFileContent(dateType, today), validateDateType) == Ok((dateType, today))
  {
    FormatDateParts(today);
    SplitJoinTwo(dateType, FormatDate(today), '\t');
    ParseFormatDate(today);
  }

  /** The minimum date of the query: from `--since` when given, else from the
      since-date file when there is one; none otherwise. */
  function Since(minDateString: Option<string>, dateType: string, sinceContent: Option<string>,
                 validateDateType: string -> Outcome): Result<Option<(string, Date)>>
  {
    match minDateString
    case Some(s) =>
      (match SinceDate(s, dateType, validateDateType)
       case Err(e) => Err(e)
       case Ok(d) => Ok(Some((dateType, d))))
    case None =>
      match sinceContent
      case None => Ok(None)
      case Some(c) =>
        match SinceFromFile(c, validateDateType)
        case Err(e) => Err(e)
        case Ok(p) => Ok(Some(p))
  }

  // ---------------------------------------------------------------- filters

  /** The criteria of the filter arguments: each name with its spaces turned into
      `+`, paired with the value after it. */
  function Criteria(filters: seq<string>): (cs: seq<(string, string)>)
    ensures |cs| == |filters| / 2
  {
    seq(|filters| / 2, k requires 0 <= k < |filters| / 2 => (ReplaceChar(filters[2 * k], ' ', '+'), filters[2 * k + 1]))
  }

  /** Index of the first criterion whose name the table lacks, or the number of criteria. */
  function FirstBadName(cs: seq<(string, string)>, validNames: set<string>): (k: nat)
    ensures k <= |cs|
    ensures forall i :: 0 <= i < k ==> cs[i].0 in validNames
    ensures k < |cs| ==> cs[k].0 !in validNames
  {
    if cs == [] || cs[0].0 !in validNames then 0 else 1 + FirstBadName(cs[1..], validNames)
  }

  /** A query of `NcbiFilterQuery`: its table, record limit, criteria and minimum date. */
  datatype FilterQuery = FilterQuery(table: string, limit: Option<int>, criteria: seq<(string, string)>,
                                     since: Option<(string, Date)>)

  // ---------------------------------------------------------------- the processor

  class QueryProcessor {
    const table: string
    /** The filter arguments, when any were given. */
    const filters: Option<seq<string>>
    /** `--since`. */
    const minDateString: Option<string>
    /** `--sinceFile`. */
    const minDateFile: Option<string>
    /** `--limit`. */
    const limit: int
    /** `--dateType`, replaced by the one in the since-date file when that is read. */
    var dateType: string
    /** The query still to run (null once taken). */
    var query: Option<FilterQuery>

    constructor (tableName: string, filterArgs: Option<seq<string>>, since: Option<string>,
                 sinceFile: Option<string>, maxRecords: int, dateTypeOption: string)
      ensures table == tableName && filters == filterArgs && minDateString == since
      ensures minDateFile == sinceFile && limit == maxRecords && dateType == dateTypeOption && query == None
    {
      table := tableName;
      filters := filterArgs;
      minDateString := since;
      minDateFile := sinceFile;
      limit := maxRecords;
      dateType := dateTypeOption;
      query := None;
    }

    /** `validateNcbiProcessParms`: with filters, an odd argument count, a limit
        below 1 and an unknown field name are errors, in that order; then the
        minimum date is set up. `sinceContent` is the since-date file's content when
        the file exists. */
    method Validate(validNames: set<string>, validateDateType: string -> Outcome, sinceContent: Option<string>)
      returns (r: Outcome)
      modifies this`query, this`dateType
      ensures filters.None? ==> r == Pass && query == Some(FilterQuery(table, None, [], None)) && dateType == old(dateType)
      ensures filters.Some? && |filters.value| % 2 != 0 ==> r == Fail(ParseFailure(ODD_FILTERS_ERROR))
      ensures filters.Some? && |filters.value| % 2 == 0 && limit <= 0 ==> r == Fail(ParseFailure(LIMIT_ERROR))
      ensures filters.Some? && |filters.value| % 2 == 0 && limit > 0 ==>
        var cs := Criteria(filters.value);
        var k := FirstBadName(cs, validNames);
        var since := Since(minDateString, old(dateType), if minDateFile.Some? then sinceContent else None,
                           validateDateType);
        && (k < |cs| ==> r == Fail(ParseFailure(NameError(cs[k].0, table))))
        && (k == |cs| && since.Err? ==> r == Fail(since.error))
        && (k == |cs| && since.Ok? ==> r == Pass && query == Some(FilterQuery(table, Some(limit), cs, since.value)))
        && (k == |cs| && since.Ok? && since.value.Some? ==> dateType == since.value.value.0)
      ensures dateType ==
        if filters.Some? && |filters.value| % 2 == 0 && limit > 0 &&
           FirstBadName(Criteria(filters.value), validNames) == |Criteria(filters.value)| &&
           minDateString.None? && minDateFile.Some? && sinceContent.Some? && |Split(sinceContent.value, '\t')| == 2
        then Split(sinceContent.value, '\t')[0]
        else old(dateType)
    {
      query := Some(FilterQuery(table, None, [], None));
      if filters.None? {
        return Pass;
      }
      var f := filters.value;
      if |f| % 2 != 0 {
        return Fail(ParseFailure(ODD_FILTERS_ERROR));
      }
      if limit <= 0 {
        return Fail(ParseFailure(LIMIT_ERROR));
      }
      var criteria := AddCriteria(f, validNames, table);
      if criteria.Err? {
        return Fail(criteria.error);
      }
      var since: Option<(string, Date)> := None;
      if minDateString.Some? {
        var d := SinceDate(minDateString.value, dateType, validateDateType);
        if d.Err? {
          return Fail(d.error);
        }
        since := Some((dateType, d.value));
      } else if minDateFile.Some? && sinceContent.Some? {
        var parts := Split(sinceContent.value, '\t');
        if |parts| != 2 {
          return Fail(IOError(SINCE_FILE_ERROR));
        }
        dateType := parts[0];
        var p := SinceFromFile(sinceContent.value, validateDateType);
        if p.Err? {
          return Fail(p.error);
        }
        since := Some((dateType, p.value.1));
      }
      query := Some(FilterQuery(table, Some(limit), criteria.value, since));
      r := Pass;
    }

    /** `hasNext`: the query has not been taken yet. */
    predicate HasNext()
      reads this
    {
      query.Some?
    }

    /** `next`: the query, which is then discarded. */
    method Next() returns (q: Option<FilterQuery>)
      modifies this`query
      ensures q == old(query) && query == None && !HasNext()
    {
      q := query;
      query := None;
    }

    /** The query loop of the base processor: a validated processor runs exactly one
        query. */
    method Queries() returns (qs: seq<FilterQuery>)
      modifies this`query
      ensures qs == if old(query).Some? then [old(query).value] else []
      ensures !HasNext()
    {
      qs := [];
      while HasNext()
        invariant old(query).None? ==> qs == [] && query == None
        invariant old(query).Some? ==> (qs == [] && query == old(query)) || (qs == [old(query).value] && query == None)
        decreases if query.Some? then 1 else 0
      {
        var q := Next();
        qs := qs + [q.value];
      }
    }

    /** `processSpecial`: without filters the table's search fields are listed and
        the report is skipped. `fieldLines` are the lines of the field list. */
    method ProcessSpecial(fieldLines: seq<string>) returns (retVal: bool, output: seq<string>)
      ensures retVal <==> filters.None?
      ensures output == if filters.None? then [FIELD_LIST_HEADER] + fieldLines else []
    {
      retVal := false;
      output := [];
      if filters.None? {
        output := [FIELD_LIST_HEADER] + fieldLines;
        retVal := true;
      }
    }

    /** `postProcess`: with a since-date file, the date type and today's date are
        written to it. */
    method PostProcess(today: Date) returns (written: Option<string>)
      requires IsoDate(today)
      ensures written == if minDateFile.Some? then Some(SinceFileContent(dateType, today)) else None
    {
      written := None;
      if minDateFile.Some? {
        written := Some(dateType + "\t" + FormatDate(today));
      }
    }
  }

  /** The loop over the filter pairs: each name, with spaces turned into `+`, must
      be a field of the table. */
  method AddCriteria(f: seq<string>, validNames: set<string>, table: string) returns (r: Result<seq<(string, string)>>)
    requires |f| % 2 == 0
    ensures FirstBadName(Criteria(f), validNames) < |Criteria(f)| ==>
      r == Err(ParseFailure(NameError(Criteria(f)[FirstBadName(Criteria(f), validNames)].0, table)))
    ensures FirstBadName(Criteria(f), validNames) == |Criteria(f)| ==> r == Ok(Criteria(f))
  {
    var cs: seq<(string, string)> := [];
    var i := 0;
    while i < |f|
      invariant 0 <= i <= |f| && i % 2 == 0
      invariant i / 2 <= FirstBadName(Criteria(f), validNames)
      invariant cs == Criteria(f)[..i / 2]
    {
      var name := ReplaceChar(f[i], ' ', '+');
      var value := f[i + 1];
      assert 2 * (i / 2) == i;
      assert Criteria(f)[i / 2] == (name, value);
      if name !in validNames {
        return Err(ParseFailure(NameError(name, table)));
      }
      cs := cs + [(name, value)];
      i := i + 2;
    }
    assert cs == Criteria(f);
    r := Ok(cs);
  }
}
