/**
 * The settings GUI's import of district-heating meter readings from a
 * provider's CSV file: Swedish decimal numbers, one reading per hour, the
 * trailing days the provider has not filled in yet (all zeros) cut off,
 * and a dry run that counts what an import would add.
 */
module EnergyImportService {
  import opened Common

  // ---------------------------------------------------------------------
  // Swedish decimals
  // ---------------------------------------------------------------------

  function LStripQuotes(s: string): string
  {
    if s != [] && s[0] == '"' then LStripQuotes(s[1..]) else s
  }

  function RStripQuotes(s: string): string
  {
    if s != [] && s[|s| - 1] == '"' then RStripQuotes(s[..|s| - 1]) else s
  }

  /** `str.strip('"')`. */
  function StripQuotes(s: string): string
  {
    RStripQuotes(LStripQuotes(s))
  }

  /**
   * Spaces and points (thousands separators) dropped and the decimal comma
   * turned into a point.
   */
  function Normalize(s: string): (t: string)
    ensures |t| <= |s|
  {
    if s == [] then []
    else if s[0] == ' ' || s[0] == '.' then Normalize(s[1..])
    else if s[0] == ',' then ['.'] + Normalize(s[1..])
    else [s[0]] + Normalize(s[1..])
  }

  /** `_parse_swedish_decimal`; `None` is the ValueError case. */
  function ParseSwedishDecimal(s: string): Option<real>
  {
    ParseDecimal(Strip(Normalize(StripQuotes(Strip(s)))))
  }

  lemma StripKeeps(s: string)
    requires s != [] && !IsSpace(s[0]) && !IsSpace(s[|s| - 1])
    ensures Strip(s) == s
  {
  }

  lemma StripQuotesKeeps(s: string)
    requires s != [] && s[0] != '"' && s[|s| - 1] != '"'
    ensures StripQuotes(s) == s
  {
  }

  /** Text without spaces or quotes at its ends reaches the number parser only normalized. */
  lemma CleanEnds(s: string)
    requires s != [] && !IsSpace(s[0]) && !IsSpace(s[|s| - 1]) && s[0] != '"' && s[|s| - 1] != '"'
    ensures ParseSwedishDecimal(s) == ParseDecimal(Strip(Normalize(s)))
  {
    StripKeeps(s);
    StripQuotesKeeps(s);
  }

  lemma {:induction false} NormalizeConcat(a: string, b: string)
    ensures Normalize(a + b) == Normalize(a) + Normalize(b)
  {
    if a == [] {
      assert a + b == b;
    } else {
      var ab := a + b;
      assert ab[0] == a[0] && ab[1..] == a[1..] + b;
      NormalizeConcat(a[1..], b);
      var head := if a[0] == ' ' || a[0] == '.' then [] else if a[0] == ',' then ['.'] else [a[0]];
      assert Normalize(a) == head + Normalize(a[1..]);
      assert Normalize(ab) == head + Normalize(a[1..] + b);
    }
  }

  lemma {:induction false} NormalizeDigits(d: string)
    requires AllDigits(d)
    ensures Normalize(d) == d
  {
    if d != [] {
      NormalizeDigits(d[1..]);
      assert d == [d[0]] + d[1..];
    }
  }

  lemma NormalizeComma(whole: string, frac: string)
    requires AllDigits(whole) && AllDigits(frac)
    ensures Normalize(whole + "," + frac) == whole + "." + frac
  {
    NormalizeConcat(whole + ",", frac);
    NormalizeConcat(whole, ",");
    assert Normalize(",") == ['.'] + Normalize("");
    NormalizeDigits(whole);
    NormalizeDigits(frac);
  }

  /** Digits, a decimal comma and digits read as the number they spell. */
  lemma DecimalCommaValue(whole: string, frac: string)
    requires AllDigits(whole) && AllDigits(frac) && |whole| > 0
    ensures ParseSwedishDecimal(whole + "," + frac) == Some((DigitsValue(whole) as real) + FracValue(frac))
  {
    var s := whole + "," + frac;
    var t := whole + "." + frac;
    assert s[0] == whole[0] && (s[|s| - 1] == ',' || s[|s| - 1] == frac[|frac| - 1]);
    CleanEnds(s);
    NormalizeComma(whole, frac);
    assert t[0] == whole[0] && (t[|t| - 1] == '.' || t[|t| - 1] == frac[|frac| - 1]);
    StripKeeps(t);
    ParsePointed(t, whole, frac);
  }

  lemma SeparatorNormalized(a: string, b: string, sep: char)
    requires sep == ' ' || sep == '.'
    ensures Normalize(a + [sep] + b) == Normalize(a + b)
  {
    NormalizeConcat(a + [sep], b);
    NormalizeConcat(a, [sep]);
    NormalizeConcat(a, b);
    assert Normalize([sep]) == Normalize([sep][1..]);
  }

  /** A space or a point inside the number is a thousands separator and changes nothing. */
  lemma SeparatorIgnored(a: string, b: string, sep: char)
    requires sep == ' ' || sep == '.'
    requires a != [] && b != []
    requires !IsSpace(a[0]) && a[0] != '"' && !IsSpace(b[|b| - 1]) && b[|b| - 1] != '"'
    ensures ParseSwedishDecimal(a + [sep] + b) == ParseSwedishDecimal(a + b)
  {
    var s := a + [sep] + b;
    var u := a + b;
    assert s[0] == a[0] && s[|s| - 1] == b[|b| - 1];
    assert u[0] == a[0] && u[|u| - 1] == b[|b| - 1];
    CleanEnds(s);
    CleanEnds(u);
    SeparatorNormalized(a, b, sep);
  }

  // ---------------------------------------------------------------------
  // Parsing the file
  // ---------------------------------------------------------------------

  /** A reading: the UTC hour it starts at (seconds), its kWh and its energy type. */
  datatype EnergyRow = EnergyRow(timestamp: int, value: real, energyType: string)

  /** Why a line, or the file, gave no reading; lines count from 1 for the header. */
  datatype RowError =
    | EmptyFile
    | NotEnoughColumns(line: nat)
    | InvalidTimestamp(line: nat, text: string)
    | InvalidValue(line: nat, text: string)
    | NegativeValue(line: nat, value: real)
    | NoValidRows
    | AllTrimmed

  datatype RowOutcome = Parsed(row: EnergyRow) | Failed(error: RowError) | Blank

  /**
   * One data line: the timestamp column is read by `parseTimestamp`, which
   * stands for the conversion of Swedish local time to UTC.
   */
  function ParseRow(row: seq<string>, line: nat, energyType: string, parseTimestamp: string -> Option<int>)
    : (r: RowOutcome)
    ensures r.Parsed? ==> r.row.value >= 0.0 && r.row.energyType == energyType
    ensures |row| < 2 ==> r == Failed(NotEnoughColumns(line))
    ensures r == Blank <==> |row| >= 2 && (Strip(row[0]) == "" || Strip(row[1]) == "")
    ensures r.Failed? && r.error.NegativeValue? ==> r.error.value < 0.0 && r.error.line == line
    ensures r.Parsed? ==> parseTimestamp(row[0]) == Some(r.row.timestamp) && ParseSwedishDecimal(row[1]) == Some(r.row.value)
  {
    if |row| < 2 then Failed(NotEnoughColumns(line))
    else if Strip(row[0]) == "" || Strip(row[1]) == "" then Blank
    else
      match parseTimestamp(row[0])
      case None => Failed(InvalidTimestamp(line, row[0]))
      case Some(ts) =>
        match ParseSwedishDecimal(row[1])
        case None => Failed(InvalidValue(line, row[1]))
        case Some(v) => if v < 0.0 then Failed(NegativeValue(line, v)) else Parsed(EnergyRow(ts, v, energyType))
  }

  /** The data lines after the header, the `i`-th being line `i + 2`. */
  function ParseLines(rows: seq<seq<string>>, energyType: string, parseTimestamp: string -> Option<int>)
    : (seq<EnergyRow>, seq<RowError>)
  {
    if rows == [] then ([], [])
    else
      var n := |rows| - 1;
      var (parsed, errors) := ParseLines(rows[..n], energyType, parseTimestamp);
      match ParseRow(rows[n], n + 2, energyType, parseTimestamp)
      case Parsed(r) => (parsed + [r], errors)
      case Failed(e) => (parsed, errors + [e])
      case Blank => (parsed, errors)
  }

  /** `parse_csv` on the rows of the CSV reader. */
  function ParsedCsv(csvRows: seq<seq<string>>, energyType: string, parseTimestamp: string -> Option<int>)
    : (seq<EnergyRow>, seq<RowError>)
  {
    if csvRows == [] || csvRows[0] == [] then ([], [EmptyFile])
    else ParseLines(csvRows[1..], energyType, parseTimestamp)
  }

  /** Each line yields at most one reading or one error. */
  lemma {:induction false} ParseLinesCount(rows: seq<seq<string>>, energyType: string,
                                           parseTimestamp: string -> Option<int>)
    ensures |ParseLines(rows, energyType, parseTimestamp).0| + |ParseLines(rows, energyType, parseTimestamp).1| <= |rows|
  {
    if rows != [] {
      ParseLinesCount(rows[..|rows| - 1], energyType, parseTimestamp);
    }
  }

  /** Every reading is non-negative, tagged with the energy type and read from one of the lines. */
  lemma {:induction false} ParseLinesReadings(rows: seq<seq<string>>, energyType: string,
                                              parseTimestamp: string -> Option<int>)
    ensures forall r :: r in ParseLines(rows, energyType, parseTimestamp).0 ==>
      && r.value >= 0.0 && r.energyType == energyType
      && exists i :: 0 <= i < |rows| && ParseRow(rows[i], i + 2, energyType, parseTimestamp) == Parsed(r)
  {
    if rows != [] {
      var n := |rows| - 1;
      ParseLinesReadings(rows[..n], energyType, parseTimestamp);
      forall r | r in ParseLines(rows, energyType, parseTimestamp).0
        ensures exists i :: 0 <= i < |rows| && ParseRow(rows[i], i + 2, energyType, parseTimestamp) == Parsed(r)
      {
        if r in ParseLines(rows[..n], energyType, parseTimestamp).0 {
          var i :| 0 <= i < n && ParseRow(rows[..n][i], i + 2, energyType, parseTimestamp) == Parsed(r);
          assert rows[..n][i] == rows[i];
        } else {
          assert ParseRow(rows[n], n + 2, energyType, parseTimestamp) == Parsed(r);
        }
      }
    }
  }

  /** Every error is the outcome of one of the lines. */
  lemma {:induction false} ParseLinesErrors(rows: seq<seq<string>>, energyType: string,
                                            parseTimestamp: string -> Option<int>)
    ensures forall e :: e in ParseLines(rows, energyType, parseTimestamp).1 ==>
      exists i :: 0 <= i < |rows| && ParseRow(rows[i], i + 2, energyType, parseTimestamp) == Failed(e)
  {
    if rows != [] {
      var n := |rows| - 1;
      ParseLinesErrors(rows[..n], energyType, parseTimestamp);
      forall e | e in ParseLines(rows, energyType, parseTimestamp).1
        ensures exists i :: 0 <= i < |rows| && ParseRow(rows[i], i + 2, energyType, parseTimestamp) == Failed(e)
      {
        if e in ParseLines(rows[..n], energyType, parseTimestamp).1 {
          var i :| 0 <= i < n && ParseRow(rows[..n][i], i + 2, energyType, parseTimestamp) == Failed(e);
          assert rows[..n][i] == rows[i];
        } else {
          assert ParseRow(rows[n], n + 2, energyType, parseTimestamp) == Failed(e);
        }
      }
    }
  }

  /** Every line with fewer than two columns is reported with its number. */
  lemma {:induction false} ParseLinesShortRows(rows: seq<seq<string>>, energyType: string,
                                               parseTimestamp: string -> Option<int>)
    ensures forall i :: 0 <= i < |rows| && |rows[i]| < 2 ==>
      NotEnoughColumns(i + 2) in ParseLines(rows, energyType, parseTimestamp).1
  {
    if rows != [] {
      var n := |rows| - 1;
      ParseLinesShortRows(rows[..n], energyType, parseTimestamp);
      forall i | 0 <= i < |rows| && |rows[i]| < 2
        ensures NotEnoughColumns(i + 2) in ParseLines(rows, energyType, parseTimestamp).1
      {
        if i < n {
          assert rows[..n][i] == rows[i];
        }
      }
    }
  }

  method ParseCsv(csvRows: seq<seq<string>>, energyType: string, parseTimestamp: string -> Option<int>)
    returns (parsed: seq<EnergyRow>, errors: seq<RowError>)
    ensures (parsed, errors) == ParsedCsv(csvRows, energyType, parseTimestamp)
  {
    if csvRows == [] || csvRows[0] == [] {
      return [], [EmptyFile];
    }
    parsed, errors := [], [];
    for i := 1 to |csvRows|
      invariant (parsed, errors) == ParseLines(csvRows[1..i], energyType, parseTimestamp)
    {
      assert csvRows[1..i + 1][..i - 1] == csvRows[1..i];
      var outcome := ParseRow(csvRows[i], i + 1, energyType, parseTimestamp);
      match outcome {
        case Parsed(r) => parsed := parsed + [r];
        case Failed(e) => errors := errors + [e];
        case Blank =>
      }
    }
    assert csvRows[1..|csvRows|] == csvRows[1..];
  }

  // ---------------------------------------------------------------------
  // Trailing days without data
  // ---------------------------------------------------------------------

  function Values(rows: seq<EnergyRow>): (vs: seq<real>)
    ensures |vs| == |rows|
    ensures forall i :: 0 <= i < |rows| ==> vs[i] == rows[i].value
  {
    if rows == [] then [] else Values(rows[..|rows| - 1]) + [rows[|rows| - 1].value]
  }

  /** The Swedish calendar days the rows fall on; `dayOf` stands for the local-date formatting. */
  function Days(rows: seq<EnergyRow>, dayOf: int -> string): set<string>
  {
    set r | r in rows :: dayOf(r.timestamp)
  }

  predicate ZeroDay(rows: seq<EnergyRow>, dayOf: int -> string, day: string)
  {
    forall r :: r in rows && dayOf(r.timestamp) == day ==> r.value == 0.0
  }

  /**
   * The days `_trim_trailing_zero_days` removes: the days from which on
   * every day is all zeros.
   */
  function TrailingZeroDays(rows: seq<EnergyRow>, dayOf: int -> string): (trailing: set<string>)
    ensures trailing <= Days(rows, dayOf)
  {
    var days := Days(rows, dayOf);
    set d | d in days && forall e :: e in days && !StrLess(e, d) ==> ZeroDay(rows, dayOf, e)
  }

  /**
   * Every removed day is all zeros and later than every day with a
   * non-zero reading: the walk back stops at the first day with data.
   */
  lemma TrailingZeroDaysMeaning(rows: seq<EnergyRow>, dayOf: int -> string)
    ensures forall d :: d in TrailingZeroDays(rows, dayOf) ==> ZeroDay(rows, dayOf, d)
    ensures forall d, e :: d in TrailingZeroDays(rows, dayOf) && e in Days(rows, dayOf) && !ZeroDay(rows, dayOf, e) ==>
      StrLess(e, d)
  {
    forall d | d in TrailingZeroDays(rows, dayOf) ensures ZeroDay(rows, dayOf, d) {
      StrLessIrreflexive(d);
    }
  }

  /** The rows not on one of `days`, in order. */
  function RowsOutside(rows: seq<EnergyRow>, days: set<string>, dayOf: int -> string): (kept: seq<EnergyRow>)
    ensures |kept| <= |rows|
  {
    if rows == [] then []
    else
      var n := |rows| - 1;
      RowsOutside(rows[..n], days, dayOf) + (if dayOf(rows[n].timestamp) in days then [] else [rows[n]])
  }

  /** Exactly the readings not on one of the days are kept. */
  lemma {:induction false} RowsOutsideMembers(rows: seq<EnergyRow>, days: set<string>, dayOf: int -> string)
    ensures forall r :: r in RowsOutside(rows, days, dayOf) <==> r in rows && dayOf(r.timestamp) !in days
  {
    if rows != [] {
      var n := |rows| - 1;
      RowsOutsideMembers(rows[..n], days, dayOf);
      assert rows == rows[..n] + [rows[n]];
    }
  }

  lemma {:induction false} RowsOutsideNothing(rows: seq<EnergyRow>, dayOf: int -> string)
    ensures RowsOutside(rows, {}, dayOf) == rows
  {
    if rows != [] {
      var n := |rows| - 1;
      RowsOutsideNothing(rows[..n], dayOf);
      assert RowsOutside(rows, {}, dayOf) == rows[..n] + [rows[n]];
      assert rows[..n] + [rows[n]] == rows;
    }
  }

  /** Dropping only zero readings leaves the total energy unchanged. */
  lemma {:induction false} DroppingZerosKeepsTotal(rows: seq<EnergyRow>, days: set<string>, dayOf: int -> string)
    requires forall d :: d in days ==> ZeroDay(rows, dayOf, d)
    ensures Sum(Values(RowsOutside(rows, days, dayOf))) == Sum(Values(rows))
  {
    if rows != [] {
      var n := |rows| - 1;
      forall d | d in days ensures ZeroDay(rows[..n], dayOf, d) {
        forall r | r in rows[..n] && dayOf(r.timestamp) == d ensures r.value == 0.0 {
          assert r in rows;
        }
      }
      DroppingZerosKeepsTotal(rows[..n], days, dayOf);
      var rest := RowsOutside(rows[..n], days, dayOf);
      assert Values(rows)[..n] == Values(rows[..n]);
      if dayOf(rows[n].timestamp) in days {
        assert rows[n] in rows;
        assert RowsOutside(rows, days, dayOf) == rest;
      } else {
        assert RowsOutside(rows, days, dayOf) == rest + [rows[n]];
        assert Values(rest + [rows[n]])[..|rest|] == Values(rest);
      }
    }
  }

  /** Trimming the trailing zero days never changes the total energy read. */
  lemma TrimKeepsTotal(rows: seq<EnergyRow>, dayOf: int -> string)
    ensures Sum(Values(RowsOutside(rows, TrailingZeroDays(rows, dayOf), dayOf))) == Sum(Values(rows))
  {
    TrailingZeroDaysMeaning(rows, dayOf);
    DroppingZerosKeepsTotal(rows, TrailingZeroDays(rows, dayOf), dayOf);
  }

  /** The latest of a non-empty set of days. */
  method LatestDay(days: set<string>) returns (latest: string)
    requires days != {}
    ensures latest in days && forall e :: e in days && e != latest ==> StrLess(e, latest)
  {
    latest :| latest in days;
    var remaining := days - {latest};
    while remaining != {}
      invariant latest in days && remaining <= days
      invariant forall e :: e in days && e !in remaining && e != latest ==> StrLess(e, latest)
      decreases |remaining|
    {
      var d :| d in remaining;
      if StrLess(latest, d) {
        var previous := latest;
        forall e | e in days && e !in remaining && e != d ensures StrLess(e, d) {
          if e != previous {
            StrLessTransitive(e, previous, d);
          }
        }
        latest := d;
      } else if d != latest {
        StrLessTotal(d, latest);
      }
      remaining := remaining - {d};
    }
  }

  /** The distinct days of the rows, collected as the grouping loop does. */
  method CollectDays(rows: seq<EnergyRow>, dayOf: int -> string) returns (days: set<string>)
    ensures days == Days(rows, dayOf)
  {
    days := {};
    for i := 0 to |rows|
      invariant days == Days(rows[..i], dayOf)
    {
      assert rows[..i + 1] == rows[..i] + [rows[i]];
      days := days + {dayOf(rows[i].timestamp)};
    }
    assert rows[..|rows|] == rows;
  }

  method KeepOutside(rows: seq<EnergyRow>, days: set<string>, dayOf: int -> string) returns (kept: seq<EnergyRow>)
    ensures kept == RowsOutside(rows, days, dayOf)
  {
    kept := [];
    for i := 0 to |rows|
      invariant kept == RowsOutside(rows[..i], days, dayOf)
    {
      assert rows[..i + 1][..i] == rows[..i];
      if dayOf(rows[i].timestamp) !in days {
        kept := kept + [rows[i]];
      }
    }
    assert rows[..|rows|] == rows;
  }

  /** What the walk over the days has established once it ends. */
  lemma TrimmedAreTrailing(rows: seq<EnergyRow>, dayOf: int -> string, days: set<string>,
                           remaining: set<string>, trimmed: set<string>, done: bool, stop: string)
    requires days == Days(rows, dayOf)
    requires remaining <= days && trimmed == days - remaining
    requires forall d :: d in trimmed ==> ZeroDay(rows, dayOf, d)
    requires forall d, e :: d in trimmed && e in remaining ==> StrLess(e, d)
    requires remaining == {} || done
    requires done ==> stop in remaining && !ZeroDay(rows, dayOf, stop) &&
                      forall e :: e in remaining && e != stop ==> StrLess(e, stop)
    ensures trimmed == TrailingZeroDays(rows, dayOf)
  {
    forall d | d in remaining ensures d !in TrailingZeroDays(rows, dayOf) {
      if d != stop {
        StrLessAsymmetric(d, stop);
      } else {
        StrLessIrreflexive(d);
      }
    }
    forall d | d in trimmed ensures d in TrailingZeroDays(rows, dayOf) {
      assert forall e :: e in days && !StrLess(e, d) ==> e in trimmed;
    }
  }

  /**
   * `_trim_trailing_zero_days`: walks the days from the latest back,
   * marking all-zero days until the first day with a non-zero reading,
   * then drops the rows of the marked days.
   */
  method TrimTrailingZeroDays(rows: seq<EnergyRow>, dayOf: int -> string) returns (kept: seq<EnergyRow>, count: nat)
    ensures kept == RowsOutside(rows, TrailingZeroDays(rows, dayOf), dayOf)
    ensures count == |TrailingZeroDays(rows, dayOf)|
  {
    var days := CollectDays(rows, dayOf);
    var remaining := days;
    var trimmed: set<string> := {};
    var done := false;
    ghost var stop := "";
    while remaining != {} && !done
      invariant remaining <= days && trimmed == days - remaining
      invariant forall d :: d in trimmed ==> ZeroDay(rows, dayOf, d)
      invariant forall d, e :: d in trimmed && e in remaining ==> StrLess(e, d)
      invariant done ==> stop in remaining && !ZeroDay(rows, dayOf, stop) &&
                         forall e :: e in remaining && e != stop ==> StrLess(e, stop)
      decreases |remaining|, !done
    {
      var latest := LatestDay(remaining);
      if ZeroDay(rows, dayOf, latest) {
        trimmed := trimmed + {latest};
        remaining := remaining - {latest};
      } else {
        done := true;
        stop := latest;
      }
    }
    TrimmedAreTrailing(rows, dayOf, days, remaining, trimmed, done, stop);
    kept := KeepOutside(rows, trimmed, dayOf);
    count := |trimmed|;
  }

  // ---------------------------------------------------------------------
  // Dry run
  // ---------------------------------------------------------------------

  function TimestampKey(r: EnergyRow): real
  {
    r.timestamp as real
  }

  /** The rows whose hour is not stored yet, in order. */
  function NewRows(rows: seq<EnergyRow>, existing: set<int>): (newOnes: seq<EnergyRow>)
    ensures |newOnes| <= |rows|
  {
    if rows == [] then []
    else
      var n := |rows| - 1;
      NewRows(rows[..n], existing) + (if rows[n].timestamp in existing then [] else [rows[n]])
  }

  /** Exactly the readings whose hour is not stored are new. */
  lemma {:induction false} NewRowsMembers(rows: seq<EnergyRow>, existing: set<int>)
    ensures forall r :: r in NewRows(rows, existing) <==> r in rows && r.timestamp !in existing
  {
    if rows != [] {
      var n := |rows| - 1;
      NewRowsMembers(rows[..n], existing);
      assert rows == rows[..n] + [rows[n]];
    }
  }

  /** How many rows fall on an hour already stored (a row per duplicate, as `check_duplicates` lists them). */
  function DuplicateCount(rows: seq<EnergyRow>, existing: set<int>): (n: nat)
    ensures n + |NewRows(rows, existing)| == |rows|
  {
    if rows == [] then 0
    else DuplicateCount(rows[..|rows| - 1], existing) + (if rows[|rows| - 1].timestamp in existing then 1 else 0)
  }

  lemma {:induction false} SortedOutside(rows: seq<EnergyRow>, days: set<string>, dayOf: int -> string)
    requires SortedBy(rows, TimestampKey)
    ensures SortedBy(RowsOutside(rows, days, dayOf), TimestampKey)
  {
    if rows != [] {
      var n := |rows| - 1;
      var prefix := rows[..n];
      SortedPrefix(rows, n, TimestampKey);
      SortedOutside(prefix, days, dayOf);
      var rest := RowsOutside(prefix, days, dayOf);
      RowsOutsideMembers(prefix, days, dayOf);
      if dayOf(rows[n].timestamp) !in days {
        forall i | 0 <= i < |rest| ensures TimestampKey(rest[i]) <= TimestampKey(rows[n]) {
          assert rest[i] in prefix;
          var j :| 0 <= j < n && prefix[j] == rest[i];
          assert rows[j] == rest[i];
        }
        SortedSnoc(rest, rows[n], TimestampKey);
        assert RowsOutside(rows, days, dayOf) == rest + [rows[n]];
      } else {
        assert RowsOutside(rows, days, dayOf) == rest;
      }
    }
  }

  lemma FilterKeepsOrder(rows: seq<EnergyRow>, days: set<string>, dayOf: int -> string, existing: set<int>)
    requires SortedBy(rows, TimestampKey)
    ensures SortedBy(RowsOutside(rows, days, dayOf), TimestampKey)
    ensures SortedBy(NewRows(RowsOutside(rows, days, dayOf), existing), TimestampKey)
  {
    SortedOutside(rows, days, dayOf);
    SortedFilter(RowsOutside(rows, days, dayOf), existing);
  }

  lemma {:induction false} SortedFilter(rows: seq<EnergyRow>, existing: set<int>)
    requires SortedBy(rows, TimestampKey)
    ensures SortedBy(NewRows(rows, existing), TimestampKey)
  {
    if rows != [] {
      var n := |rows| - 1;
      var prefix := rows[..n];
      SortedPrefix(rows, n, TimestampKey);
      SortedFilter(prefix, existing);
      var rest := NewRows(prefix, existing);
      NewRowsMembers(prefix, existing);
      if rows[n].timestamp !in existing {
        forall i | 0 <= i < |rest| ensures TimestampKey(rest[i]) <= TimestampKey(rows[n]) {
          assert rest[i] in prefix;
          var j :| 0 <= j < n && prefix[j] == rest[i];
          assert rows[j] == rest[i];
        }
        SortedSnoc(rest, rows[n], TimestampKey);
        assert NewRows(rows, existing) == rest + [rows[n]];
      } else {
        assert NewRows(rows, existing) == rest;
      }
    }
  }

  /** The summary a dry run shows; `dateRange` holds the first and last hour kept. */
  datatype DryRunResult = DryRunResult(
    success: bool, totalRows: nat, validRows: nat, duplicateCount: nat, newRows: nat,
    totalKwh: real, newKwh: real, trimmedDays: nat, dateRange: Option<(int, int)>,
    errors: seq<RowError>, parsedData: seq<EnergyRow>)

  /** The loop of `dry_run` that sets the duplicates aside. */
  method SplitNew(rows: seq<EnergyRow>, existing: set<int>) returns (newOnes: seq<EnergyRow>, duplicates: nat)
    ensures newOnes == NewRows(rows, existing) && duplicates == DuplicateCount(rows, existing)
  {
    newOnes, duplicates := [], 0;
    for i := 0 to |rows|
      invariant newOnes == NewRows(rows[..i], existing) && duplicates == DuplicateCount(rows[..i], existing)
    {
      assert rows[..i + 1][..i] == rows[..i];
      if rows[i].timestamp in existing {
        duplicates := duplicates + 1;
      } else {
        newOnes := newOnes + [rows[i]];
      }
    }
    assert rows[..|rows|] == rows;
  }

  /**
   * The readings a successful dry run offers for import: sorted by hour,
   * each one of the parsed readings, all between the first and the last
   * hour kept.
   */
  lemma OfferedReadings(parsed: seq<EnergyRow>, dayOf: int -> string, existing: set<int>)
    ensures var sorted := SortBy(parsed, TimestampKey);
      var kept := RowsOutside(sorted, TrailingZeroDays(sorted, dayOf), dayOf);
      var newOnes := NewRows(kept, existing);
      && SortedBy(newOnes, TimestampKey)
      && (forall row :: row in newOnes ==> row in parsed)
      && (kept != [] ==> forall row :: row in newOnes ==> kept[0].timestamp <= row.timestamp <= kept[|kept| - 1].timestamp)
      && (TrailingZeroDays(sorted, dayOf) == {} ==> kept == sorted)
  {
    var sorted := SortBy(parsed, TimestampKey);
    var kept := RowsOutside(sorted, TrailingZeroDays(sorted, dayOf), dayOf);
    FilterKeepsOrder(sorted, TrailingZeroDays(sorted, dayOf), dayOf, existing);
    RowsOutsideNothing(sorted, dayOf);
    OfferedFromParsed(parsed, sorted, kept, TrailingZeroDays(sorted, dayOf), dayOf, existing);
    if kept != [] {
      OfferedWithinKept(kept, existing);
    }
  }

  lemma OfferedFromParsed(parsed: seq<EnergyRow>, sorted: seq<EnergyRow>, kept: seq<EnergyRow>,
                          days: set<string>, dayOf: int -> string, existing: set<int>)
    requires sorted == SortBy(parsed, TimestampKey) && kept == RowsOutside(sorted, days, dayOf)
    ensures forall row :: row in NewRows(kept, existing) ==> row in parsed
  {
    RowsOutsideMembers(sorted, days, dayOf);
    NewRowsMembers(kept, existing);
    forall row | row in NewRows(kept, existing) ensures row in parsed {
      assert row in multiset(sorted);
    }
  }

  lemma OfferedWithinKept(kept: seq<EnergyRow>, existing: set<int>)
    requires kept != [] && SortedBy(kept, TimestampKey)
    ensures forall row :: row in NewRows(kept, existing) ==> kept[0].timestamp <= row.timestamp <= kept[|kept| - 1].timestamp
  {
    NewRowsMembers(kept, existing);
    forall row | row in NewRows(kept, existing) ensures kept[0].timestamp <= row.timestamp <= kept[|kept| - 1].timestamp {
      var i :| 0 <= i < |kept| && kept[i] == row;
      assert TimestampKey(kept[0]) <= TimestampKey(kept[i]) <= TimestampKey(kept[|kept| - 1]);
    }
  }

  /**
   * The part of `dry_run` after parsing, for a non-empty list of readings:
   * totals, sorting by hour, trimming, and setting the stored hours aside.
   */
  method Assess(parsed: seq<EnergyRow>, errors: seq<RowError>, dayOf: int -> string, existing: set<int>)
    returns (r: DryRunResult)
    requires parsed != []
    ensures r.validRows == |parsed| && r.totalRows == |parsed| + |errors| && r.totalKwh == Sum(Values(parsed))
    ensures var sorted := SortBy(parsed, TimestampKey);
      var kept := RowsOutside(sorted, TrailingZeroDays(sorted, dayOf), dayOf);
      && r.trimmedDays == |TrailingZeroDays(sorted, dayOf)|
      && (r.success <==> kept != [])
      && (r.success ==> && r.parsedData == NewRows(kept, existing)
                        && r.duplicateCount == DuplicateCount(kept, existing)
                        && r.dateRange == Some((kept[0].timestamp, kept[|kept| - 1].timestamp)))
    ensures !r.success ==> r.errors == errors + [AllTrimmed] && r.newRows == 0
    ensures r.success ==>
      && r.newRows == |r.parsedData| && r.newRows + r.duplicateCount <= r.validRows
      && (r.trimmedDays == 0 ==> r.newRows + r.duplicateCount == r.validRows)
      && r.newKwh == Sum(Values(r.parsedData))
      && SortedBy(r.parsedData, TimestampKey)
      && r.dateRange.Some?
      && (forall row :: row in r.parsedData ==>
            && row.timestamp !in existing && row in parsed
            && r.dateRange.value.0 <= row.timestamp <= r.dateRange.value.1)
  {
    r := DryRunResult(false, |parsed| + |errors|, |parsed|, 0, 0, Sum(Values(parsed)), 0.0, 0, None, errors, []);
    var sorted := SortBy(parsed, TimestampKey);
    var kept, trimmedDays := TrimTrailingZeroDays(sorted, dayOf);
    r := r.(trimmedDays := trimmedDays);
    if kept == [] {
      return r.(errors := errors + [AllTrimmed]);
    }
    var newOnes, duplicates := SplitNew(kept, existing);
    OfferedReadings(parsed, dayOf, existing);
    NewRowsMembers(kept, existing);
    r := r.(duplicateCount := duplicates, newRows := |newOnes|, newKwh := Sum(Values(newOnes)),
            dateRange := Some((kept[0].timestamp, kept[|kept| - 1].timestamp)), parsedData := newOnes, success := true);
  }

  /**
   * `dry_run`: parses the file, sorts the readings by hour, trims the
   * trailing zero days and counts the readings whose hour is already
   * stored (`existing`, the answer of the duplicate query).
   */
  method DryRun(csvRows: seq<seq<string>>, energyType: string, parseTimestamp: string -> Option<int>,
                dayOf: int -> string, existing: set<int>) returns (r: DryRunResult)
    ensures var parsed := ParsedCsv(csvRows, energyType, parseTimestamp).0;
      var errors := ParsedCsv(csvRows, energyType, parseTimestamp).1;
      && r.validRows == |parsed|
      && (parsed == [] ==> !r.success && r.totalRows == 0 && r.newRows == 0 &&
                           r.errors == errors + (if errors == [] then [NoValidRows] else []))
      && (parsed != [] ==> r.totalRows == |parsed| + |errors| && r.totalKwh == Sum(Values(parsed)))
      && (parsed != [] ==>
            var sorted := SortBy(parsed, TimestampKey);
            var kept := RowsOutside(sorted, TrailingZeroDays(sorted, dayOf), dayOf);
            && r.trimmedDays == |TrailingZeroDays(sorted, dayOf)|
            && (r.success <==> kept != [])
            && (r.success ==> && r.parsedData == NewRows(kept, existing)
                              && r.duplicateCount == DuplicateCount(kept, existing)
                              && r.dateRange == Some((kept[0].timestamp, kept[|kept| - 1].timestamp))))
      && (parsed != [] && !r.success ==> r.errors == errors + [AllTrimmed] && r.newRows == 0)
      && (r.success ==>
            && r.newRows == |r.parsedData| && r.newRows + r.duplicateCount <= r.validRows
            && (r.trimmedDays == 0 ==> r.newRows + r.duplicateCount == r.validRows)
            && r.newKwh == Sum(Values(r.parsedData))
            && SortedBy(r.parsedData, TimestampKey)
            && r.dateRange.Some?
            && (forall row :: row in r.parsedData ==>
                  && row.timestamp !in existing && row.value >= 0.0 && row.energyType == energyType
                  && r.dateRange.value.0 <= row.timestamp <= r.dateRange.value.1))
  {
    var parsed, errors := ParseCsv(csvRows, energyType, parseTimestamp);
    if parsed == [] {
      r := DryRunResult(false, 0, 0, 0, 0, 0.0, 0.0, 0, None, errors, []);
      if errors == [] {
        r := r.(errors := [NoValidRows]);
      }
      return;
    }
    if csvRows != [] && csvRows[0] != [] {
      ParseLinesReadings(csvRows[1..], energyType, parseTimestamp);
    }
    r := Assess(parsed, errors, dayOf, existing);
  }
}
