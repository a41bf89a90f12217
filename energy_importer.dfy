/**
 * The meter-file importer: semicolon-separated exports from the district
 * heating utility are parsed into readings, each meter's readings are
 * matched to a house through the meter mapping of the customer profiles,
 * readings already stored with the same values are skipped, and the file
 * is deleted once everything in it was imported without error.
 *
 * The file's text, the stored readings and the meter mapping are values;
 * the points handed to InfluxDB and the deletion of the file are results.
 */
module EnergyImporting {
  import opened Common

  // ---------------------------------------------------------------------
  // Columns
  // ---------------------------------------------------------------------

  /** The fields a column of a meter file can feed. */
  datatype Field = MeterId | Timestamp | MeterReading | Consumption | Volume
                 | PrimaryTempIn | PrimaryTempOut | Power

  /** Lower-cased header names and the field each one feeds. */
  const ColumnMappings: map<string, Field> := map[
    "id" := MeterId, "meter_id" := MeterId, "meterid" := MeterId, "serviceid" := MeterId,
    "timestamp" := Timestamp, "time" := Timestamp, "datetime" := Timestamp, "datum" := Timestamp,
    "tidpunkt" := Timestamp,
    "meterstand" := MeterReading, "meter_reading" := MeterReading, "meterreading" := MeterReading,
    "cumulative" := MeterReading, "total" := MeterReading,
    "consumption" := Consumption, "energy" := Consumption, "kwh" := Consumption, "mwh" := Consumption,
    "forbrukning" := Consumption,
    "volume" := Volume, "flow" := Volume, "flode" := Volume, "volume_flow" := Volume, "m3h" := Volume,
    "m3" := Volume,
    "temperaturein" := PrimaryTempIn, "temperatureout" := PrimaryTempOut, "tempin" := PrimaryTempIn,
    "tempout" := PrimaryTempOut, "temp_in" := PrimaryTempIn, "temp_out" := PrimaryTempOut,
    "t_in" := PrimaryTempIn, "t_out" := PrimaryTempOut, "framledning_primar" := PrimaryTempIn,
    "returledning_primar" := PrimaryTempOut,
    "power" := Power, "effect" := Power, "kw" := Power, "mw" := Power]

  /** The header names of a timestamp column. */
  const TimestampHeaders: set<string> := {"timestamp", "time", "datetime", "datum", "tidpunkt"}

  /** Cell texts that stand for a missing value. */
  const MissingValues: set<string> := {"-", "", "null", "NULL", "None", "N/A", "n/a", "#N/A"}

  predicate IsNumeric(f: Field)
  {
    f != MeterId && f != Timestamp
  }

  /** The cells of a line: the stripped line split at the separator. */
  function Cells(line: string, sep: char): seq<string>
  {
    Split(Strip(line), sep)
  }

  function ColumnName(cell: string): string
  {
    Lower(Strip(cell))
  }

  /** The column map of a header: each position whose name is known, with the field it feeds. */
  function ColumnMap(header: seq<string>): (m: map<nat, Field>)
    ensures forall i :: i in m ==> i < |header| && ColumnName(header[i]) in ColumnMappings &&
                                   m[i] == ColumnMappings[ColumnName(header[i])]
  {
    if header == [] then map[]
    else
      var n := |header| - 1;
      var m := ColumnMap(header[..n]);
      assert forall i :: 0 <= i < n ==> header[..n][i] == header[i];
      var name := ColumnName(header[n]);
      if name in ColumnMappings then m[n := ColumnMappings[name]] else m
  }

  /** Every header position whose name is known is in the column map. */
  lemma {:induction false} ColumnMapKeys(header: seq<string>)
    ensures forall i: nat :: i in ColumnMap(header) <==> i < |header| && ColumnName(header[i]) in ColumnMappings
  {
    if header != [] {
      var n := |header| - 1;
      ColumnMapKeys(header[..n]);
      assert forall i :: 0 <= i < n ==> header[..n][i] == header[i];
    }
  }

  /** Exactly the timestamp header names map to the timestamp field. */
  lemma TimestampHeadersMeaning(name: string)
    ensures name in ColumnMappings && ColumnMappings[name] == Timestamp <==> name in TimestampHeaders
  {
    if name in TimestampHeaders {
      TimestampHeadersMapped(name);
    } else {
      OnlyTimestampHeaders(name);
    }
  }

  lemma TimestampHeadersMapped(name: string)
    requires name in TimestampHeaders
    ensures name in ColumnMappings && ColumnMappings[name] == Timestamp
  {
  }

  lemma OnlyTimestampHeaders(name: string)
    requires name !in TimestampHeaders
    ensures name in ColumnMappings ==> ColumnMappings[name] != Timestamp
  {
  }

  /** A header has a timestamp column exactly when one of its cells names one. */
  lemma TimestampColumnMeaning(header: seq<string>)
    ensures Timestamp in ColumnMap(header).Values <==>
      exists i :: 0 <= i < |header| && ColumnName(header[i]) in TimestampHeaders
  {
    var m := ColumnMap(header);
    ColumnMapKeys(header);
    if Timestamp in m.Values {
      var i :| i in m && m[i] == Timestamp;
      TimestampHeadersMeaning(ColumnName(header[i]));
    }
    if i :| 0 <= i < |header| && ColumnName(header[i]) in TimestampHeaders {
      TimestampHeadersMeaning(ColumnName(header[i]));
      assert m[i] == Timestamp;
    }
  }

  lemma ColumnMapStep(header: seq<string>, i: nat)
    requires i < |header|
    ensures ColumnMap(header[..i + 1]) ==
      var name := ColumnName(header[i]);
      if name in ColumnMappings then ColumnMap(header[..i])[i := ColumnMappings[name]] else ColumnMap(header[..i])
  {
    assert header[..i + 1][..i] == header[..i];
  }

  /** The header loop of `parse_file`: every header position is looked up once. */
  method BuildColumnMap(header: seq<string>) returns (columns: map<nat, Field>)
    ensures columns == ColumnMap(header)
  {
    columns := map[];
    for i := 0 to |header|
      invariant columns == ColumnMap(header[..i])
    {
      ColumnMapStep(header, i);
      var name := ColumnName(header[i]);
      if name in ColumnMappings {
        columns := columns[i := ColumnMappings[name]];
      }
    }
    assert header[..|header|] == header;
  }

  // ---------------------------------------------------------------------
  // Header names are case-insensitive
  // ---------------------------------------------------------------------

  lemma LowerTwice(s: string)
    ensures Lower(Lower(s)) == Lower(s)
  {
    assert forall i :: 0 <= i < |s| ==> LowerChar(LowerChar(s[i])) == LowerChar(s[i]);
  }

  lemma {:induction false} LStripLower(s: string)
    ensures LStrip(Lower(s)) == Lower(LStrip(s))
  {
    if s != [] {
      assert Lower(s)[0] == LowerChar(s[0]);
      if IsSpace(s[0]) {
        assert Lower(s)[1..] == Lower(s[1..]);
        LStripLower(s[1..]);
      }
    }
  }

  lemma {:induction false} RStripLower(s: string)
    ensures RStrip(Lower(s)) == Lower(RStrip(s))
  {
    if s != [] {
      var n := |s| - 1;
      var t := Lower(s);
      assert t[n] == LowerChar(s[n]);
      SpaceLower(s[n]);
      if IsSpace(s[n]) {
        assert t[..n] == Lower(s[..n]);
        assert RStrip(t) == RStrip(t[..n]);
        RStripLower(s[..n]);
      } else {
        assert RStrip(t) == t;
      }
    }
  }

  lemma SpaceLower(c: char)
    ensures IsSpace(LowerChar(c)) == IsSpace(c)
  {
  }

  lemma StripLower(s: string)
    ensures Strip(Lower(s)) == Lower(Strip(s))
  {
    LStripLower(s);
    RStripLower(LStrip(s));
  }

  lemma {:induction false} SplitLowerLength(s: string, sep: char)
    requires !('A' <= sep <= 'Z') && !('a' <= sep <= 'z')
    ensures |Split(Lower(s), sep)| == |Split(s, sep)|
  {
    if s != [] {
      var t := Lower(s);
      assert t[0] == LowerChar(s[0]) && t[1..] == Lower(s[1..]);
      SplitLowerLength(s[1..], sep);
    }
  }

  lemma LowerCons(c: char, r: string)
    ensures Lower([c] + r) == [LowerChar(c)] + Lower(r)
  {
  }

  lemma {:induction false} SplitLowerAt(s: string, sep: char, i: nat)
    requires !('A' <= sep <= 'Z') && !('a' <= sep <= 'z')
    requires i < |Split(s, sep)|
    ensures i < |Split(Lower(s), sep)| && Split(Lower(s), sep)[i] == Lower(Split(s, sep)[i])
  {
    SplitLowerLength(s, sep);
    if s != [] {
      var t := Lower(s);
      assert t[0] == LowerChar(s[0]) && t[1..] == Lower(s[1..]);
      if s[0] == sep {
        if i > 0 {
          SplitLowerAt(s[1..], sep, i - 1);
        }
      } else {
        SplitLowerAt(s[1..], sep, i);
        if i == 0 {
          LowerCons(s[0], Split(s[1..], sep)[0]);
        }
      }
    }
  }

  /** Lower-casing before splitting at a separator that is not a letter gives the lower-cased parts. */
  lemma SplitLower(s: string, sep: char)
    requires !('A' <= sep <= 'Z') && !('a' <= sep <= 'z')
    ensures |Split(Lower(s), sep)| == |Split(s, sep)|
    ensures forall i :: 0 <= i < |Split(s, sep)| ==> Split(Lower(s), sep)[i] == Lower(Split(s, sep)[i])
  {
    SplitLowerLength(s, sep);
    forall i | 0 <= i < |Split(s, sep)| ensures Split(Lower(s), sep)[i] == Lower(Split(s, sep)[i]) {
      SplitLowerAt(s, sep, i);
    }
  }

  lemma ColumnNameLower(cell: string)
    ensures ColumnName(Lower(cell)) == ColumnName(cell)
  {
    StripLower(cell);
    LowerTwice(Strip(cell));
  }

  lemma ColumnsOfLowered(line: string, sep: char)
    requires !('A' <= sep <= 'Z') && !('a' <= sep <= 'z')
    ensures ColumnMap(Cells(Lower(line), sep)) == ColumnMap(Cells(line, sep))
  {
    StripLower(line);
    SplitLower(Strip(line), sep);
    var a, b := Cells(Lower(line), sep), Cells(line, sep);
    ColumnMapKeys(a);
    ColumnMapKeys(b);
    forall i | 0 <= i < |b|
      ensures ColumnName(a[i]) == ColumnName(b[i])
    {
      ColumnNameLower(b[i]);
    }
  }

  /** Two headers that differ only in the case of their letters give the same column map. */
  lemma HeaderCaseInsensitive(a: string, b: string, sep: char)
    requires !('A' <= sep <= 'Z') && !('a' <= sep <= 'z')
    requires Lower(a) == Lower(b)
    ensures ColumnMap(Cells(a, sep)) == ColumnMap(Cells(b, sep))
  {
    ColumnsOfLowered(a, sep);
    ColumnsOfLowered(b, sep);
  }

  // ---------------------------------------------------------------------
  // Timestamps
  // ---------------------------------------------------------------------

  /** `datetime.strptime` as seconds since the epoch of the naive time it reads, or None when it raises. */
  type Strptime = (string, string) -> Option<int>

  /** The formats tried, in order. */
  const TimestampFormats: seq<string> := [
    "%Y-%m-%dT%H:%M:%S", "%Y-%m-%dT%H:%M", "%Y-%m-%d %H:%M:%S", "%Y-%m-%d %H:%M",
    "%d/%m/%Y %H:%M:%S", "%d/%m/%Y %H:%M", "%Y%m%d%H%M%S", "%Y%m%d%H%M"]

  /** A trailing `Z` (UTC) is removed; the time is read as UTC either way. */
  function StripZulu(value: string): (r: string)
    ensures |value| > 0 && value[|value| - 1] == 'Z' ==> r + "Z" == value
    ensures !(|value| > 0 && value[|value| - 1] == 'Z') ==> r == value
  {
    if |value| > 0 && value[|value| - 1] == 'Z' then value[..|value| - 1] else value
  }

  /** The time read by the first format that accepts the text. */
  function FirstFormat(value: string, formats: seq<string>, strptime: Strptime): Option<int>
  {
    if formats == [] then None
    else match strptime(value, formats[0])
      case Some(t) => Some(t)
      case None => FirstFormat(value, formats[1..], strptime)
  }

  /** No time is read exactly when every format fails; otherwise it is the first accepting format's time. */
  lemma {:induction false} FirstFormatMeaning(value: string, formats: seq<string>, strptime: Strptime)
    ensures var r := FirstFormat(value, formats, strptime);
      && (r.None? <==> forall k :: 0 <= k < |formats| ==> strptime(value, formats[k]).None?)
      && (r.Some? ==> exists k :: 0 <= k < |formats| && strptime(value, formats[k]) == r
                                  && forall j :: 0 <= j < k ==> strptime(value, formats[j]).None?)
  {
    if formats != [] && strptime(value, formats[0]).None? {
      FirstFormatMeaning(value, formats[1..], strptime);
      var r := FirstFormat(value, formats[1..], strptime);
      if r.Some? {
        var k :| 0 <= k < |formats| - 1 && strptime(value, formats[1..][k]) == r
                 && forall j :: 0 <= j < k ==> strptime(value, formats[1..][j]).None?;
        assert strptime(value, formats[k + 1]) == r;
        forall j | 0 <= j < k + 1 ensures strptime(value, formats[j]).None? {
          if j > 0 {
            assert formats[j] == formats[1..][j - 1];
          }
        }
      } else {
        forall k | 0 <= k < |formats| ensures strptime(value, formats[k]).None? {
          if k > 0 {
            assert formats[k] == formats[1..][k - 1];
          }
        }
      }
    }
  }

  /** `_parse_timestamp`: None stands for the ValueError it raises. */
  function ParseTimestamp(value: string, strptime: Strptime): Option<int>
  {
    FirstFormat(StripZulu(value), TimestampFormats, strptime)
  }

  /**
   * With a trailing `Z` removed, no time is read exactly when every format
   * rejects the text; otherwise it is the time of the first format that
   * accepts it.
   */
  lemma ParseTimestampMeaning(value: string, strptime: Strptime)
    ensures var r := ParseTimestamp(value, strptime);
      && (r.None? <==> forall k :: 0 <= k < |TimestampFormats| ==> strptime(StripZulu(value), TimestampFormats[k]).None?)
      && (r.Some? ==> exists k :: 0 <= k < |TimestampFormats| && strptime(StripZulu(value), TimestampFormats[k]) == r
                                  && forall j :: 0 <= j < k ==> strptime(StripZulu(value), TimestampFormats[j]).None?)
  {
    FirstFormatMeaning(StripZulu(value), TimestampFormats, strptime);
  }

  /** A trailing `Z` changes nothing: the text before it is read by the same format. */
  lemma ZuluIgnored(value: string, strptime: Strptime)
    requires !(|value| > 0 && value[|value| - 1] == 'Z')
    ensures ParseTimestamp(value + "Z", strptime) == ParseTimestamp(value, strptime)
  {
    assert (value + "Z")[..|value|] == value;
  }

  // ---------------------------------------------------------------------
  // Data lines
  // ---------------------------------------------------------------------

  /** What the cells of a data line have filled in so far. */
  datatype Row = Row(timestamp: Option<int>, meterId: Option<string>, values: map<Field, real>)

  /** A reading: a data line that has a timestamp. */
  datatype Reading = Reading(timestamp: int, meterId: Option<string>, values: map<Field, real>)

  datatype ParseError = NoDataRows | NoTimestampColumn | LineFailed(line: nat) | MissingTimestamp(line: nat)

  datatype LineOutcome = Parsed(reading: Reading) | Failed(error: ParseError) | Blank

  function ReplaceChar(s: string, from: char, to: char): (r: string)
    ensures |r| == |s|
    ensures forall i :: 0 <= i < |s| ==> r[i] == (if s[i] == from then to else s[i])
  {
    seq(|s|, i requires 0 <= i < |s| => if s[i] == from then to else s[i])
  }

  /**
   * The number in a numeric cell: a missing-value token has none, a
   * decimal comma reads as a point, and text that is no number has none.
   */
  function NumericValue(cell: string): Option<real>
  {
    if cell in MissingValues then None else ParseDecimal(ReplaceChar(cell, ',', '.'))
  }

  /** Digits, a decimal comma and digits read as the number they spell. */
  lemma DecimalCommaAccepted(whole: string, frac: string)
    requires AllDigits(whole) && AllDigits(frac) && |whole| > 0
    ensures NumericValue(whole + "," + frac) == Some((DigitsValue(whole) as real) + FracValue(frac))
  {
    var cell := whole + "," + frac;
    assert cell[|whole|] == ',';
    assert cell !in MissingValues by {
      forall m | m in MissingValues ensures ',' !in m { }
    }
    assert ReplaceChar(cell, ',', '.') == whole + "." + frac;
    ParsePointed(whole + "." + frac, whole, frac);
  }

  /** One mapped cell read into the row; None when a timestamp cell cannot be read. */
  function ReadCell(row: Row, field: Field, cell: string, strptime: Strptime): Option<Row>
  {
    var v := Strip(cell);
    match field
    case Timestamp =>
      (match ParseTimestamp(v, strptime)
       case Some(t) => Some(row.(timestamp := Some(t)))
       case None => None)
    case MeterId => Some(row.(meterId := Some(v)))
    case _ =>
      match NumericValue(v)
      case Some(x) => Some(row.(values := row.values[field := x]))
      case None => Some(row)
  }

  /** The cells of a data line, read left to right into an empty row. */
  function ReadCells(cells: seq<string>, columns: map<nat, Field>, strptime: Strptime): Option<Row>
  {
    if cells == [] then Some(Row(None, None, map[]))
    else
      var n := |cells| - 1;
      match ReadCells(cells[..n], columns, strptime)
      case None => None
      case Some(row) => if n in columns then ReadCell(row, columns[n], cells[n], strptime) else Some(row)
  }

  /** A line fails exactly when one of its timestamp cells cannot be read. */
  lemma {:induction false} ReadCellsFails(cells: seq<string>, columns: map<nat, Field>, strptime: Strptime)
    ensures ReadCells(cells, columns, strptime).None? <==>
      exists i :: 0 <= i < |cells| && i in columns && columns[i] == Timestamp
                  && ParseTimestamp(Strip(cells[i]), strptime).None?
  {
    if cells != [] {
      var n := |cells| - 1;
      ReadCellsFails(cells[..n], columns, strptime);
      assert forall i :: 0 <= i < n ==> cells[..n][i] == cells[i];
    }
  }

  /** A line that was read has a timestamp exactly when it has a timestamp column. */
  lemma {:induction false} ReadCellsTimestamp(cells: seq<string>, columns: map<nat, Field>, strptime: Strptime)
    requires ReadCells(cells, columns, strptime).Some?
    ensures ReadCells(cells, columns, strptime).value.timestamp.Some? <==>
      exists i :: 0 <= i < |cells| && i in columns && columns[i] == Timestamp
  {
    if cells != [] {
      var n := |cells| - 1;
      ReadCellsTimestamp(cells[..n], columns, strptime);
    }
  }

  /** Every value of a line comes from a cell of its field's column that holds a number. */
  lemma {:induction false} ReadCellsValues(cells: seq<string>, columns: map<nat, Field>, strptime: Strptime)
    requires ReadCells(cells, columns, strptime).Some?
    ensures var values := ReadCells(cells, columns, strptime).value.values;
      forall f :: f in values ==>
        IsNumeric(f) && exists i :: 0 <= i < |cells| && i in columns && columns[i] == f
                                    && NumericValue(Strip(cells[i])) == Some(values[f])
  {
    forall f | f in ReadCells(cells, columns, strptime).value.values
      ensures var values := ReadCells(cells, columns, strptime).value.values;
        IsNumeric(f) && exists i :: 0 <= i < |cells| && i in columns && columns[i] == f
                                    && NumericValue(Strip(cells[i])) == Some(values[f])
    {
      ReadCellsValueAt(cells, columns, strptime, f);
    }
  }

  lemma {:induction false} ReadCellsValueAt(cells: seq<string>, columns: map<nat, Field>, strptime: Strptime, f: Field)
    requires ReadCells(cells, columns, strptime).Some? && f in ReadCells(cells, columns, strptime).value.values
    ensures var values := ReadCells(cells, columns, strptime).value.values;
      IsNumeric(f) && exists i :: 0 <= i < |cells| && i in columns && columns[i] == f
                                  && NumericValue(Strip(cells[i])) == Some(values[f])
  {
    var n := |cells| - 1;
    var prefix := cells[..n];
    var before := ReadCells(prefix, columns, strptime).value.values;
    var values := ReadCells(cells, columns, strptime).value.values;
    if n in columns && columns[n] == f && IsNumeric(f) && NumericValue(Strip(cells[n])).Some? {
      assert NumericValue(Strip(cells[n])) == Some(values[f]);
    } else {
      assert f in before && values[f] == before[f];
      ReadCellsValueAt(prefix, columns, strptime, f);
      var i :| 0 <= i < n && i in columns && columns[i] == f && NumericValue(Strip(prefix[i])) == Some(before[f]);
      assert prefix[i] == cells[i];
    }
  }

  /**
   * Every cell of a numeric column that holds a number leaves a value for
   * its field; with the lemma above, a field whose cells hold only
   * missing-value tokens is absent.
   */
  lemma {:induction false} ReadCellsNumbersKept(cells: seq<string>, columns: map<nat, Field>, strptime: Strptime)
    requires ReadCells(cells, columns, strptime).Some?
    ensures forall i :: (0 <= i < |cells| && i in columns && IsNumeric(columns[i])
                         && NumericValue(Strip(cells[i])).Some?) ==>
      columns[i] in ReadCells(cells, columns, strptime).value.values
  {
    if cells != [] {
      var n := |cells| - 1;
      var prefix := cells[..n];
      ReadCellsLast(cells, columns, strptime);
      ReadCellsNumbersKept(prefix, columns, strptime);
      var keys := ReadCells(cells, columns, strptime).value.values.Keys;
      forall i | 0 <= i < |cells| && i in columns && IsNumeric(columns[i]) && NumericValue(Strip(cells[i])).Some?
        ensures columns[i] in keys
      {
        if i < n {
          assert prefix[i] == cells[i];
        }
      }
    }
  }

  /** Reading the last cell of a line keeps the values of the cells before it and adds its own number. */
  lemma ReadCellsLast(cells: seq<string>, columns: map<nat, Field>, strptime: Strptime)
    requires cells != [] && ReadCells(cells, columns, strptime).Some?
    ensures var n := |cells| - 1;
      ReadCells(cells[..n], columns, strptime).Some?
      && ReadCells(cells[..n], columns, strptime).value.values.Keys <= ReadCells(cells, columns, strptime).value.values.Keys
      && (n in columns && IsNumeric(columns[n]) && NumericValue(Strip(cells[n])).Some? ==>
            columns[n] in ReadCells(cells, columns, strptime).value.values)
  {
    var n := |cells| - 1;
    var before := ReadCells(cells[..n], columns, strptime);
    if n in columns {
      ReadCellKeepsValues(before.value, columns[n], cells[n], strptime);
    }
  }

  /** Reading a cell keeps the values read so far and adds the cell's number, if any, to a numeric field. */
  lemma ReadCellKeepsValues(row: Row, field: Field, cell: string, strptime: Strptime)
    requires ReadCell(row, field, cell, strptime).Some?
    ensures row.values.Keys <= ReadCell(row, field, cell, strptime).value.values.Keys
    ensures IsNumeric(field) && NumericValue(Strip(cell)).Some? ==>
      field in ReadCell(row, field, cell, strptime).value.values
  {
  }

  /** `parse_file`'s handling of one data line, numbered from 2 after the header. */
  function ParseLine(line: string, lineNum: nat, sep: char, columns: map<nat, Field>, strptime: Strptime)
    : (r: LineOutcome)
    ensures r.Blank? <==> Strip(line) == ""
    ensures r.Failed? ==> r.error in {LineFailed(lineNum), MissingTimestamp(lineNum)}
  {
    if Strip(line) == "" then Blank
    else match ReadCells(Cells(line, sep), columns, strptime)
      case None => Failed(LineFailed(lineNum))
      case Some(row) =>
        if row.timestamp.Some? then Parsed(Reading(row.timestamp.value, row.meterId, row.values))
        else Failed(MissingTimestamp(lineNum))
  }

  /** The readings and errors of the data lines, in order. */
  function ParseLines(lines: seq<string>, sep: char, columns: map<nat, Field>, strptime: Strptime)
    : (seq<Reading>, seq<ParseError>)
  {
    if lines == [] then ([], [])
    else
      var n := |lines| - 1;
      var (readings, errors) := ParseLines(lines[..n], sep, columns, strptime);
      match ParseLine(lines[n], n + 2, sep, columns, strptime)
      case Parsed(r) => (readings + [r], errors)
      case Failed(e) => (readings, errors + [e])
      case Blank => (readings, errors)
  }

  function CountBlank(lines: seq<string>): nat
  {
    if lines == [] then 0
    else CountBlank(lines[..|lines| - 1]) + (if Strip(lines[|lines| - 1]) == "" then 1 else 0)
  }

  /** Every non-blank line gives exactly one reading or one error. */
  lemma {:induction false} ParseLinesCount(lines: seq<string>, sep: char, columns: map<nat, Field>, strptime: Strptime)
    ensures |ParseLines(lines, sep, columns, strptime).0| + |ParseLines(lines, sep, columns, strptime).1|
            == |lines| - CountBlank(lines)
  {
    if lines != [] {
      ParseLinesCount(lines[..|lines| - 1], sep, columns, strptime);
    }
  }

  /** Every error names a line that failed, by its number. */
  lemma {:induction false} ParseLinesErrors(lines: seq<string>, sep: char, columns: map<nat, Field>, strptime: Strptime)
    ensures forall e :: e in ParseLines(lines, sep, columns, strptime).1 ==>
      exists i :: 0 <= i < |lines| && ParseLine(lines[i], i + 2, sep, columns, strptime) == Failed(e)
  {
    if lines != [] {
      var n := |lines| - 1;
      ParseLinesErrors(lines[..n], sep, columns, strptime);
      forall e | e in ParseLines(lines, sep, columns, strptime).1
        ensures exists i :: 0 <= i < |lines| && ParseLine(lines[i], i + 2, sep, columns, strptime) == Failed(e)
      {
        if e in ParseLines(lines[..n], sep, columns, strptime).1 {
          var i :| 0 <= i < n && ParseLine(lines[..n][i], i + 2, sep, columns, strptime) == Failed(e);
          assert lines[..n][i] == lines[i];
        }
      }
    }
  }

  /** The data lines only ever report failed lines and lines without a timestamp. */
  lemma {:induction false} ParseLinesErrorKinds(lines: seq<string>, sep: char, columns: map<nat, Field>, strptime: Strptime)
    ensures forall e :: e in ParseLines(lines, sep, columns, strptime).1 ==> e.LineFailed? || e.MissingTimestamp?
  {
    if lines != [] {
      ParseLinesErrorKinds(lines[..|lines| - 1], sep, columns, strptime);
    }
  }

  /** Every reading is what one of the lines holds. */
  lemma {:induction false} ParseLinesReadings(lines: seq<string>, sep: char, columns: map<nat, Field>, strptime: Strptime)
    ensures forall r :: r in ParseLines(lines, sep, columns, strptime).0 ==>
      exists i :: 0 <= i < |lines| && ParseLine(lines[i], i + 2, sep, columns, strptime) == Parsed(r)
  {
    if lines != [] {
      var n := |lines| - 1;
      ParseLinesReadings(lines[..n], sep, columns, strptime);
      forall r | r in ParseLines(lines, sep, columns, strptime).0
        ensures exists i :: 0 <= i < |lines| && ParseLine(lines[i], i + 2, sep, columns, strptime) == Parsed(r)
      {
        if r in ParseLines(lines[..n], sep, columns, strptime).0 {
          var i :| 0 <= i < n && ParseLine(lines[..n][i], i + 2, sep, columns, strptime) == Parsed(r);
          assert lines[..n][i] == lines[i];
        }
      }
    }
  }

  /** The lines of a file: its stripped text split at newlines. */
  function FileLines(content: string): seq<string>
  {
    Split(Strip(content), '\n')
  }

  /** `parse_file`: the readings and the errors of a file. */
  function ParsedFile(content: string, sep: char, strptime: Strptime): (seq<Reading>, seq<ParseError>)
  {
    var lines := FileLines(content);
    if |lines| < 2 then ([], [NoDataRows])
    else
      var columns := ColumnMap(Cells(lines[0], sep));
      if Timestamp !in columns.Values then ([], [NoTimestampColumn])
      else ParseLines(lines[1..], sep, columns, strptime)
  }

  /** A file whose stripped text has no line break has no data rows. */
  lemma SingleLineFile(content: string, sep: char, strptime: Strptime)
    ensures ParsedFile(content, sep, strptime) == ([], [NoDataRows]) <==> '\n' !in Strip(content)
  {
    SplitSingle(Strip(content), '\n');
    var lines := FileLines(content);
    if |lines| >= 2 {
      var columns := ColumnMap(Cells(lines[0], sep));
      ParseLinesErrorKinds(lines[1..], sep, columns, strptime);
      assert NoDataRows !in ParseLines(lines[1..], sep, columns, strptime).1;
    }
  }

  /** A file is refused for a missing timestamp column exactly when it has data lines and no header cell names one. */
  lemma NoTimestampColumnMeaning(content: string, sep: char, strptime: Strptime)
    ensures NoTimestampColumn in ParsedFile(content, sep, strptime).1 <==>
      var lines := FileLines(content);
      |lines| >= 2 && !exists i :: 0 <= i < |Cells(lines[0], sep)| && ColumnName(Cells(lines[0], sep)[i]) in TimestampHeaders
  {
    var lines := FileLines(content);
    if |lines| >= 2 {
      var columns := ColumnMap(Cells(lines[0], sep));
      TimestampColumnMeaning(Cells(lines[0], sep));
      ParseLinesErrorKinds(lines[1..], sep, columns, strptime);
    }
  }

  /** The loop of `parse_file` over the data lines. */
  method ParseDataLines(lines: seq<string>, sep: char, columns: map<nat, Field>, strptime: Strptime)
    returns (readings: seq<Reading>, errors: seq<ParseError>)
    ensures (readings, errors) == ParseLines(lines, sep, columns, strptime)
  {
    readings, errors := [], [];
    for i := 0 to |lines|
      invariant (readings, errors) == ParseLines(lines[..i], sep, columns, strptime)
    {
      assert lines[..i + 1][..i] == lines[..i];
      match ParseLine(lines[i], i + 2, sep, columns, strptime) {
        case Parsed(r) => readings := readings + [r];
        case Failed(e) => errors := errors + [e];
        case Blank =>
      }
    }
    assert lines[..|lines|] == lines;
  }

  /** `parse_file`: the header, then the data lines. */
  method ParseFile(content: string, sep: char, strptime: Strptime)
    returns (readings: seq<Reading>, errors: seq<ParseError>)
    ensures (readings, errors) == ParsedFile(content, sep, strptime)
  {
    var lines := FileLines(content);
    if |lines| < 2 {
      return [], [NoDataRows];
    }
    var columns := BuildColumnMap(Cells(lines[0], sep));
    if Timestamp !in columns.Values {
      return [], [NoTimestampColumn];
    }
    readings, errors := ParseDataLines(lines[1..], sep, columns, strptime);
  }

  // ---------------------------------------------------------------------
  // Skipping readings already stored
  // ---------------------------------------------------------------------

  /** The fields compared with what is stored. */
  const CoreFields: seq<Field> := [Consumption, MeterReading, Volume, PrimaryTempIn, PrimaryTempOut]

  const Tolerance: real := 0.001

  /** Stored field values by timestamp, for one house; an absent field is a stored None. */
  type Stored = map<int, map<Field, real>>

  /** Both values absent, or both present and within the tolerance. */
  predicate FieldMatches(a: map<Field, real>, b: map<Field, real>, f: Field)
  {
    (f !in a && f !in b) || (f in a && f in b && Abs(a[f] - b[f]) <= Tolerance)
  }

  function FieldsMatch(fields: seq<Field>, a: map<Field, real>, b: map<Field, real>): (r: bool)
    ensures r <==> forall k :: 0 <= k < |fields| ==> FieldMatches(a, b, fields[k])
  {
    if fields == [] then true
    else if !FieldMatches(a, b, fields[0]) then false
    else
      assert forall k :: 1 <= k < |fields| ==> fields[1..][k - 1] == fields[k];
      FieldsMatch(fields[1..], a, b)
  }

  /** `_records_match`: every compared field matches. */
  function RecordsMatch(values: map<Field, real>, existing: map<Field, real>): (r: bool)
    ensures r <==> forall f :: f in CoreFields ==> FieldMatches(values, existing, f)
  {
    FieldsMatch(CoreFields, values, existing)
  }

  /** Matching does not depend on which side is the new reading. */
  lemma MatchSymmetric(a: map<Field, real>, b: map<Field, real>)
    ensures RecordsMatch(a, b) == RecordsMatch(b, a)
  {
    assert forall f :: FieldMatches(a, b, f) == FieldMatches(b, a, f);
  }

  /** The compared fields of a reading: what the store gives back for it. */
  function CoreOf(values: map<Field, real>): (stored: map<Field, real>)
    ensures forall f :: f in stored <==> f in values && f in CoreFields
    ensures forall f :: f in stored ==> stored[f] == values[f]
  {
    map f | f in values && f in CoreFields :: values[f]
  }

  /** A reading matches what storing it left in the store. */
  lemma MatchesOwnStore(values: map<Field, real>)
    ensures RecordsMatch(values, CoreOf(values))
  {
  }

  /** A field outside the compared five (power) never decides a match. */
  lemma OtherFieldsIgnored(a: map<Field, real>, b: map<Field, real>, f: Field, x: real)
    requires f !in CoreFields
    ensures RecordsMatch(a[f := x], b) == RecordsMatch(a, b)
  {
    assert forall g :: g in CoreFields ==> FieldMatches(a[f := x], b, g) == FieldMatches(a, b, g);
  }

  /** A reading is skipped when its timestamp is stored with matching values. */
  predicate Unchanged(r: Reading, stored: Stored)
  {
    r.timestamp in stored && RecordsMatch(r.values, stored[r.timestamp])
  }

  /** The readings to write, in order: the new ones and the changed ones. */
  function ToWrite(readings: seq<Reading>, stored: Stored): (w: seq<Reading>)
    ensures |w| <= |readings|
  {
    if readings == [] then []
    else
      var n := |readings| - 1;
      ToWrite(readings[..n], stored) + (if Unchanged(readings[n], stored) then [] else [readings[n]])
  }

  /** Exactly the readings that are new or changed are written. */
  lemma {:induction false} ToWriteMembers(readings: seq<Reading>, stored: Stored)
    ensures forall r :: r in ToWrite(readings, stored) <==> r in readings && !Unchanged(r, stored)
  {
    if readings != [] {
      var n := |readings| - 1;
      ToWriteMembers(readings[..n], stored);
      assert readings == readings[..n] + [readings[n]];
    }
  }

  /** How many readings are skipped: stored with matching values. */
  function Skipped(readings: seq<Reading>, stored: Stored): nat
  {
    if readings == [] then 0
    else Skipped(readings[..|readings| - 1], stored) + (if Unchanged(readings[|readings| - 1], stored) then 1 else 0)
  }

  /** How many readings overwrite a stored timestamp with other values. */
  function Updated(readings: seq<Reading>, stored: Stored): nat
  {
    if readings == [] then 0
    else
      var r := readings[|readings| - 1];
      Updated(readings[..|readings| - 1], stored) + (if r.timestamp in stored && !Unchanged(r, stored) then 1 else 0)
  }

  /** Skipped, updated and new readings account for every reading, and the last two are the ones written. */
  lemma {:induction false} ClassificationCounts(readings: seq<Reading>, stored: Stored)
    ensures Skipped(readings, stored) + |ToWrite(readings, stored)| == |readings|
    ensures Updated(readings, stored) <= |ToWrite(readings, stored)|
  {
    if readings != [] {
      ClassificationCounts(readings[..|readings| - 1], stored);
    }
  }

  /** Importing readings that are all stored with their own values writes nothing. */
  lemma {:induction false} ReimportWritesNothing(readings: seq<Reading>, stored: Stored)
    requires forall r :: r in readings ==> r.timestamp in stored && stored[r.timestamp] == CoreOf(r.values)
    ensures ToWrite(readings, stored) == []
  {
    if readings != [] {
      var n := |readings| - 1;
      assert forall r :: r in readings[..n] ==> r in readings;
      ReimportWritesNothing(readings[..n], stored);
      MatchesOwnStore(readings[n].values);
    }
  }

  // ---------------------------------------------------------------------
  // Writing one meter's readings
  // ---------------------------------------------------------------------

  /** A point of the `energy_meter` measurement. */
  datatype Point = Point(houseId: string, meterId: string, time: int, fields: map<Field, real>)

  datatype ImportError = Parse(error: ParseError) | UnknownMeter(meterId: string)

  /** The house a meter belongs to; an absent or empty mapping means none. */
  function Customer(meterMapping: map<string, string>, meterId: string): (r: Option<string>)
    ensures r.Some? <==> Strip(meterId) in meterMapping && meterMapping[Strip(meterId)] != ""
    ensures r.Some? ==> r.value == meterMapping[Strip(meterId)]
  {
    var key := Strip(meterId);
    if key in meterMapping && meterMapping[key] != "" then Some(meterMapping[key]) else None
  }

  /** The stored readings of a house; a house without any has none. */
  function StoredFor(stored: map<string, Stored>, houseId: string): Stored
  {
    if houseId in stored then stored[houseId] else map[]
  }

  /** The point of a reading: tagged with house and meter, holding its numeric fields. */
  function PointOf(r: Reading, houseId: string, meterId: string): (p: Point)
    ensures p.time == r.timestamp && p.houseId == houseId && p.meterId == meterId
    ensures forall f :: f in p.fields <==> f in r.values && IsNumeric(f)
    ensures forall f :: f in p.fields ==> p.fields[f] == r.values[f]
  {
    Point(houseId, meterId, r.timestamp, map f | f in r.values && IsNumeric(f) :: r.values[f])
  }

  function PointsOf(readings: seq<Reading>, houseId: string, meterId: string): (ps: seq<Point>)
    ensures |ps| == |readings|
    ensures forall i :: 0 <= i < |readings| ==> ps[i] == PointOf(readings[i], houseId, meterId)
  {
    if readings == [] then []
    else PointsOf(readings[..|readings| - 1], houseId, meterId) + [PointOf(readings[|readings| - 1], houseId, meterId)]
  }

  /** What `write_to_influx` does with one meter's readings: the count, the errors and the points written. */
  function WriteOutcome(readings: seq<Reading>, meterId: string, meterMapping: map<string, string>,
                        stored: map<string, Stored>, dryRun: bool): (nat, seq<ImportError>, seq<Point>)
  {
    match Customer(meterMapping, meterId)
    case None => (0, [UnknownMeter(meterId)], [])
    case Some(house) =>
      var w := ToWrite(readings, StoredFor(stored, house));
      (|w|, [], if dryRun then [] else PointsOf(w, house, meterId))
  }

  /**
   * An unknown meter writes nothing and reports one error; a known one
   * reports none, counts each reading that is new or changed, writes a
   * point for each of them unless this is a dry run, and writes none of
   * the readings stored unchanged.
   */
  lemma WriteOutcomeMeaning(readings: seq<Reading>, meterId: string, meterMapping: map<string, string>,
                            stored: map<string, Stored>, dryRun: bool)
    ensures var (written, errors, points) := WriteOutcome(readings, meterId, meterMapping, stored, dryRun);
      && (Customer(meterMapping, meterId).None? ==> written == 0 && errors == [UnknownMeter(meterId)] && points == [])
      && (Customer(meterMapping, meterId).Some? ==>
            var existing := StoredFor(stored, Customer(meterMapping, meterId).value);
            && errors == []
            && written + Skipped(readings, existing) == |readings|
            && (forall p :: p in points ==> exists r :: r in readings && !Unchanged(r, existing) && p.time == r.timestamp))
      && (dryRun ==> points == [])
      && (!dryRun ==> |points| == written)
  {
    match Customer(meterMapping, meterId)
    case None =>
    case Some(house) =>
      var existing := StoredFor(stored, house);
      ClassificationCounts(readings, existing);
      var w := ToWrite(readings, existing);
      if !dryRun {
        PointsOfWritten(readings, existing, house, meterId);
      }
  }

  /** Each point written stands for a reading that is new or changed. */
  lemma PointsOfWritten(readings: seq<Reading>, existing: Stored, house: string, meterId: string)
    ensures forall p :: p in PointsOf(ToWrite(readings, existing), house, meterId) ==>
      exists r :: r in readings && !Unchanged(r, existing) && p.time == r.timestamp
  {
    var w := ToWrite(readings, existing);
    var points := PointsOf(w, house, meterId);
    ToWriteMembers(readings, existing);
    forall p | p in points
      ensures exists r :: r in readings && !Unchanged(r, existing) && p.time == r.timestamp
    {
      var i :| 0 <= i < |points| && points[i] == p;
      assert w[i] in w;
    }
  }

  /**
   * `write_to_influx`: the classification loop over the readings (skipped,
   * updated, new), then the loop building the points; what it does is
   * `WriteOutcome`, whose meaning is stated above.
   */
  method WriteToInflux(readings: seq<Reading>, meterId: string, meterMapping: map<string, string>,
                       stored: map<string, Stored>, dryRun: bool)
    returns (written: nat, errors: seq<ImportError>, points: seq<Point>)
    ensures (written, errors, points) == WriteOutcome(readings, meterId, meterMapping, stored, dryRun)
  {
    var customer := Customer(meterMapping, meterId);
    if customer.None? {
      return 0, [UnknownMeter(meterId)], [];
    }
    var house := customer.value;
    var existing := StoredFor(stored, house);
    var toWrite: seq<Reading> := [];
    var skipped, updated := 0, 0;
    for i := 0 to |readings|
      invariant toWrite == ToWrite(readings[..i], existing)
      invariant skipped == Skipped(readings[..i], existing)
      invariant updated == Updated(readings[..i], existing)
    {
      assert readings[..i + 1][..i] == readings[..i];
      var r := readings[i];
      if r.timestamp in existing {
        if RecordsMatch(r.values, existing[r.timestamp]) {
          skipped := skipped + 1;
        } else {
          toWrite := toWrite + [r];
          updated := updated + 1;
        }
      } else {
        toWrite := toWrite + [r];
      }
    }
    assert readings[..|readings|] == readings;
    if toWrite == [] {
      return 0, [], [];
    }
    if dryRun {
      return |toWrite|, [], [];
    }
    points := [];
    for i := 0 to |toWrite|
      invariant points == PointsOf(toWrite[..i], house, meterId)
    {
      assert toWrite[..i + 1][..i] == toWrite[..i];
      points := points + [PointOf(toWrite[i], house, meterId)];
    }
    assert toWrite[..|toWrite|] == toWrite;
    written, errors := |points|, [];
  }

  // ---------------------------------------------------------------------
  // Processing a file
  // ---------------------------------------------------------------------

  /** `name.replace('.txt', '')`: every occurrence removed, left to right. */
  function RemoveTxt(name: string): (r: string)
    ensures |r| <= |name| && (|name| - |r|) % 4 == 0
    ensures '.' !in name ==> r == name
  {
    if |name| >= 4 && name[..4] == ".txt" then
      assert name[0] == name[..4][0];
      RemoveTxt(name[4..])
    else if name == [] then []
    else
      assert forall c :: c in name[1..] ==> c in name;
      [name[0]] + RemoveTxt(name[1..])
  }

  /** A file named after its meter, `<meter>.txt`, gives that meter as the default. */
  lemma {:induction false} MeterOfFileName(meter: string)
    requires '.' !in meter
    ensures RemoveTxt(meter + ".txt") == meter
  {
    if meter == [] {
      assert ([] + ".txt")[4..] == [];
    } else {
      assert (meter + ".txt")[1..] == meter[1..] + ".txt";
      assert (meter + ".txt")[0] != '.';
      MeterOfFileName(meter[1..]);
    }
  }

  /** The meter a reading is grouped under: its own meter id, else the file's default. */
  function MeterKey(r: Reading, fallback: string): string
  {
    match r.meterId
    case Some(m) => m
    case None => fallback
  }

  /** The meters of the readings, each once, in the order they first appear. */
  function MeterKeys(readings: seq<Reading>, fallback: string): (keys: seq<string>)
    ensures forall i, j :: 0 <= i < j < |keys| ==> keys[i] != keys[j]
    ensures forall k :: k in keys <==> exists r :: r in readings && MeterKey(r, fallback) == k
  {
    if readings == [] then []
    else
      var n := |readings| - 1;
      var keys := MeterKeys(readings[..n], fallback);
      assert readings == readings[..n] + [readings[n]];
      var k := MeterKey(readings[n], fallback);
      if k in keys then keys else keys + [k]
  }

  /** The readings of one meter, in file order. */
  function Group(readings: seq<Reading>, key: string, fallback: string): (g: seq<Reading>)
    ensures |g| <= |readings|
  {
    if readings == [] then []
    else
      var n := |readings| - 1;
      Group(readings[..n], key, fallback) + (if MeterKey(readings[n], fallback) == key then [readings[n]] else [])
  }

  /** A meter's group holds exactly the readings of that meter. */
  lemma {:induction false} GroupMembers(readings: seq<Reading>, key: string, fallback: string)
    ensures forall r :: r in Group(readings, key, fallback) <==> r in readings && MeterKey(r, fallback) == key
  {
    if readings != [] {
      var n := |readings| - 1;
      GroupMembers(readings[..n], key, fallback);
      assert readings == readings[..n] + [readings[n]];
    }
  }

  lemma {:induction false} NoGroupOfNewMeter(readings: seq<Reading>, key: string, fallback: string)
    requires key !in MeterKeys(readings, fallback)
    ensures Group(readings, key, fallback) == []
  {
    if readings != [] {
      var n := |readings| - 1;
      assert MeterKey(readings[n], fallback) != key;
      NoGroupOfNewMeter(readings[..n], key, fallback);
    }
  }

  /** The number of readings in the groups of the given meters. */
  function GroupSizes(keys: seq<string>, readings: seq<Reading>, fallback: string): nat
  {
    if keys == [] then 0
    else GroupSizes(keys[..|keys| - 1], readings, fallback) + |Group(readings, keys[|keys| - 1], fallback)|
  }

  lemma {:induction false} GroupSizesStep(keys: seq<string>, readings: seq<Reading>, x: Reading, fallback: string)
    requires forall i, j :: 0 <= i < j < |keys| ==> keys[i] != keys[j]
    ensures GroupSizes(keys, readings + [x], fallback)
            == GroupSizes(keys, readings, fallback) + (if MeterKey(x, fallback) in keys then 1 else 0)
  {
    if keys != [] {
      var m := |keys| - 1;
      GroupSizesStep(keys[..m], readings, x, fallback);
      assert (readings + [x])[..|readings|] == readings;
      assert keys == keys[..m] + [keys[m]];
    }
  }

  /** Grouping by meter loses and duplicates no reading: the groups hold all readings. */
  lemma {:induction false} GroupingKeepsEveryReading(readings: seq<Reading>, fallback: string)
    ensures GroupSizes(MeterKeys(readings, fallback), readings, fallback) == |readings|
  {
    if readings != [] {
      var n := |readings| - 1;
      var prefix, x := readings[..n], readings[n];
      assert readings == prefix + [x];
      GroupingKeepsEveryReading(prefix, fallback);
      var keys := MeterKeys(prefix, fallback);
      var k := MeterKey(x, fallback);
      GroupSizesStep(keys, prefix, x, fallback);
      if k !in keys {
        NoGroupOfNewMeter(prefix, k, fallback);
        assert (keys + [k])[..|keys|] == keys;
      }
    }
  }

  /** The readings grouped by meter, as the loop of `process_file` builds them. */
  method GroupByMeter(readings: seq<Reading>, fallback: string)
    returns (keys: seq<string>, groups: map<string, seq<Reading>>)
    ensures keys == MeterKeys(readings, fallback)
    ensures forall k :: k in groups <==> k in keys
    ensures forall k :: k in groups ==> groups[k] == Group(readings, k, fallback)
  {
    keys, groups := [], map[];
    for i := 0 to |readings|
      invariant keys == MeterKeys(readings[..i], fallback)
      invariant forall k :: k in groups <==> k in keys
      invariant forall k :: k in groups ==> groups[k] == Group(readings[..i], k, fallback)
    {
      assert readings[..i + 1][..i] == readings[..i];
      var k := MeterKey(readings[i], fallback);
      if k in groups {
        groups := groups[k := groups[k] + [readings[i]]];
      } else {
        NoGroupOfNewMeter(readings[..i], k, fallback);
        keys := keys + [k];
        groups := groups[k := [readings[i]]];
      }
    }
    assert readings[..|readings|] == readings;
  }

  /** The writes of the given meters' groups, one after the other. */
  function WriteAll(keys: seq<string>, readings: seq<Reading>, fallback: string, meterMapping: map<string, string>,
                    stored: map<string, Stored>, dryRun: bool): (nat, seq<ImportError>, seq<Point>)
  {
    if keys == [] then (0, [], [])
    else
      var n := |keys| - 1;
      var before := WriteAll(keys[..n], readings, fallback, meterMapping, stored, dryRun);
      var last := WriteOutcome(Group(readings, keys[n], fallback), keys[n], meterMapping, stored, dryRun);
      (before.0 + last.0, before.1 + last.1, before.2 + last.2)
  }

  /** No more readings are counted as written than the groups hold. */
  lemma {:induction false} WrittenAtMostGrouped(keys: seq<string>, readings: seq<Reading>, fallback: string,
                                                 meterMapping: map<string, string>, stored: map<string, Stored>,
                                                 dryRun: bool)
    ensures WriteAll(keys, readings, fallback, meterMapping, stored, dryRun).0 <= GroupSizes(keys, readings, fallback)
  {
    if keys != [] {
      WrittenAtMostGrouped(keys[..|keys| - 1], readings, fallback, meterMapping, stored, dryRun);
    }
  }

  /** The errors a write reports are exactly the meters without a house, in order. */
  lemma {:induction false} WriteErrorsAreUnknownMeters(keys: seq<string>, readings: seq<Reading>, fallback: string,
                                                        meterMapping: map<string, string>,
                                                        stored: map<string, Stored>, dryRun: bool)
    ensures WriteAll(keys, readings, fallback, meterMapping, stored, dryRun).1 == [] <==>
      forall k :: k in keys ==> Customer(meterMapping, k).Some?
  {
    if keys != [] {
      var n := |keys| - 1;
      WriteErrorsAreUnknownMeters(keys[..n], readings, fallback, meterMapping, stored, dryRun);
      assert keys == keys[..n] + [keys[n]];
    }
  }

  function AsImportErrors(errors: seq<ParseError>): (r: seq<ImportError>)
    ensures |r| == |errors|
    ensures forall i :: 0 <= i < |errors| ==> r[i] == Parse(errors[i])
  {
    seq(|errors|, i requires 0 <= i < |errors| => Parse(errors[i]))
  }

  lemma WriteAllStep(keys: seq<string>, j: nat, readings: seq<Reading>, fallback: string,
                     meterMapping: map<string, string>, stored: map<string, Stored>, dryRun: bool)
    requires j < |keys|
    ensures var before := WriteAll(keys[..j], readings, fallback, meterMapping, stored, dryRun);
      var last := WriteOutcome(Group(readings, keys[j], fallback), keys[j], meterMapping, stored, dryRun);
      WriteAll(keys[..j + 1], readings, fallback, meterMapping, stored, dryRun)
        == (before.0 + last.0, before.1 + last.1, before.2 + last.2)
    ensures GroupSizes(keys[..j + 1], readings, fallback)
            == GroupSizes(keys[..j], readings, fallback) + |Group(readings, keys[j], fallback)|
  {
    assert keys[..j + 1][..j] == keys[..j];
  }

  /** The loop of `process_file` over the meters: each group written in turn. */
  method WriteGroups(keys: seq<string>, groups: map<string, seq<Reading>>, readings: seq<Reading>, fallback: string,
                     meterMapping: map<string, string>, stored: map<string, Stored>, dryRun: bool)
    returns (written: nat, errors: seq<ImportError>, points: seq<Point>, processed: nat)
    requires forall k :: k in keys ==> k in groups && groups[k] == Group(readings, k, fallback)
    ensures (written, errors, points) == WriteAll(keys, readings, fallback, meterMapping, stored, dryRun)
    ensures processed == GroupSizes(keys, readings, fallback)
  {
    written, errors, points, processed := 0, [], [], 0;
    for j := 0 to |keys|
      invariant (written, errors, points) == WriteAll(keys[..j], readings, fallback, meterMapping, stored, dryRun)
      invariant processed == GroupSizes(keys[..j], readings, fallback)
    {
      WriteAllStep(keys, j, readings, fallback, meterMapping, stored, dryRun);
      var meterRecords := groups[keys[j]];
      var count, errs, pts := WriteToInflux(meterRecords, keys[j], meterMapping, stored, dryRun);
      written := written + count;
      processed := processed + |meterRecords|;
      errors := errors + errs;
      points := points + pts;
    }
    assert keys[..|keys|] == keys;
  }

  /**
   * `process_file`: the file's readings are grouped by meter, each group
   * written for its meter's house, and the file is deleted exactly when
   * this is no dry run, it held readings, and neither parsing nor writing
   * reported an error.
   */
  method ProcessFile(content: string, fileName: string, sep: char, strptime: Strptime,
                     meterMapping: map<string, string>, stored: map<string, Stored>, dryRun: bool)
    returns (written: nat, errors: seq<ImportError>, points: seq<Point>, deleted: bool)
    ensures var (readings, parseErrors) := ParsedFile(content, sep, strptime);
      var fallback := RemoveTxt(fileName);
      && (readings == [] ==> written == 0 && errors == AsImportErrors(parseErrors) && points == [])
      && (readings != [] ==>
            var (w, e, p) := WriteAll(MeterKeys(readings, fallback), readings, fallback, meterMapping, stored, dryRun);
            written == w && errors == AsImportErrors(parseErrors) + e && points == p)
      && written <= |readings|
      && (deleted <==> !dryRun && readings != [] && errors == [])
  {
    var readings, parseErrors := ParseFile(content, sep, strptime);
    errors := AsImportErrors(parseErrors);
    if readings == [] {
      return 0, errors, [], false;
    }
    var fallback := RemoveTxt(fileName);
    var keys, groups := GroupByMeter(readings, fallback);
    var writeErrors, processed;
    written, writeErrors, points, processed := WriteGroups(keys, groups, readings, fallback, meterMapping, stored, dryRun);
    errors := errors + writeErrors;
    GroupingKeepsEveryReading(readings, fallback);
    WrittenAtMostGrouped(keys, readings, fallback, meterMapping, stored, dryRun);
    deleted := !dryRun && processed > 0 && |errors| == 0;
  }
}
