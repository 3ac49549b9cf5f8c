/**
 * `convertToCSV` and, as its partner, a reader for the RFC 4180 section 2
 * grammar with LF as the record separator. The round-trip theorem says the
 * reader recovers the header names and the text of every cell.
 */
module Csv {
  import opened Wrappers
  import opened Text
  import opened Json

  /** `s.replace(/"/g, '""')`. */
  function Escape(s: string): string
  {
    if s == [] then [] else (if s[0] == '"' then "\"\"" else [s[0]]) + Escape(s[1..])
  }

  /** A field in double quotes with embedded quotes doubled (RFC 4180 section 2, rules 6-7). */
  function Quote(s: string): string
  {
    "\"" + Escape(s) + "\""
  }

  /** The encoding of one cell: empty for null/undefined, quoted for strings, `String(v)` otherwise. */
  function Cell(v: Value): string
  {
    match v
    case Undef => ""
    case Null => ""
    case Str(s) => Quote(s)
    case _ => ToJsString(v)
  }

  /** The text a reader recovers from a cell. */
  function CellText(v: Value): string
  {
    if v.Undef? || v.Null? then "" else ToJsString(v)
  }

  function Cells(cells: seq<Value>): (r: seq<string>)
    ensures |r| == |cells| && forall i :: 0 <= i < |cells| ==> r[i] == Cell(cells[i])
  {
    seq(|cells|, i requires 0 <= i < |cells| => Cell(cells[i]))
  }

  /** One line: the cells joined by commas. */
  function EncodeRecord(cells: seq<Value>): string
  {
    Join(",", Cells(cells))
  }

  /** `headers || Object.keys(data[0])`; an empty header array is truthy and is kept. */
  function Columns(data: seq<Obj>, headers: Option<seq<string>>): seq<string>
    requires data != []
  {
    match headers
    case Some(h) => h
    case None => Keys(data[0])
  }

  /** Header cells are the column names as strings. */
  function HeaderCells(cols: seq<string>): (r: seq<Value>)
    ensures |r| == |cols| && forall i :: 0 <= i < |cols| ==> r[i] == Str(cols[i])
  {
    seq(|cols|, i requires 0 <= i < |cols| => Str(cols[i]))
  }

  /** `cols.map(col => row[col])`: an absent column reads as `undefined`. */
  function RowCells(row: Obj, cols: seq<string>): (r: seq<Value>)
    ensures |r| == |cols| && forall i :: 0 <= i < |cols| ==> r[i] == Lookup(row, cols[i])
  {
    seq(|cols|, i requires 0 <= i < |cols| => Lookup(row, cols[i]))
  }

  function DataLines(data: seq<Obj>, cols: seq<string>): (r: seq<string>)
    ensures |r| == |data| && forall i :: 0 <= i < |data| ==> r[i] == EncodeRecord(RowCells(data[i], cols))
  {
    seq(|data|, i requires 0 <= i < |data| => EncodeRecord(RowCells(data[i], cols)))
  }

  /** `convertToCSV(data, headers)`. */
  function ConvertToCsv(data: seq<Obj>, headers: Option<seq<string>>): (r: string)
    ensures data == [] <==> r == ""
  {
    if data == [] then ""
    else
      var cols := Columns(data, headers);
      EncodeRecord(HeaderCells(cols)) + "\n" + Join("\n", DataLines(data, cols))
  }

  // ---- the reader --------------------------------------------------------

  /** An unquoted field: everything up to the next ',' or LF. */
  function ReadBare(t: string): (r: (string, string))
    ensures r.0 + r.1 == t
    ensures ',' !in r.0 && '\n' !in r.0
    ensures r.1 == [] || r.1[0] == ',' || r.1[0] == '\n'
  {
    if t == [] || t[0] == ',' || t[0] == '\n' then ([], t)
    else var (f, rest) := ReadBare(t[1..]); ([t[0]] + f, rest)
  }

  /** The rest of a quoted field, after its opening quote; `None` if unterminated. */
  function ReadQuoted(t: string): (r: Option<(string, string)>)
    ensures r.Some? ==> |r.value.1| < |t|
  {
    if t == [] then None
    else if t[0] == '"' then
      if |t| >= 2 && t[1] == '"' then
        match ReadQuoted(t[2..])
        case None => None
        case Some((f, rest)) => Some(("\"" + f, rest))
      else Some(([], t[1..]))
    else
      match ReadQuoted(t[1..])
      case None => None
      case Some((f, rest)) => Some(([t[0]] + f, rest))
  }

  function ReadField(t: string): (r: Option<(string, string)>)
    ensures r.Some? ==> |r.value.1| <= |t|
  {
    if t != [] && t[0] == '"' then ReadQuoted(t[1..]) else Some(ReadBare(t))
  }

  /** The fields of one record, and the text after it. */
  function ReadRecord(t: string): (r: Option<(seq<string>, string)>)
    ensures r.Some? ==> |r.value.0| >= 1 && |r.value.1| <= |t|
    decreases |t|
  {
    match ReadField(t)
    case None => None
    case Some((f, rest)) =>
      if rest != [] && rest[0] == ',' then
        match ReadRecord(rest[1..])
        case None => None
        case Some((fs, rest')) => Some(([f] + fs, rest'))
      else Some(([f], rest))
  }

  /** All records of a text; `None` for text outside the grammar. */
  function ParseCsv(t: string): Option<seq<seq<string>>>
    decreases |t|
  {
    match ReadRecord(t)
    case None => None
    case Some((fs, rest)) =>
      if rest == [] then Some([fs])
      else if rest[0] == '\n' then
        match ParseCsv(rest[1..])
        case None => None
        case Some(more) => Some([fs] + more)
      else None
  }

  // ---- round trip ----------------------------------------------------------

  lemma {:induction false} ReadEscaped(s: string, rest: string)
    requires rest == [] || rest[0] != '"'
    ensures ReadQuoted(Escape(s) + "\"" + rest) == Some((s, rest))
  {
    var t := Escape(s) + "\"" + rest;
    if s == [] {
      assert t == "\"" + rest;
      assert t[1..] == rest;
    } else if s[0] == '"' {
      assert t == "\"\"" + (Escape(s[1..]) + "\"" + rest);
      ReadEscaped(s[1..], rest);
      assert t[2..] == Escape(s[1..]) + "\"" + rest;
      assert "\"" + s[1..] == s;
    } else {
      assert t == [s[0]] + (Escape(s[1..]) + "\"" + rest);
      ReadEscaped(s[1..], rest);
      assert t[1..] == Escape(s[1..]) + "\"" + rest;
      assert [s[0]] + s[1..] == s;
    }
  }

  lemma {:induction false} ReadPlain(s: string, rest: string)
    requires ',' !in s && '\n' !in s
    requires rest == [] || rest[0] == ',' || rest[0] == '\n'
    ensures ReadBare(s + rest) == (s, rest)
  {
    if s == [] {
      assert s + rest == rest;
    } else {
      var t := s + rest;
      assert t[0] == s[0] && t[0] != ',' && t[0] != '\n';
      assert t[1..] == s[1..] + rest;
      ReadPlain(s[1..], rest);
      assert ReadBare(t) == ([s[0]] + s[1..], rest);
      assert [s[0]] + s[1..] == s;
    }
  }

  lemma ReadCell(v: Value, rest: string)
    requires rest == [] || rest[0] == ',' || rest[0] == '\n'
    ensures ReadField(Cell(v) + rest) == Some((CellText(v), rest))
  {
    match v
    case Undef => ReadEmptyCell(rest);
    case Null => ReadEmptyCell(rest);
    case Str(s) => ReadStringCell(s, rest);
    case Bool(b) => ReadPlain(if b then "true" else "false", rest);
    case Num(n) => ReadNumberCell(n, rest);
  }

  lemma ReadEmptyCell(rest: string)
    requires rest == [] || rest[0] == ',' || rest[0] == '\n'
    ensures ReadField(rest) == Some(("", rest))
  {
  }

  lemma ReadStringCell(s: string, rest: string)
    requires rest == [] || rest[0] == ',' || rest[0] == '\n'
    ensures ReadField(Quote(s) + rest) == Some((s, rest))
  {
    var t := Quote(s) + rest;
    assert t[0] == '"';
    assert t[1..] == Escape(s) + "\"" + rest;
    ReadEscaped(s, rest);
  }

  lemma ReadNumberCell(n: int, rest: string)
    requires rest == [] || rest[0] == ',' || rest[0] == '\n'
    ensures ReadField(IntToString(n) + rest) == Some((IntToString(n), rest))
  {
    var d := IntToString(n);
    assert forall i :: 0 <= i < |d| ==> d[i] != ',' && d[i] != '\n' && d[i] != '"';
    assert (d + rest)[0] == d[0];
    ReadPlain(d, rest);
  }

  lemma {:induction false} ReadEncodedRecord(cells: seq<Value>, rest: string)
    requires |cells| >= 1
    requires rest == [] || rest[0] == '\n'
    ensures ReadRecord(EncodeRecord(cells) + rest) == Some((Texts(cells), rest))
  {
    if |cells| == 1 {
      ReadLastCell(cells, rest);
    } else {
      ReadEncodedRecord(cells[1..], rest);
      ReadNextCell(cells, rest);
    }
  }

  /** A record of two or more cells reads as its first cell's text before the rest of the record. */
  lemma ReadNextCell(cells: seq<Value>, rest: string)
    requires |cells| >= 2
    requires ReadRecord(EncodeRecord(cells[1..]) + rest) == Some((Texts(cells[1..]), rest))
    ensures ReadRecord(EncodeRecord(cells) + rest) == Some((Texts(cells), rest))
  {
    EncodeRecordCons(cells, rest);
    ReadRecordStep(cells[0], EncodeRecord(cells[1..]) + rest);
    TextsCons(cells);
  }

  lemma TextsCons(cells: seq<Value>)
    requires |cells| >= 1
    ensures Texts(cells) == [CellText(cells[0])] + Texts(cells[1..])
  {
    assert Texts(cells)[1..] == Texts(cells[1..]);
  }

  lemma ReadLastCell(cells: seq<Value>, rest: string)
    requires |cells| == 1
    requires rest == [] || rest[0] == '\n'
    ensures ReadRecord(EncodeRecord(cells) + rest) == Some((Texts(cells), rest))
  {
    assert Cells(cells) == [Cell(cells[0])];
    assert EncodeRecord(cells) == Cell(cells[0]);
    ReadCell(cells[0], rest);
    assert Texts(cells) == [CellText(cells[0])];
  }

  lemma EncodeRecordCons(cells: seq<Value>, rest: string)
    requires |cells| >= 2
    ensures EncodeRecord(cells) + rest == Cell(cells[0]) + "," + (EncodeRecord(cells[1..]) + rest)
  {
    assert Cells(cells)[1..] == Cells(cells[1..]);
    assert EncodeRecord(cells) == Cell(cells[0]) + "," + EncodeRecord(cells[1..]);
  }

  lemma ReadRecordStep(c: Value, tail: string)
    ensures ReadRecord(Cell(c) + "," + tail) ==
      match ReadRecord(tail)
      case None => None
      case Some((fs, r)) => Some(([CellText(c)] + fs, r))
  {
    assert Cell(c) + "," + tail == Cell(c) + ("," + tail);
    ReadCell(c, "," + tail);
    assert ("," + tail)[1..] == tail;
  }

  function Texts(cells: seq<Value>): (r: seq<string>)
    ensures |r| == |cells| && forall i :: 0 <= i < |cells| ==> r[i] == CellText(cells[i])
  {
    seq(|cells|, i requires 0 <= i < |cells| => CellText(cells[i]))
  }

  function EncodeAll(records: seq<seq<Value>>): (r: seq<string>)
    ensures |r| == |records| && forall i :: 0 <= i < |records| ==> r[i] == EncodeRecord(records[i])
  {
    seq(|records|, i requires 0 <= i < |records| => EncodeRecord(records[i]))
  }

  function TextsAll(records: seq<seq<Value>>): (r: seq<seq<string>>)
    ensures |r| == |records| && forall i :: 0 <= i < |records| ==> r[i] == Texts(records[i])
  {
    seq(|records|, i requires 0 <= i < |records| => Texts(records[i]))
  }

  lemma {:induction false} ReadEncodedLines(records: seq<seq<Value>>)
    requires |records| >= 1
    requires forall i :: 0 <= i < |records| ==> |records[i]| >= 1
    ensures ParseCsv(Join("\n", EncodeAll(records))) == Some(TextsAll(records))
  {
    if |records| == 1 {
      assert EncodeAll(records) == [EncodeRecord(records[0])];
      assert Join("\n", EncodeAll(records)) == EncodeRecord(records[0]) + "";
      ReadEncodedRecord(records[0], "");
      assert TextsAll(records) == [Texts(records[0])];
    } else {
      var tail := Join("\n", EncodeAll(records[1..]));
      JoinEncodeAllCons(records);
      ReadEncodedRecord(records[0], "\n" + tail);
      assert ("\n" + tail)[1..] == tail;
      ReadEncodedLines(records[1..]);
      TextsAllCons(records);
    }
  }

  lemma JoinEncodeAllCons(records: seq<seq<Value>>)
    requires |records| >= 2
    ensures Join("\n", EncodeAll(records)) == EncodeRecord(records[0]) + ("\n" + Join("\n", EncodeAll(records[1..])))
  {
    assert EncodeAll(records)[1..] == EncodeAll(records[1..]);
  }

  lemma TextsAllCons(records: seq<seq<Value>>)
    requires |records| >= 1
    ensures TextsAll(records) == [Texts(records[0])] + TextsAll(records[1..])
  {
    assert TextsAll(records)[1..] == TextsAll(records[1..]);
  }

  /** The header record followed by one record per row. */
  function Records(data: seq<Obj>, cols: seq<string>): (r: seq<seq<Value>>)
    ensures |r| == |data| + 1
  {
    [HeaderCells(cols)] + seq(|data|, i requires 0 <= i < |data| => RowCells(data[i], cols))
  }

  /**
   * Round trip: reading the CSV text back yields the column names, then for
   * every row one field per column holding that cell's text ('' for a
   * missing or null value).
   */
  lemma CsvRoundTrip(data: seq<Obj>, headers: Option<seq<string>>)
    requires data != []
    requires |Columns(data, headers)| >= 1
    ensures var cols := Columns(data, headers);
      ParseCsv(ConvertToCsv(data, headers)) == Some([cols] +
        seq(|data|, i requires 0 <= i < |data| =>
          seq(|cols|, j requires 0 <= j < |cols| => CellText(Lookup(data[i], cols[j])))))
  {
    var cols := Columns(data, headers);
    var recs := Records(data, cols);
    ConvertIsJoin(data, headers);
    RecordWidths(data, cols);
    ReadEncodedLines(recs);
    RecordTexts(data, cols);
  }

  /** The CSV text is the records' encodings joined by LF. */
  lemma ConvertIsJoin(data: seq<Obj>, headers: Option<seq<string>>)
    requires data != []
    ensures ConvertToCsv(data, headers) == Join("\n", EncodeAll(Records(data, Columns(data, headers))))
  {
    var cols := Columns(data, headers);
    var recs := Records(data, cols);
    var lines := EncodeAll(recs);
    forall i | 0 <= i < |data| ensures lines[1..][i] == DataLines(data, cols)[i] {
      assert recs[i + 1] == RowCells(data[i], cols);
    }
    assert lines[1..] == DataLines(data, cols);
    assert lines[0] == EncodeRecord(HeaderCells(cols));
    assert Join("\n", lines) == lines[0] + "\n" + Join("\n", lines[1..]);
  }

  lemma RecordWidths(data: seq<Obj>, cols: seq<string>)
    ensures forall i :: 0 <= i < |Records(data, cols)| ==> |Records(data, cols)[i]| == |cols|
  {
  }

  /** The texts of the records: the column names, then each row's cell texts in column order. */
  lemma RecordTexts(data: seq<Obj>, cols: seq<string>)
    ensures TextsAll(Records(data, cols)) == [cols] +
        seq(|data|, i requires 0 <= i < |data| =>
          seq(|cols|, j requires 0 <= j < |cols| => CellText(Lookup(data[i], cols[j]))))
  {
    var recs := Records(data, cols);
    assert Texts(HeaderCells(cols)) == cols;
    var expected := [cols] +
        seq(|data|, i requires 0 <= i < |data| =>
          seq(|cols|, j requires 0 <= j < |cols| => CellText(Lookup(data[i], cols[j]))));
    forall i | 1 <= i < |recs| ensures TextsAll(recs)[i] == expected[i] {
      assert recs[i] == RowCells(data[i - 1], cols);
    }
    assert TextsAll(recs) == expected;
  }

  /** Rows written as object literals over the same distinct columns. */
  function Table(cols: seq<string>, rows: seq<seq<Value>>): (data: seq<Obj>)
    requires forall i :: 0 <= i < |rows| ==> |rows[i]| == |cols|
    ensures |data| == |rows| && forall i :: 0 <= i < |rows| ==> data[i] == Zip(cols, rows[i])
  {
    seq(|rows|, i requires 0 <= i < |rows| => Zip(cols, rows[i]))
  }

  /**
   * For a table of object literals the header line is the column list and
   * every record reads back as the texts of that row's values, in column order.
   */
  lemma TableRoundTrip(cols: seq<string>, rows: seq<seq<Value>>)
    requires rows != [] && |cols| >= 1 && Distinct(cols)
    requires forall i :: 0 <= i < |rows| ==> |rows[i]| == |cols|
    ensures ParseCsv(ConvertToCsv(Table(cols, rows), None)) == Some([cols] + TextsAll(rows))
  {
    var data := Table(cols, rows);
    ZipKeys(cols, rows[0]);
    assert Columns(data, None) == cols;
    CsvRoundTrip(data, None);
    forall i, j | 0 <= i < |rows| && 0 <= j < |cols|
      ensures CellText(Lookup(data[i], cols[j])) == CellText(rows[i][j])
    {
      LookupZip(cols, rows[i], j);
    }
    var got := seq(|data|, i requires 0 <= i < |data| =>
      seq(|cols|, j requires 0 <= j < |cols| => CellText(Lookup(data[i], cols[j]))));
    forall i | 0 <= i < |rows| ensures got[i] == TextsAll(rows)[i] {
    }
    assert got == TextsAll(rows);
  }
}
