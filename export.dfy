/**
 * The CSV branch of the export endpoint. Every data field is quoted with
 * embedded quotes doubled (section 2, rules 6 and 7 of RFC 4180); the
 * header line is not quoted; lines are joined with "\n", not the CRLF the
 * RFC asks for. A reader for that format is defined alongside, and the
 * export is proved to read back as the header and the records' field texts.
 */
module Export {
  import opened Wrappers
  import opened Strings

  /** A column value as the database returns it: null, text, or a (whole, non-negative) number. */
  datatype FieldValue = Null | Text(text: string) | Number(n: nat)

  /** A row of `select('*')`: column name to value; a column that is absent reads as undefined. */
  type ExportRecord = map<string, FieldValue>

  const Headers: seq<string> := ["id", "record_date", "sleep_time", "reason_text", "mood_score", "created_at"]
  const Quote: char := '"'
  const FieldSeparator: string := ","
  const LineSeparator: string := "\n"

  /** `val == null ? '' : String(val)`. */
  function FieldText(v: FieldValue): (r: string)
    ensures v.Null? ==> r == []
    ensures v.Number? ==> r != [] && AllDigits(r) && DigitsValue(r) == v.n
  {
    match v
    case Null => ""
    case Text(s) => s
    case Number(n) => DigitsValueOfNatToString(n); NatToString(n)
  }

  /** The number of double quotes in `s`. */
  function QuoteCount(s: string): nat {
    if s == [] then 0 else (if s[0] == Quote then 1 else 0) + QuoteCount(s[1..])
  }

  /** `s.replace(/"/g, '""')`. */
  function DoubleQuotes(s: string): (r: string)
    ensures |r| == |s| + QuoteCount(s)
  {
    if s == [] then [] else (if s[0] == Quote then [Quote, Quote] else [s[0]]) + DoubleQuotes(s[1..])
  }

  /** One escaped field: the value's text with quotes doubled, between two quotes. */
  function EscapeField(v: FieldValue): (f: string)
    ensures |f| == |FieldText(v)| + 2 + QuoteCount(FieldText(v))
    ensures f[0] == Quote && f[|f| - 1] == Quote
  {
    [Quote] + DoubleQuotes(FieldText(v)) + [Quote]
  }

  /** `r[h]`, with an absent column read as null. */
  function Lookup(r: ExportRecord, h: string): (v: FieldValue)
    ensures v.Null? <==> h !in r || r[h].Null?
    ensures !v.Null? ==> h in r && r[h] == v
  {
    if h in r then r[h] else Null
  }

  /** The header line: the six column names in order, joined by commas, without quotes. */
  function HeaderLine(): (r: string)
    ensures r == "id" + "," + "record_date" + "," + "sleep_time" + "," + "reason_text" + "," + "mood_score" + "," + "created_at"
  {
    JoinSix("id", "record_date", "sleep_time", "reason_text", "mood_score", "created_at", FieldSeparator);
    Join(Headers, FieldSeparator)
  }

  /** The escaped fields of a record, in header order. */
  function RowCells(r: ExportRecord): (cells: seq<string>)
    ensures |cells| == |Headers|
    ensures forall i :: 0 <= i < |cells| ==> 2 <= |cells[i]| && cells[i][0] == Quote && cells[i][|cells[i]| - 1] == Quote
  {
    seq(|Headers|, i requires 0 <= i < |Headers| => EscapeField(Lookup(r, Headers[i])))
  }

  /** The values a reader should recover from a record's row. */
  function RowTexts(r: ExportRecord): seq<string> {
    seq(|Headers|, i requires 0 <= i < |Headers| => FieldText(Lookup(r, Headers[i])))
  }

  /** One record's line: its escaped fields, comma-separated; the line reads back as its field texts. */
  function CsvRow(r: ExportRecord): (line: string)
    ensures ReadRecord(line) == Some((RowTexts(r), []))
  {
    RowCellsEncode(r);
    ReadRecordRoundTrip(RowCells(r), RowTexts(r), []);
    assert Join(RowCells(r), FieldSeparator) + [] == Join(RowCells(r), FieldSeparator);
    Join(RowCells(r), FieldSeparator)
  }

  /** `[headers.join(','), ...rows].join('\n')`, the records in query order. */
  function Csv(records: seq<ExportRecord>): (r: string)
    ensures |HeaderLine()| <= |r| && r[..|HeaderLine()|] == HeaderLine()
    ensures records == [] ==> r == HeaderLine()
  {
    Join([HeaderLine()] + seq(|records|, i requires 0 <= i < |records| => CsvRow(records[i])), LineSeparator)
  }

  datatype ExportResponse = CsvFile(body: string) | JsonBody(records: seq<ExportRecord>)

  /** `format` defaults to JSON (also for an empty parameter); only "csv" builds the CSV. */
  function ExportBody(format: Option<string>, records: seq<ExportRecord>): (r: ExportResponse)
    ensures r.CsvFile? <==> format == Some("csv")
    ensures r.CsvFile? ==> r.body == Csv(records)
    ensures r.JsonBody? ==> r.records == records
  {
    var f := if format.None? || format.value == "" then "json" else format.value;
    if f == "csv" then CsvFile(Csv(records)) else JsonBody(records)
  }

  // ---------------------------------------------------------------------
  // Reading the CSV back

  /**
   * The inside of a quoted field, after its opening quote: `""` reads as
   * one quote, a lone quote closes the field. Gives the value and what
   * follows the closing quote; `None` if the field is never closed.
   */
  function ReadQuoted(s: string): (r: Option<(string, string)>)
    ensures r.Some? ==> |r.value.1| < |s|
    decreases |s|
  {
    if s == [] then None
    else if s[0] == Quote && (|s| < 2 || s[1] != Quote) then Some(([], s[1..]))
    else
      var skip := if s[0] == Quote then 2 else 1;
      var tail := ReadQuoted(s[skip..]);
      if tail.None? then None else Some(([s[0]] + tail.value.0, tail.value.1))
  }

  /** An unquoted field runs up to the next comma, line feed or the end. */
  function ReadUnquoted(s: string): (r: (string, string))
    ensures |r.1| <= |s|
    decreases |s|
  {
    if s == [] || s[0] == ',' || s[0] == '\n' then ([], s)
    else
      var (v, rest) := ReadUnquoted(s[1..]);
      ([s[0]] + v, rest)
  }

  function ReadField(s: string): (r: Option<(string, string)>)
    ensures r.Some? ==> |r.value.1| <= |s|
  {
    if s != [] && s[0] == Quote then ReadQuoted(s[1..]) else Some(ReadUnquoted(s))
  }

  /** Fields separated by commas, up to a line feed or the end. */
  function ReadRecord(s: string): (r: Option<(seq<string>, string)>)
    ensures r.Some? ==> |r.value.1| <= |s|
    decreases |s|
  {
    match ReadField(s)
    case None => None
    case Some((f, rest)) =>
      if rest != [] && rest[0] == ',' then
        match ReadRecord(rest[1..])
        case Some((fs, rest')) => Some(([f] + fs, rest'))
        case None => None
      else Some(([f], rest))
  }

  /** Records separated by line feeds; `None` for text that is not CSV. */
  function ReadCsv(s: string): Option<seq<seq<string>>>
    decreases |s|
  {
    match ReadRecord(s)
    case None => None
    case Some((fields, rest)) =>
      if rest == [] then Some([fields])
      else if rest[0] == '\n' then
        match ReadCsv(rest[1..])
        case Some(records) => Some([fields] + records)
        case None => None
      else None
  }

  /** Dropping the outer quotes of one field and collapsing `""` to `"`. */
  function DecodeField(f: string): Option<string> {
    if f != [] && f[0] == Quote then
      match ReadQuoted(f[1..])
      case Some((v, rest)) => if rest == [] then Some(v) else None
      case None => None
    else None
  }

  // ---------------------------------------------------------------------
  // Round trips

  /** Text safe to write without quotes. */
  predicate Plain(v: string) {
    forall i :: 0 <= i < |v| ==> v[i] != ',' && v[i] != '\n' && v[i] != Quote
  }

  /** `cell` is how a field holding `v` is written: quoted and escaped, or plain as it is. */
  predicate Encodes(cell: string, v: string) {
    cell == [Quote] + DoubleQuotes(v) + [Quote] || (cell == v && Plain(v))
  }

  /** What may follow a field: nothing, a comma or a line feed. */
  predicate FieldEnd(rest: string) {
    rest == [] || rest[0] == ',' || rest[0] == '\n'
  }

  lemma ReadQuotedPlainStep(c: char, t: string, v: string, rest: string)
    requires c != Quote && ReadQuoted(t) == Some((v, rest))
    ensures ReadQuoted([c] + t) == Some(([c] + v, rest))
  {
    assert ([c] + t)[1..] == t;
  }

  lemma ReadQuotedDoubledStep(t: string, v: string, rest: string)
    requires ReadQuoted(t) == Some((v, rest))
    ensures ReadQuoted([Quote, Quote] + t) == Some(([Quote] + v, rest))
  {
    assert ([Quote, Quote] + t)[2..] == t;
  }

  lemma EscapedStep(v: string, rest: string)
    requires v != []
    ensures DoubleQuotes(v) + [Quote] + rest
         == (if v[0] == Quote then [Quote, Quote] else [v[0]]) + (DoubleQuotes(v[1..]) + [Quote] + rest)
  {
  }

  lemma ReadQuotedEscapedStep(v: string, rest: string)
    requires v != [] && ReadQuoted(DoubleQuotes(v[1..]) + [Quote] + rest) == Some((v[1..], rest))
    ensures ReadQuoted(DoubleQuotes(v) + [Quote] + rest) == Some((v, rest))
  {
    var t := DoubleQuotes(v[1..]) + [Quote] + rest;
    EscapedStep(v, rest);
    if v[0] == Quote {
      ReadQuotedDoubledStep(t, v[1..], rest);
    } else {
      ReadQuotedPlainStep(v[0], t, v[1..], rest);
    }
    assert [v[0]] + v[1..] == v;
  }

  /** Reading the inside of an escaped field, closed by a quote, gives back the value and what follows. */
  lemma {:induction false} ReadQuotedRoundTrip(v: string, rest: string)
    requires rest == [] || rest[0] != Quote
    ensures ReadQuoted(DoubleQuotes(v) + [Quote] + rest) == Some((v, rest))
    decreases |v|
  {
    if v == [] {
      var s := DoubleQuotes(v) + [Quote] + rest;
      assert s == [Quote] + rest;
      assert s[1..] == rest;
    } else {
      ReadQuotedRoundTrip(v[1..], rest);
      ReadQuotedEscapedStep(v, rest);
    }
  }

  /** Decoding an escaped field recovers the value's text, commas, quotes and line feeds included. */
  lemma DecodeEscapeRoundTrip(v: FieldValue)
    ensures DecodeField(EscapeField(v)) == Some(FieldText(v))
  {
    DecodeQuoted(FieldText(v));
  }

  /** A text with its quotes doubled, between two quotes, decodes to that text. */
  lemma DecodeQuoted(t: string)
    ensures DecodeField([Quote] + DoubleQuotes(t) + [Quote]) == Some(t)
  {
    var f := [Quote] + DoubleQuotes(t) + [Quote];
    assert f[1..] == DoubleQuotes(t) + [Quote] + [];
    ReadQuotedRoundTrip(t, []);
  }

  lemma {:induction false} ReadUnquotedRoundTrip(v: string, rest: string)
    requires Plain(v) && FieldEnd(rest)
    ensures ReadUnquoted(v + rest) == (v, rest)
    decreases |v|
  {
    if v == [] {
      assert v + rest == rest;
    } else {
      assert (v + rest)[1..] == v[1..] + rest;
      ReadUnquotedRoundTrip(v[1..], rest);
      assert [v[0]] + v[1..] == v;
    }
  }

  lemma ReadFieldRoundTrip(cell: string, v: string, rest: string)
    requires Encodes(cell, v) && FieldEnd(rest)
    ensures ReadField(cell + rest) == Some((v, rest))
  {
    if cell == [Quote] + DoubleQuotes(v) + [Quote] {
      assert (cell + rest)[1..] == DoubleQuotes(v) + [Quote] + rest;
      ReadQuotedRoundTrip(v, rest);
    } else {
      ReadUnquotedRoundTrip(v, rest);
      if v != [] {
        assert (cell + rest)[0] == v[0];
      }
    }
  }

  /** A line's cells encode a row of values one to one, and the line is not empty. */
  predicate EncodesRow(cells: seq<string>, vs: seq<string>) {
    |cells| == |vs| >= 1 && forall i :: 0 <= i < |cells| ==> Encodes(cells[i], vs[i])
  }

  /** Every line of cells encodes the matching row of the table. */
  predicate EncodesTable(lines: seq<seq<string>>, table: seq<seq<string>>) {
    |lines| == |table| >= 1 && forall k :: 0 <= k < |lines| ==> EncodesRow(lines[k], table[k])
  }

  /** Each line's cells joined by commas. */
  function JoinLines(lines: seq<seq<string>>): (r: seq<string>)
    ensures |r| == |lines|
  {
    if lines == [] then [] else [Join(lines[0], FieldSeparator)] + JoinLines(lines[1..])
  }

  lemma {:induction false} JoinLinesAt(lines: seq<seq<string>>, k: nat)
    requires k < |lines|
    ensures JoinLines(lines)[k] == Join(lines[k], FieldSeparator)
    decreases k
  {
    if k > 0 {
      JoinLinesAt(lines[1..], k - 1);
    }
  }

  /** Dropping the first cell and the first value keeps a longer row encoded. */
  lemma EncodesRowTail(cells: seq<string>, vs: seq<string>)
    requires EncodesRow(cells, vs) && |cells| > 1
    ensures EncodesRow(cells[1..], vs[1..])
  {
    forall i | 0 <= i < |cells| - 1
      ensures Encodes(cells[1..][i], vs[1..][i])
    {
      assert Encodes(cells[i + 1], vs[i + 1]);
    }
  }

  /** A line of encoded cells reads back as their values. */
  lemma {:induction false} ReadRecordRoundTrip(cells: seq<string>, vs: seq<string>, rest: string)
    requires EncodesRow(cells, vs)
    requires rest == [] || rest[0] == '\n'
    ensures ReadRecord(Join(cells, FieldSeparator) + rest) == Some((vs, rest))
    decreases |cells|
  {
    if |cells| == 1 {
      ReadFieldRoundTrip(cells[0], vs[0], rest);
      assert [vs[0]] == vs;
    } else {
      var tail := Join(cells[1..], FieldSeparator) + rest;
      assert Join(cells, FieldSeparator) + rest == cells[0] + ("," + tail);
      ReadFieldRoundTrip(cells[0], vs[0], "," + tail);
      assert ("," + tail)[1..] == tail;
      EncodesRowTail(cells, vs);
      ReadRecordRoundTrip(cells[1..], vs[1..], rest);
      assert [vs[0]] + vs[1..] == vs;
    }
  }

  /** Lines of encoded cells, joined by line feeds, read back as the table of their values. */
  lemma {:induction false} ReadCsvRoundTrip(lines: seq<seq<string>>, table: seq<seq<string>>)
    requires EncodesTable(lines, table)
    ensures ReadCsv(Join(JoinLines(lines), LineSeparator)) == Some(table)
    decreases |lines|
  {
    var joined := JoinLines(lines);
    assert EncodesRow(lines[0], table[0]);
    if |lines| == 1 {
      assert Join(joined, LineSeparator) == Join(lines[0], FieldSeparator) + [];
      ReadRecordRoundTrip(lines[0], table[0], []);
      assert [table[0]] == table;
    } else {
      assert joined[1..] == JoinLines(lines[1..]);
      var tail := Join(JoinLines(lines[1..]), LineSeparator);
      assert Join(joined, LineSeparator) == Join(lines[0], FieldSeparator) + ("\n" + tail);
      ReadRecordRoundTrip(lines[0], table[0], "\n" + tail);
      assert ("\n" + tail)[1..] == tail;
      assert EncodesTable(lines[1..], table[1..]) by {
        forall k | 0 <= k < |lines| - 1
          ensures EncodesRow(lines[1..][k], table[1..][k])
        {
          assert EncodesRow(lines[k + 1], table[k + 1]);
        }
      }
      ReadCsvRoundTrip(lines[1..], table[1..]);
      assert [table[0]] + table[1..] == table;
    }
  }

  lemma HeadersArePlain()
    ensures forall i :: 0 <= i < |Headers| ==> Plain(Headers[i])
  {
    assert Plain("id");
    assert Plain("record_date");
    assert Plain("sleep_time");
    assert Plain("reason_text");
    assert Plain("mood_score");
    assert Plain("created_at");
  }

  lemma RowCellsEncode(r: ExportRecord)
    ensures EncodesRow(RowCells(r), RowTexts(r))
  {
    assert |RowCells(r)| == |RowTexts(r)| == |Headers|;
  }

  /** The cells of the export: the header, then each record's escaped fields. */
  function CsvCells(records: seq<ExportRecord>): (c: seq<seq<string>>)
    ensures |c| == |records| + 1
  {
    [Headers] + seq(|records|, i requires 0 <= i < |records| => RowCells(records[i]))
  }

  /** The values the export carries: the column names, then each record's field texts. */
  function CsvTable(records: seq<ExportRecord>): (t: seq<seq<string>>)
    ensures |t| == |records| + 1
  {
    [Headers] + seq(|records|, i requires 0 <= i < |records| => RowTexts(records[i]))
  }

  lemma CsvCellsEncodeTable(records: seq<ExportRecord>)
    ensures EncodesTable(CsvCells(records), CsvTable(records))
  {
    HeadersArePlain();
    forall k | 0 <= k < |records| + 1
      ensures EncodesRow(CsvCells(records)[k], CsvTable(records)[k])
    {
      if k > 0 {
        RowCellsEncode(records[k - 1]);
      }
    }
  }

  lemma JoinLinesPrepend(first: seq<string>, rest: seq<seq<string>>)
    ensures JoinLines([first] + rest) == [Join(first, FieldSeparator)] + JoinLines(rest)
  {
    assert ([first] + rest)[1..] == rest;
  }

  lemma JoinRowCells(records: seq<ExportRecord>)
    ensures JoinLines(seq(|records|, i requires 0 <= i < |records| => RowCells(records[i])))
         == seq(|records|, i requires 0 <= i < |records| => CsvRow(records[i]))
  {
    var cells := seq(|records|, i requires 0 <= i < |records| => RowCells(records[i]));
    forall k | 0 <= k < |records|
      ensures JoinLines(cells)[k] == CsvRow(records[k])
    {
      JoinLinesAt(cells, k);
    }
  }

  lemma CsvLinesJoinCells(records: seq<ExportRecord>)
    ensures JoinLines(CsvCells(records))
         == [HeaderLine()] + seq(|records|, i requires 0 <= i < |records| => CsvRow(records[i]))
  {
    JoinLinesPrepend(Headers, seq(|records|, i requires 0 <= i < |records| => RowCells(records[i])));
    JoinRowCells(records);
  }

  /**
   * The export reads back as RFC 4180 CSV: first the six column names,
   * then, in query order, one line per record holding its six values in
   * header order (null as the empty string), whatever commas, quotes or
   * line feeds the values contain.
   */
  lemma CsvRoundTrip(records: seq<ExportRecord>)
    ensures ReadCsv(Csv(records)) == Some(CsvTable(records))
  {
    CsvCellsEncodeTable(records);
    ReadCsvRoundTrip(CsvCells(records), CsvTable(records));
    CsvLinesJoinCells(records);
  }

  /** Text without quotes is written unchanged between the quotes. */
  lemma {:induction false} DoubleQuotesWithoutQuotes(s: string)
    requires Quote !in s
    ensures DoubleQuotes(s) == s
    decreases |s|
  {
    if s != [] {
      assert s[0] != Quote && Quote !in s[1..];
      DoubleQuotesWithoutQuotes(s[1..]);
      assert [s[0]] + s[1..] == s;
    }
  }

  /** Escaping works character by character, so it distributes over concatenation. */
  lemma {:induction false} DoubleQuotesAppend(a: string, b: string)
    ensures DoubleQuotes(a + b) == DoubleQuotes(a) + DoubleQuotes(b)
    decreases |a|
  {
    if a != [] {
      assert (a + b)[0] == a[0] && (a + b)[1..] == a[1..] + b;
      DoubleQuotesAppend(a[1..], b);
    } else {
      assert a + b == b;
    }
  }

  /** Six strings joined: each followed by the separator, except the last. */
  lemma JoinSix(a: string, b: string, c: string, d: string, e: string, f: string, sep: string)
    ensures Join([a, b, c, d, e, f], sep) == a + sep + b + sep + c + sep + d + sep + e + sep + f
  {
    assert [a, b, c, d, e, f][1..] == [b, c, d, e, f];
    assert [b, c, d, e, f][1..] == [c, d, e, f];
    assert [c, d, e, f][1..] == [d, e, f];
    assert [d, e, f][1..] == [e, f];
    assert [e, f][1..] == [f];
    assert Join([f], sep) == f;
    var j2 := Join([e, f], sep);
    assert j2 == e + sep + f;
    var j3 := Join([d, e, f], sep);
    assert j3 == d + sep + j2;
    var j4 := Join([c, d, e, f], sep);
    assert j4 == c + sep + j3;
    var j5 := Join([b, c, d, e, f], sep);
    assert j5 == b + sep + j4;
    assert Join([a, b, c, d, e, f], sep) == a + sep + j5;
  }

  lemma JoinCons(x: string, xs: seq<string>, sep: string)
    requires xs != []
    ensures Join([x] + xs, sep) == x + sep + Join(xs, sep)
  {
    assert ([x] + xs)[1..] == xs;
  }

  /** A quote inside a value is doubled: `a"b` escapes to `"a""b"`; null escapes to `""`. */
  lemma EscapeExamples()
    ensures EscapeField(Text("a\"b")) == "\"a\"\"b\""
    ensures EscapeField(Null) == "\"\""
    ensures EscapeField(Text("a,\nb")) == "\"a,\nb\""
  {
    assert DoubleQuotes("b") == "b";
    assert DoubleQuotes("\"b") == "\"\"b";
    assert DoubleQuotes("\nb") == "\nb";
    assert DoubleQuotes(",\nb") == ",\nb";
  }
}
