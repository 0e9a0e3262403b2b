/**
  AnalyticsService.exportToCsv, and a reader for the format of section 2 of RFC 4180 (with LF line ends)
  to read its output back.
 */
module CsvExport {

  /** A column value: null and undefined print as nothing, everything else as String(v). */
  datatype Value = Null | Undefined | Printed(text: string)

  /** A row object: column names and values in the order of Object.keys. */
  type Row = seq<(string, Value)>

  /** A cell of the printed file. Column names are never quoted; values are when they contain a comma. */
  datatype Cell = Cell(text: string, quoted: bool)

  function TextOf(v: Value): string {
    if v.Printed? then v.text else ""
  }

  /** str.replace(/"/g, '""') */
  function DoubleQuotes(s: string): string {
    if s == "" then ""
    else (if s[0] == '"' then "\"\"" else [s[0]]) + DoubleQuotes(s[1..])
  }

  function Keys(r: Row): seq<string> {
    seq(|r|, i requires 0 <= i < |r| => r[i].0)
  }

  function Values(r: Row): seq<string> {
    seq(|r|, i requires 0 <= i < |r| => TextOf(r[i].1))
  }

  function HeaderCells(r: Row): seq<Cell> {
    seq(|r|, i requires 0 <= i < |r| => Cell(r[i].0, false))
  }

  function ValueCells(r: Row): seq<Cell> {
    seq(|r|, i requires 0 <= i < |r| => Cell(TextOf(r[i].1), ',' in TextOf(r[i].1)))
  }

  function PrintCell(c: Cell): string {
    if c.quoted then "\"" + DoubleQuotes(c.text) + "\"" else c.text
  }

  /** cells.join(',') */
  function PrintLine(cells: seq<Cell>): string {
    if cells == [] then ""
    else if |cells| == 1 then PrintCell(cells[0])
    else PrintCell(cells[0]) + "," + PrintLine(cells[1..])
  }

  /** lines.join('\n') */
  function PrintLines(lines: seq<seq<Cell>>): string {
    if lines == [] then ""
    else if |lines| == 1 then PrintLine(lines[0])
    else PrintLine(lines[0]) + "\n" + PrintLines(lines[1..])
  }

  function AllValueCells(rows: seq<Row>): seq<seq<Cell>> {
    seq(|rows|, i requires 0 <= i < |rows| => ValueCells(rows[i]))
  }

  function Lines(rows: seq<Row>): seq<seq<Cell>>
    requires rows != []
  {
    [HeaderCells(rows[0])] + AllValueCells(rows)
  }

  function ExportToCsv(rows: seq<Row>): string {
    if rows == [] then "" else PrintLines(Lines(rows))
  }

  // ----- the reader -----

  datatype Mode =
    | FieldStart
    | Plain       // inside an unquoted field
    | Quoted      // inside a quoted field
    | QuoteSeen   // just after a double quote inside a quoted field

  datatype Parsed = Malformed | Table(records: seq<seq<string>>)

  /** field, row and table are what has been read of the current field, record and file. */
  function Parse(s: string, mode: Mode, field: string, row: seq<string>, table: seq<seq<string>>): Parsed {
    if s == "" then
      match mode
      case FieldStart => if row == [] then Table(table) else Table(table + [row + [""]])
      case Quoted => Malformed
      case _ => Table(table + [row + [field]])
    else
      var c, rest := s[0], s[1..];
      if mode.Quoted? then
        if c == '"' then Parse(rest, QuoteSeen, field, row, table)
        else Parse(rest, Quoted, field + [c], row, table)
      else if c == ',' then Parse(rest, FieldStart, "", row + [field], table)
      else if c == '\n' then Parse(rest, FieldStart, "", [], table + [row + [field]])
      else if c == '"' then
        match mode
        case FieldStart => Parse(rest, Quoted, "", row, table)
        case QuoteSeen => Parse(rest, Quoted, field + ['"'], row, table)
        case _ => Malformed
      else if c == '\r' || mode.QuoteSeen? then Malformed
      else Parse(rest, Plain, field + [c], row, table)
  }

  function ReadCsv(s: string): Parsed {
    Parse(s, FieldStart, "", [], [])
  }

  // ----- which cells read back -----

  predicate IsSpecial(c: char) {
    c == ',' || c == '"' || c == '\n' || c == '\r'
  }

  predicate IsPlain(s: string) {
    forall i :: 0 <= i < |s| ==> !IsSpecial(s[i])
  }

  predicate Good(c: Cell) {
    c.quoted || IsPlain(c.text)
  }

  function Texts(cells: seq<Cell>): seq<string> {
    seq(|cells|, i requires 0 <= i < |cells| => cells[i].text)
  }

  function AllTexts(lines: seq<seq<Cell>>): seq<seq<string>> {
    seq(|lines|, i requires 0 <= i < |lines| => Texts(lines[i]))
  }

  predicate GoodLine(cells: seq<Cell>) {
    cells != [] && forall i :: 0 <= i < |cells| ==> Good(cells[i])
  }

  /** Every line has cells, every cell reads back, and the last line is not a single empty cell. */
  predicate Readable(lines: seq<seq<Cell>>)
    requires lines != []
  {
    GoodLine(lines[0]) && if |lines| == 1 then lines[0] != [Cell("", false)] else Readable(lines[1..])
  }

  // ----- the reader only ever appends -----

  ghost predicate Extends(p: Parsed, mode: Mode, field: string, row: seq<string>, table: seq<seq<string>>) {
    p.Table? ==>
      && table <= p.records
      && (!mode.FieldStart? || row != [] ==>
            |p.records| > |table| && row <= p.records[|table|] && |p.records[|table|]| > |row|)
      && (!mode.FieldStart? ==> field <= p.records[|table|][|row|])
  }

  lemma {:induction false} ParseExtends(s: string, mode: Mode, field: string, row: seq<string>, table: seq<seq<string>>)
    requires mode.FieldStart? ==> field == ""
    ensures Extends(Parse(s, mode, field, row, table), mode, field, row, table)
    decreases s
  {
    if s != "" {
      var c, rest := s[0], s[1..];
      if mode.Quoted? {
        if c == '"' { ParseExtends(rest, QuoteSeen, field, row, table); }
        else { ParseExtends(rest, Quoted, field + [c], row, table); }
      } else if c == ',' {
        ParseExtends(rest, FieldStart, "", row + [field], table);
      } else if c == '\n' {
        ParseExtends(rest, FieldStart, "", [], table + [row + [field]]);
      } else if c == '"' {
        if mode.FieldStart? { ParseExtends(rest, Quoted, "", row, table); }
        else if mode.QuoteSeen? { ParseExtends(rest, Quoted, field + ['"'], row, table); }
      } else if c != '\r' && !mode.QuoteSeen? {
        ParseExtends(rest, Plain, field + [c], row, table);
      }
    }
  }

  // ----- good cells -----

  lemma {:induction false} PlainRun(s: string, tail: string, field: string, row: seq<string>, table: seq<seq<string>>)
    requires IsPlain(s)
    ensures Parse(s + tail, Plain, field, row, table) == Parse(tail, Plain, field + s, row, table)
    decreases s
  {
    if s == "" {
      assert s + tail == tail && field + s == field;
    } else {
      assert (s + tail)[1..] == s[1..] + tail;
      PlainRun(s[1..], tail, field + [s[0]], row, table);
      assert field + [s[0]] + s[1..] == field + s;
    }
  }

  lemma {:induction false} QuotedRun(s: string, tail: string, field: string, row: seq<string>, table: seq<seq<string>>)
    ensures Parse(DoubleQuotes(s) + "\"" + tail, Quoted, field, row, table)
            == Parse(tail, QuoteSeen, field + s, row, table)
    decreases s
  {
    var printed := DoubleQuotes(s) + "\"" + tail;
    if s == "" {
      assert printed[1..] == tail && field + s == field;
    } else {
      var more := DoubleQuotes(s[1..]) + "\"" + tail;
      QuotedRun(s[1..], tail, field + [s[0]], row, table);
      assert field + [s[0]] + s[1..] == field + s;
      if s[0] == '"' {
        assert printed[1..][1..] == more && printed[0] == printed[1..][0] == '"';
      } else {
        assert printed[1..] == more;
      }
    }
  }

  /** After a good cell the reader stands at what follows, having read exactly the cell's text. */
  ghost predicate StandsAfter(p: Parsed, c: Cell, tail: string, row: seq<string>, table: seq<seq<string>>) {
    p == Parse(tail, if c.quoted then QuoteSeen else if c.text == "" then FieldStart else Plain, c.text, row, table)
  }

  lemma {:induction false} GoodCellRun(c: Cell, tail: string, row: seq<string>, table: seq<seq<string>>)
    requires Good(c)
    ensures StandsAfter(Parse(PrintCell(c) + tail, FieldStart, "", row, table), c, tail, row, table)
  {
    var s := c.text;
    if c.quoted {
      var printed := PrintCell(c) + tail;
      assert printed[0] == '"' && printed[1..] == DoubleQuotes(s) + "\"" + tail;
      QuotedRun(s, tail, "", row, table);
      assert "" + s == s;
    } else if s == "" {
      assert PrintCell(c) + tail == tail;
    } else {
      assert (s + tail)[1..] == s[1..] + tail;
      assert "" + [s[0]] == [s[0]];
      PlainRun(s[1..], tail, [s[0]], row, table);
      assert [s[0]] + s[1..] == s;
    }
  }

  /** The end of a record: a line feed or the end of the file. */
  ghost predicate IsTail(tail: string) {
    tail == "" || tail[0] == '\n'
  }

  ghost function Close(tail: string, row: seq<string>, table: seq<seq<string>>): Parsed
    requires IsTail(tail)
  {
    if tail == "" then Table(table + [row]) else Parse(tail[1..], FieldStart, "", [], table + [row])
  }

  lemma {:induction false} GoodLineRun(cells: seq<Cell>, tail: string, row: seq<string>, table: seq<seq<string>>)
    requires GoodLine(cells) && IsTail(tail)
    ensures Parse(PrintLine(cells) + tail, FieldStart, "", row, table)
            == if tail == "" && row == [] && cells == [Cell("", false)] then Table(table)
               else Close(tail, row + Texts(cells), table)
    decreases cells
  {
    var c, rest := cells[0], cells[1..];
    if rest == [] {
      GoodCellRun(c, tail, row, table);
      assert Texts(cells) == [c.text];
    } else {
      var more := PrintLine(rest) + tail;
      assert PrintLine(cells) + tail == PrintCell(c) + ("," + more);
      GoodCellRun(c, "," + more, row, table);
      assert ("," + more)[1..] == more;
      GoodLineRun(rest, tail, row + [c.text], table);
      assert row + [c.text] + Texts(rest) == row + Texts(cells);
    }
  }

  // ----- bad cells -----

  ghost function LeadingQuotes(s: string): nat {
    if s != "" && s[0] == '"' then 1 + LeadingQuotes(s[1..]) else 0
  }

  lemma {:induction false} LeadingQuotesAre(s: string)
    ensures LeadingQuotes(s) <= |s| && forall i :: 0 <= i < LeadingQuotes(s) ==> s[i] == '"'
    ensures LeadingQuotes(s) < |s| ==> s[LeadingQuotes(s)] != '"'
  {
    if s != "" && s[0] == '"' {
      LeadingQuotesAre(s[1..]);
    }
  }

  ghost predicate NotAllQuotes(v: string, n: nat) {
    |v| < n || exists j :: 0 <= j < n && v[j] != '"'
  }

  ghost predicate FollowsCell(tail: string) {
    tail == "" || tail[0] == ',' || tail[0] == '\n'
  }

  ghost predicate ReadsOtherThan(p: Parsed, text: string, row: seq<string>, table: seq<seq<string>>) {
    p.Table? ==> |p.records| > |table| && |p.records[|table|]| > |row| && p.records[|table|][|row|] != text
  }

  /** A quoted field that starts with k quotes cannot have content starting with more than k quotes. */
  lemma {:induction false} QuotesShrink(s: string, field: string, row: seq<string>, table: seq<seq<string>>)
    ensures var p := Parse(s, Quoted, field, row, table);
            p.Table? ==> |p.records| > |table| && |p.records[|table|]| > |row|
                         && NotAllQuotes(p.records[|table|][|row|], |field| + LeadingQuotes(s) + 1)
    decreases s
  {
    var p := Parse(s, Quoted, field, row, table);
    ParseExtends(s, Quoted, field, row, table);
    if p.Table? {
      if s[0] != '"' {
        ParseExtends(s[1..], Quoted, field + [s[0]], row, table);
        assert p.records[|table|][|row|][|field|] == s[0];
      } else if |s| > 1 && s[1] == '"' {
        assert s[1..][1..] == s[2..] && LeadingQuotes(s) == 2 + LeadingQuotes(s[2..]);
        QuotesShrink(s[2..], field + ['"'], row, table);
      } else if |s| > 1 {
        ParseExtends(s[1..][1..], FieldStart, "", if s[1] == ',' then row + [field] else [],
                     if s[1] == ',' then table else table + [row + [field]]);
        assert p.records[|table|][|row|] == field;
      }
    }
  }

  /** An unquoted cell with a special character is never read back as itself. */
  lemma {:induction false} BadCellRun(c: Cell, tail: string, row: seq<string>, table: seq<seq<string>>)
    requires !Good(c) && FollowsCell(tail)
    ensures ReadsOtherThan(Parse(PrintCell(c) + tail, FieldStart, "", row, table), c.text, row, table)
  {
    var s := c.text;
    var k := FirstSpecial(s);
    var after := s[k + 1..] + tail;
    assert s + tail == s[..k] + ([s[k]] + after);
    assert ([s[k]] + after)[1..] == after;
    if k == 0 {
      assert s + tail == [s[0]] + after;
    } else {
      GoodCellRun(Cell(s[..k], false), [s[k]] + after, row, table);
    }
    if s[k] == ',' {
      ParseExtends(after, FieldStart, "", row + [s[..k]], table);
    } else if s[k] == '\n' {
      ParseExtends(after, FieldStart, "", [], table + [row + [s[..k]]]);
    } else if s[k] == '"' && k == 0 {
      BadQuoteRun(s, tail, row, table);
    }
  }

  lemma {:induction false} BadQuoteRun(s: string, tail: string, row: seq<string>, table: seq<seq<string>>)
    requires s != "" && s[0] == '"' && FollowsCell(tail)
    ensures ReadsOtherThan(Parse(s + tail, FieldStart, "", row, table), s, row, table)
  {
    var after := s[1..] + tail;
    assert (s + tail)[1..] == after;
    QuotesShrink(after, "", row, table);
    LeadingQuotesAre(after);
    LeadingQuotesAre(s);
    LeadingQuotesOfPrefix(s[1..], tail);
    assert forall v: string :: NotAllQuotes(v, LeadingQuotes(s)) ==> v != s;
  }

  lemma {:induction false} LeadingQuotesOfPrefix(s: string, tail: string)
    ensures LeadingQuotes(s + tail) == if LeadingQuotes(s) == |s| then |s| + LeadingQuotes(tail) else LeadingQuotes(s)
  {
    LeadingQuotesAre(s);
    if s == "" {
      assert s + tail == tail;
    } else if s[0] == '"' {
      assert (s + tail)[1..] == s[1..] + tail;
      LeadingQuotesOfPrefix(s[1..], tail);
    }
  }

  lemma {:induction false} FirstSpecial(s: string) returns (k: nat)
    requires !IsPlain(s)
    ensures k < |s| && IsSpecial(s[k]) && IsPlain(s[..k])
  {
    if IsSpecial(s[0]) {
      k := 0;
    } else {
      assert !IsPlain(s[1..]) by {
        var i :| 0 <= i < |s| && IsSpecial(s[i]);
        assert s[1..][i - 1] == s[i];
      }
      var j := FirstSpecial(s[1..]);
      k := j + 1;
      assert s[..k] == [s[0]] + s[1..][..j];
    }
  }

  // ----- lines -----

  ghost predicate HasBadCell(cells: seq<Cell>) {
    exists i :: 0 <= i < |cells| && !Good(cells[i])
  }

  lemma {:induction false} BadLineRun(cells: seq<Cell>, tail: string, row: seq<string>, table: seq<seq<string>>)
    requires HasBadCell(cells) && IsTail(tail)
    ensures var p := Parse(PrintLine(cells) + tail, FieldStart, "", row, table);
            p.Table? ==> |p.records| > |table| && p.records[|table|] != row + Texts(cells)
    decreases cells
  {
    var c, rest := cells[0], cells[1..];
    var more := if rest == [] then tail else "," + (PrintLine(rest) + tail);
    assert PrintLine(cells) + tail == PrintCell(c) + more;
    assert (row + Texts(cells))[|row|] == c.text;
    if !Good(c) {
      BadCellRun(c, more, row, table);
    } else {
      assert HasBadCell(rest) by {
        var i :| 0 <= i < |cells| && !Good(cells[i]);
        assert rest[i - 1] == cells[i];
      }
      GoodCellRun(c, more, row, table);
      assert more[1..] == PrintLine(rest) + tail;
      BadLineRun(rest, tail, row + [c.text], table);
      assert row + [c.text] + Texts(rest) == row + Texts(cells);
    }
  }

  lemma {:induction false} EmptyLineRun(tail: string, table: seq<seq<string>>)
    requires IsTail(tail)
    ensures var p := Parse(tail, FieldStart, "", [], table);
            p.Table? ==> p.records == table || (|p.records| > |table| && p.records[|table|] != [])
  {
    ParseExtends(if tail == "" then "" else tail[1..], FieldStart, "", [], table + [[""]]);
    assert [] + [""] == [""];
  }

  lemma {:induction false} FirstLineFails(line: seq<Cell>, tail: string, table: seq<seq<string>>,
                                          more: seq<seq<string>>)
    requires IsTail(tail) && !GoodLine(line)
    ensures Parse(PrintLine(line) + tail, FieldStart, "", [], table) != Table(table + ([Texts(line)] + more))
  {
    assert (table + ([Texts(line)] + more))[|table|] == Texts(line);
    if HasBadCell(line) {
      BadLineRun(line, tail, [], table);
      assert [] + Texts(line) == Texts(line);
    } else {
      EmptyLineRun(tail, table);
      assert PrintLine(line) + tail == tail && Texts(line) == [];
    }
  }

  lemma {:induction false} LastLineReadsBackIff(line: seq<Cell>, table: seq<seq<string>>)
    ensures Parse(PrintLine(line), FieldStart, "", [], table) == Table(table + [Texts(line)])
            <==> GoodLine(line) && line != [Cell("", false)]
  {
    assert PrintLine(line) + "" == PrintLine(line);
    if GoodLine(line) {
      GoodLineRun(line, "", [], table);
      assert [] + Texts(line) == Texts(line);
      assert |table + [Texts(line)]| == |table| + 1;
    } else {
      FirstLineFails(line, "", table, []);
      assert [Texts(line)] + [] == [Texts(line)];
    }
  }

  /** Reading printed lines gives back their texts exactly when they are readable. */
  lemma {:induction false} LinesReadBackIff(lines: seq<seq<Cell>>, table: seq<seq<string>>)
    requires lines != []
    ensures Parse(PrintLines(lines), FieldStart, "", [], table) == Table(table + AllTexts(lines)) <==> Readable(lines)
    decreases lines
  {
    var line, rest := lines[0], lines[1..];
    if rest == [] {
      LastLineReadsBackIff(line, table);
      assert AllTexts(lines) == [Texts(line)];
    } else {
      var tail := "\n" + PrintLines(rest);
      assert PrintLines(lines) == PrintLine(line) + tail && tail[1..] == PrintLines(rest);
      assert AllTexts(lines) == [Texts(line)] + AllTexts(rest);
      if GoodLine(line) {
        GoodLineRun(line, tail, [], table);
        assert [] + Texts(line) == Texts(line);
        LinesReadBackIff(rest, table + [Texts(line)]);
        assert table + [Texts(line)] + AllTexts(rest) == table + AllTexts(lines);
      } else {
        FirstLineFails(line, tail, table, AllTexts(rest));
      }
    }
  }

  // ----- the export -----

  /** The header and every row, as text. */
  function TableOf(rows: seq<Row>): seq<seq<string>> {
    if rows == [] then []
    else [Keys(rows[0])] + seq(|rows|, i requires 0 <= i < |rows| => Values(rows[i]))
  }

  /** A value that prints safely: it has a comma (and is then quoted), or no quote and no line break. */
  predicate SafeValue(s: string) {
    ',' in s || IsPlain(s)
  }

  predicate SafeRow(r: Row) {
    r != [] && forall j :: 0 <= j < |r| ==> SafeValue(TextOf(r[j].1))
  }

  predicate SafeHeader(r: Row) {
    r != [] && forall j :: 0 <= j < |r| ==> IsPlain(r[j].0)
  }

  /** Column names are plain, every row has columns and safe values, and the last row is not one empty value. */
  predicate Exportable(rows: seq<Row>) {
    rows == [] || (
      && SafeHeader(rows[0])
      && (forall i :: 0 <= i < |rows| ==> SafeRow(rows[i]))
      && Values(rows[|rows| - 1]) != [""])
  }

  lemma {:induction false} GoodValueLine(r: Row)
    ensures GoodLine(ValueCells(r)) <==> SafeRow(r)
    ensures Texts(ValueCells(r)) == Values(r)
    ensures ValueCells(r) == [Cell("", false)] <==> Values(r) == [""]
  {
    assert forall j :: 0 <= j < |r| ==> ValueCells(r)[j] == Cell(TextOf(r[j].1), ',' in TextOf(r[j].1));
    if Values(r) == [""] {
      assert |r| == 1 && TextOf(r[0].1) == Values(r)[0];
    }
    if ValueCells(r) == [Cell("", false)] {
      assert |r| == |ValueCells(r)| == 1 && TextOf(r[0].1) == ValueCells(r)[0].text;
    }
  }

  lemma {:induction false} GoodHeaderLine(r: Row)
    ensures GoodLine(HeaderCells(r)) <==> SafeHeader(r)
    ensures Texts(HeaderCells(r)) == Keys(r)
  {
    assert forall j :: 0 <= j < |r| ==> HeaderCells(r)[j] == Cell(r[j].0, false);
  }

  lemma {:induction false} ReadableRows(rows: seq<Row>)
    requires rows != []
    ensures Readable(AllValueCells(rows)) <==>
              (forall i :: 0 <= i < |rows| ==> SafeRow(rows[i])) && Values(rows[|rows| - 1]) != [""]
  {
    GoodValueLine(rows[0]);
    if |rows| > 1 {
      assert AllValueCells(rows)[1..] == AllValueCells(rows[1..]);
      ReadableRows(rows[1..]);
      assert forall i :: 1 <= i < |rows| ==> rows[i] == rows[1..][i - 1];
      assert forall i :: 0 <= i < |rows[1..]| ==> rows[1..][i] == rows[i + 1];
    }
  }

  lemma {:induction false} LinesOfExport(rows: seq<Row>)
    requires rows != []
    ensures AllTexts(Lines(rows)) == TableOf(rows)
    ensures Readable(Lines(rows)) <==> Exportable(rows)
  {
    var lines := Lines(rows);
    GoodHeaderLine(rows[0]);
    ReadableRows(rows);
    assert lines[1..] == AllValueCells(rows);
    forall i | 0 <= i < |rows| ensures Texts(ValueCells(rows[i])) == Values(rows[i]) {
      GoodValueLine(rows[i]);
    }
    assert AllTexts(lines) == TableOf(rows);
  }

  /** Reading the exported file recovers exactly the header and every row if and only if the rows are exportable. */
  lemma {:induction false} ExportRoundTripsIff(rows: seq<Row>)
    ensures ReadCsv(ExportToCsv(rows)) == Table(TableOf(rows)) <==> Exportable(rows)
  {
    if rows != [] {
      LinesReadBackIff(Lines(rows), []);
      LinesOfExport(rows);
      assert [] + AllTexts(Lines(rows)) == TableOf(rows);
    }
  }

  // ----- what the file is compared with -----

  /** The table of the rows: the names of the first row, then each row's texts, nothing for null and undefined. */
  lemma TableMeans(rows: seq<Row>, i: nat, j: nat)
    requires i < |rows| && j < |rows[i]|
    ensures |TableOf(rows)| == |rows| + 1 && |TableOf(rows)[0]| == |rows[0]| && |TableOf(rows)[i + 1]| == |rows[i]|
    ensures i == 0 ==> TableOf(rows)[0][j] == rows[0][j].0
    ensures TableOf(rows)[i + 1][j] == match rows[i][j].1 { case Printed(text) => text case _ => "" }
  {
  }

  /** No rows give an empty file, without a header. */
  lemma NoRowsNoFile()
    ensures ExportToCsv([]) == "" && TableOf([]) == []
  {
  }

  /** A column name and a value with a comma; a quote inside it is doubled; null is an empty field. */
  lemma {:induction false} SmallExport()
    ensures ExportToCsv([[("a", Printed("x,\"")), ("b", Null)]]) == "a,b\n\"x,\"\"\","
  {
    var row: Row := [("a", Printed("x,\"")), ("b", Null)];
    assert HeaderCells(row) == [Cell("a", false), Cell("b", false)];
    assert ValueCells(row) == [Cell("x,\"", true), Cell("", false)];
    assert Lines([row]) == [HeaderCells(row), ValueCells(row)];
    PrintTwo(Cell("a", false), Cell("b", false));
    PrintTwo(Cell("x,\"", true), Cell("", false));
    assert PrintLines(Lines([row])) == PrintLine(HeaderCells(row)) + "\n" + PrintLines([ValueCells(row)]);
    DoubleOneQuote();
  }

  lemma {:induction false} PrintTwo(a: Cell, b: Cell)
    ensures PrintLine([a, b]) == PrintCell(a) + "," + PrintCell(b)
  {
    assert [a, b][1..] == [b];
  }

  lemma {:induction false} DoubleOneQuote()
    ensures DoubleQuotes("x,\"") == "x,\"\""
  {
    assert "x,\""[1..] == ",\"" && ",\""[1..] == "\"" && "\""[1..] == "";
    assert DoubleQuotes("\"") == "\"\"";
  }
}
