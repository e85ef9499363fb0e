/** The CSV writer of the usage export and the CSV parser of the statement import. */
module Csv {
  import opened Basics

  type Row = seq<string>

  // ------------------------------------------------------------ writing

  /** `-?\d+(\.\d+)?`, the whole cell. */
  predicate PlainNumber(s: string) {
    var unsigned := if s != "" && s[0] == '-' then s[1..] else s;
    Numeral(unsigned) || exists k | 0 < k < |unsigned| ::
      unsigned[k] == '.' && Numeral(unsigned[..k]) && Numeral(unsigned[k + 1..])
  }

  predicate StartsFormula(s: string) {
    s != "" && s[0] in {'=', '+', '-', '@', '\t', '\r'}
  }

  /** A cell a spreadsheet could take for a formula is led by an apostrophe. */
  function Guard(s: string): string {
    if StartsFormula(s) && !PlainNumber(s) then "'" + s else s
  }

  predicate NeedsQuotes(s: string) {
    exists i | 0 <= i < |s| :: s[i] in {'"', ',', '\r', '\n'}
  }

  function DoubleQuotes(s: string): string {
    if s == "" then "" else (if s[0] == '"' then "\"\"" else [s[0]]) + DoubleQuotes(s[1..])
  }

  function Quote(s: string): string {
    if NeedsQuotes(s) then "\"" + DoubleQuotes(s) + "\"" else s
  }

  /** `csvCell` of a value already turned into text. */
  function Cell(s: string): string {
    Quote(Guard(s))
  }

  function JoinCells(cells: Row): string
    decreases |cells|
  {
    if cells == [] then ""
    else if |cells| == 1 then Cell(cells[0])
    else Cell(cells[0]) + "," + JoinCells(cells[1..])
  }

  /** Every line is ended by CRLF, the last one too. */
  function Print(rows: seq<Row>): string {
    if rows == [] then "" else JoinCells(rows[0]) + "\r\n" + Print(rows[1..])
  }

  lemma {:induction false} PrintAppend(rows: seq<Row>, row: Row)
    ensures Print(rows + [row]) == Print(rows) + (JoinCells(row) + "\r\n")
  {
    if rows == [] {
      assert Print([row]) == JoinCells(row) + "\r\n" + Print([]);
    } else {
      assert (rows + [row])[1..] == rows[1..] + [row];
      PrintAppend(rows[1..], row);
    }
  }

  /** The writer: one line per row, in order. */
  method WriteRows(rows: seq<Row>) returns (text: string)
    ensures text == Print(rows)
    ensures IsFile(rows, text)
  {
    text := "";
    for n := 0 to |rows|
      invariant text == Print(rows[..n])
    {
      assert rows[..n + 1] == rows[..n] + [rows[n]];
      PrintAppend(rows[..n], rows[n]);
      text := text + (JoinCells(rows[n]) + "\r\n");
    }
    assert rows[..|rows|] == rows;
    FileExactly(rows);
  }

  // ------------------------------------------------------------ parsing

  /** Rows still to come from the rest of a text, given the row and field begun and whether inside quotes. */
  function Scan(t: string, row: Row, field: string, quoted: bool): seq<Row>
    decreases |t|
  {
    if t == "" then (if field != "" || row != [] then [row + [field]] else [])
    else if quoted then
      if t[0] != '"' then Scan(t[1..], row, field + [t[0]], true)
      else if |t| > 1 && t[1] == '"' then Scan(t[2..], row, field + "\"", true)
      else Scan(t[1..], row, field, false)
    else if t[0] == '"' then Scan(t[1..], row, field, true)
    else if t[0] == ',' then Scan(t[1..], row + [field], "", false)
    else if t[0] == '\n' || t[0] == '\r' then
      [row + [field]] + Scan(if t[0] == '\r' && |t| > 1 && t[1] == '\n' then t[2..] else t[1..], [], "", false)
    else Scan(t[1..], row, field + [t[0]], false)
  }

  /** White space as `trim` sees it. */
  predicate Space(c: char) {
    || '\t' <= c <= '\r'
    || c in {' ', '\U{A0}', '\U{1680}', '\U{2028}', '\U{2029}', '\U{202F}', '\U{205F}', '\U{3000}', '\U{FEFF}'}
    || '\U{2000}' <= c <= '\U{200A}'
  }

  predicate BlankCell(s: string) {
    forall i | 0 <= i < |s| :: Space(s[i])
  }

  predicate BlankRow(row: Row) {
    forall i | 0 <= i < |row| :: BlankCell(row[i])
  }

  function DropBlank(rows: seq<Row>): seq<Row> {
    if rows == [] then []
    else if BlankRow(rows[0]) then DropBlank(rows[1..])
    else [rows[0]] + DropBlank(rows[1..])
  }

  function Parse(text: string): seq<Row> {
    DropBlank(Scan(text, [], "", false))
  }

  /** `parseCsv`: one pass over the text with a look-ahead of one character. */
  method ParseCsv(text: string) returns (parsed: seq<Row>)
    ensures parsed == Parse(text)
  {
    var rows: seq<Row> := [];
    var row: Row := [];
    var field := "";
    var quoted := false;
    var i := 0;
    while i < |text|
      invariant 0 <= i <= |text|
      invariant Scan(text, [], "", false) == rows + Scan(text[i..], row, field, quoted)
    {
      var ch := text[i];
      ghost var rest := text[i..];
      assert rest[1..] == text[i + 1..] && (i + 1 < |text| ==> rest[2..] == text[i + 2..]);
      if quoted {
        if ch == '"' {
          if i + 1 < |text| && text[i + 1] == '"' {
            field := field + "\"";
            i := i + 1;
          } else {
            quoted := false;
          }
        } else {
          field := field + [ch];
        }
      } else if ch == '"' {
        quoted := true;
      } else if ch == ',' {
        row := row + [field];
        field := "";
      } else if ch == '\n' || ch == '\r' {
        if ch == '\r' && i + 1 < |text| && text[i + 1] == '\n' {
          i := i + 1;
        }
        row := row + [field];
        rows := rows + [row];
        row := [];
        field := "";
      } else {
        field := field + [ch];
      }
      i := i + 1;
    }
    assert text[i..] == "";
    if field != "" || row != [] {
      row := row + [field];
      rows := rows + [row];
    }
    assert rows == Scan(text, [], "", false);
    parsed := DropBlank(rows);
  }

  // ------------------------------------------------------------ round trip

  predicate Plain(s: string) {
    !NeedsQuotes(s)
  }

  lemma {:induction false} ScanPlain(s: string, rest: string, row: Row, field: string)
    requires Plain(s)
    ensures Scan(s + rest, row, field, false) == Scan(rest, row, field + s, false)
    decreases |s|
  {
    if s == "" {
      assert s + rest == rest && field + s == field;
    } else {
      assert (s + rest)[1..] == s[1..] + rest;
      assert field + [s[0]] + s[1..] == field + s;
      assert forall i | 0 <= i < |s[1..]| :: s[1..][i] == s[i + 1];
      ScanPlain(s[1..], rest, row, field + [s[0]]);
    }
  }

  lemma {:induction false} ScanQuoted(s: string, rest: string, row: Row, field: string)
    requires rest == "" || rest[0] != '"'
    ensures Scan(DoubleQuotes(s) + "\"" + rest, row, field, true) == Scan(rest, row, field + s, false)
    decreases |s|
  {
    var t := DoubleQuotes(s) + "\"" + rest;
    if s == "" {
      assert t[1..] == rest && field + s == field;
    } else {
      var lead := if s[0] == '"' then "\"\"" else [s[0]];
      var tail := DoubleQuotes(s[1..]) + "\"" + rest;
      assert t == lead + tail;
      assert t[|lead|..] == tail;
      assert field + [s[0]] + s[1..] == field + s;
      ScanQuoted(s[1..], rest, row, field + [s[0]]);
    }
  }

  lemma Requote(inner: string, rest: string)
    ensures "\"" + inner + "\"" + rest == "\"" + (inner + "\"" + rest)
  {
  }

  lemma ScanOpen(t: string, row: Row)
    requires t != "" && t[0] == '"'
    ensures Scan(t, row, "", false) == Scan(t[1..], row, "", true)
  {
  }

  /** Reading back one written cell, whatever it holds. */
  lemma ScanQuote(s: string, rest: string, row: Row)
    requires rest == "" || rest[0] != '"'
    ensures Scan(Quote(s) + rest, row, "", false) == Scan(rest, row, s, false)
  {
    assert "" + s == s;
    if NeedsQuotes(s) {
      var t := "\"" + (DoubleQuotes(s) + "\"" + rest);
      Requote(DoubleQuotes(s), rest);
      assert t[0] == '"' && t[1..] == DoubleQuotes(s) + "\"" + rest;
      ScanOpen(t, row);
      ScanQuoted(s, rest, row, "");
    } else {
      ScanPlain(s, rest, row, "");
    }
  }

  function GuardRow(row: Row): (g: Row)
    ensures |g| == |row|
  {
    seq(|row|, i requires 0 <= i < |row| => Guard(row[i]))
  }

  /** A row without cells is written as an empty line, which reads as one empty cell. */
  function ReadBack(row: Row): Row {
    if row == [] then [""] else GuardRow(row)
  }

  lemma ScanLastCell(cell: string, rest: string, row: Row)
    ensures Scan(Cell(cell) + ("\r\n" + rest), row, "", false) == [row + [Guard(cell)]] + Scan(rest, [], "", false)
  {
    var end := "\r\n" + rest;
    ScanQuote(Guard(cell), end, row);
    assert end[2..] == rest;
  }

  lemma ScanInnerCell(cell: string, rest: string, row: Row)
    ensures Scan(Cell(cell) + ("," + rest), row, "", false) == Scan(rest, row + [Guard(cell)], "", false)
  {
    var end := "," + rest;
    ScanQuote(Guard(cell), end, row);
    assert end[1..] == rest;
  }

  lemma JoinSplit(cells: Row, rest: string)
    requires |cells| > 1
    ensures JoinCells(cells) + rest == Cell(cells[0]) + ("," + (JoinCells(cells[1..]) + rest))
  {
    Regroup(Cell(cells[0]), ",", JoinCells(cells[1..]), rest);
  }

  lemma Regroup(a: string, b: string, c: string, d: string)
    ensures a + b + c + d == a + (b + (c + d))
  {
  }

  lemma GuardSplit(cells: Row, row: Row)
    requires cells != []
    ensures row + [Guard(cells[0])] + GuardRow(cells[1..]) == row + GuardRow(cells)
  {
  }

  lemma {:induction false} ScanCells(cells: Row, rest: string, row: Row)
    requires cells != []
    ensures Scan(JoinCells(cells) + ("\r\n" + rest), row, "", false) ==
      [row + GuardRow(cells)] + Scan(rest, [], "", false)
    decreases |cells|
  {
    GuardSplit(cells, row);
    if |cells| == 1 {
      ScanLastCell(cells[0], rest, row);
      assert row + [Guard(cells[0])] == row + GuardRow(cells);
    } else {
      var end := "\r\n" + rest;
      JoinSplit(cells, end);
      ScanInnerCell(cells[0], JoinCells(cells[1..]) + end, row);
      ScanCells(cells[1..], rest, row + [Guard(cells[0])]);
    }
  }

  function ReadBackAll(rows: seq<Row>): seq<Row> {
    if rows == [] then [] else [ReadBack(rows[0])] + ReadBackAll(rows[1..])
  }

  lemma ScanPrintedRow(row: Row, rest: string)
    ensures Scan(JoinCells(row) + ("\r\n" + rest), [], "", false) == [ReadBack(row)] + Scan(rest, [], "", false)
  {
    if row == [] {
      var t := JoinCells(row) + ("\r\n" + rest);
      assert t == "\r\n" + rest && t[2..] == rest;
      var none: Row := [];
      assert none + [""] == ReadBack(row);
    } else {
      ScanCells(row, rest, []);
      assert [] + GuardRow(row) == GuardRow(row);
    }
  }

  lemma PrintSplit(row: Row, rows: seq<Row>)
    ensures Print([row] + rows) == JoinCells(row) + ("\r\n" + Print(rows))
  {
    assert ([row] + rows)[1..] == rows;
  }

  lemma {:induction false} ScanPrinted(rows: seq<Row>)
    ensures Scan(Print(rows), [], "", false) == ReadBackAll(rows)
  {
    if rows != [] {
      PrintSplit(rows[0], rows[1..]);
      assert [rows[0]] + rows[1..] == rows;
      ScanPrintedRow(rows[0], Print(rows[1..]));
      ScanPrinted(rows[1..]);
    }
  }

  function GuardAll(rows: seq<Row>): seq<Row> {
    if rows == [] then [] else [GuardRow(rows[0])] + GuardAll(rows[1..])
  }

  lemma {:induction false} BlankReadsAlike(rows: seq<Row>)
    ensures DropBlank(ReadBackAll(rows)) == DropBlank(GuardAll(rows))
  {
    if rows != [] {
      assert rows[0] == [] ==> BlankRow(ReadBack(rows[0])) && BlankRow(GuardRow(rows[0]));
      BlankReadsAlike(rows[1..]);
    }
  }

  /** Round trip: parsing what was written returns exactly the guarded cells of every row that is not blank,
      in order, whatever characters the cells hold. */
  lemma RoundTrip(rows: seq<Row>)
    ensures Parse(Print(rows)) == DropBlank(GuardAll(rows))
  {
    ScanPrinted(rows);
    BlankReadsAlike(rows);
  }

  /** A row survives as not blank when a cell has a visible character, or starts with a tab or carriage return
      and so gained an apostrophe. */
  lemma NotBlankExactly(row: Row)
    ensures !BlankRow(GuardRow(row)) <==>
      exists i | 0 <= i < |row| :: !BlankCell(row[i]) || (row[i] != "" && row[i][0] in {'\t', '\r'})
  {
    forall i | 0 <= i < |row|
      ensures !BlankCell(GuardRow(row)[i]) <==> !BlankCell(row[i]) || (row[i] != "" && row[i][0] in {'\t', '\r'})
    {
      GuardBlank(row[i]);
    }
  }

  lemma GuardBlank(s: string)
    ensures !BlankCell(Guard(s)) <==> !BlankCell(s) || (s != "" && s[0] in {'\t', '\r'})
  {
    if StartsFormula(s) && !PlainNumber(s) {
      assert Guard(s)[0] == '\'' && !Space('\'');
    } else if s != "" && s[0] in {'\t', '\r'} {
      assert PlainNumber(s);
    }
  }

  /** No cell read back from a written file can start a formula, unless it is a plain number. */
  lemma {:induction false} NoFormulaSurvives(rows: seq<Row>, r: nat, c: nat)
    requires r < |Parse(Print(rows))| && c < |Parse(Print(rows))[r]|
    ensures !StartsFormula(Parse(Print(rows))[r][c]) || PlainNumber(Parse(Print(rows))[r][c])
  {
    RoundTrip(rows);
    GuardedRows(rows, r);
  }

  lemma {:induction false} GuardedRows(rows: seq<Row>, r: nat)
    requires r < |DropBlank(GuardAll(rows))|
    ensures forall c | 0 <= c < |DropBlank(GuardAll(rows))[r]| ::
      !StartsFormula(DropBlank(GuardAll(rows))[r][c]) || PlainNumber(DropBlank(GuardAll(rows))[r][c])
  {
    assert GuardAll(rows)[1..] == GuardAll(rows[1..]);
    if BlankRow(GuardRow(rows[0])) {
      GuardedRows(rows[1..], r);
    } else if r > 0 {
      GuardedRows(rows[1..], r - 1);
    }
  }

  lemma {:induction false} DropBlankAppend(a: seq<Row>, b: seq<Row>)
    ensures DropBlank(a + b) == DropBlank(a) + DropBlank(b)
  {
    if a == [] {
      assert a + b == b;
    } else {
      assert (a + b)[1..] == a[1..] + b;
      DropBlankAppend(a[1..], b);
    }
  }

  // ------------------------------------------------------------ what a reader can tell of a file

  /** An optional minus, digits, and perhaps a point with digits behind it. */
  predicate IsNumber(s: string) {
    exists a, b | 0 <= a <= b <= |s| :: IsNumberAt(s, a, b)
  }

  /** The digits begin at `a` and end at `b`, where the text ends or a point and more digits follow. */
  predicate IsNumberAt(s: string, a: int, b: int)
    requires 0 <= a <= b <= |s|
  {
    && a < b && (a == 0 || (a == 1 && s[0] == '-')) && (forall i | a <= i < b :: '0' <= s[i] <= '9')
    && (b == |s| || (s[b] == '.' && b + 1 < |s| && forall i | b < i < |s| :: '0' <= s[i] <= '9'))
  }

  /** A cell that would start a formula is written with an apostrophe in front, unless it is a number. */
  predicate IsGuarded(s: string, guarded: string) {
    if s != "" && (s[0] == '=' || s[0] == '+' || s[0] == '-' || s[0] == '@' || s[0] == '\t' || s[0] == '\r')
      && !IsNumber(s)
    then guarded == "'" + s else guarded == s
  }

  predicate IsSpecial(c: char) {
    c == '"' || c == ',' || c == '\r' || c == '\n'
  }

  /** Every quote stands twice. */
  predicate IsDoubled(s: string, doubled: string) {
    if s == "" then doubled == ""
    else if s[0] == '"' then |doubled| >= 2 && doubled[..2] == "\"\"" && IsDoubled(s[1..], doubled[2..])
    else doubled != "" && doubled[0] == s[0] && IsDoubled(s[1..], doubled[1..])
  }

  /** What is written for a cell: quoted if it holds a quote, a comma or a line end, and otherwise as it is. */
  ghost predicate IsCell(s: string, cell: string) {
    exists guarded :: IsGuarded(s, guarded) &&
      if exists i | 0 <= i < |guarded| :: IsSpecial(guarded[i])
      then |cell| >= 2 && cell[0] == '"' && cell[|cell| - 1] == '"' && IsDoubled(guarded, cell[1..|cell| - 1])
      else cell == guarded
  }

  /** The parts, with the separator between them. */
  function Between(parts: seq<string>, separator: string): string {
    if parts == [] then ""
    else if |parts| == 1 then parts[0]
    else parts[0] + separator + Between(parts[1..], separator)
  }

  ghost predicate IsLine(row: Row, line: string) {
    exists cells ::
      |cells| == |row| && line == Between(cells, ",") && forall i | 0 <= i < |row| :: IsCell(row[i], cells[i])
  }

  /** A line for each row, each with a carriage return and a line feed behind it. */
  ghost predicate IsFile(rows: seq<Row>, text: string) {
    exists lines ::
      && |lines| == |rows| && text == Between(lines + [""], "\r\n")
      && forall i | 0 <= i < |rows| :: IsLine(rows[i], lines[i])
  }

  lemma NumberExactly(s: string)
    ensures PlainNumber(s) <==> IsNumber(s)
  {
    if PlainNumber(s) {
      PlainIsNumber(s, if s != "" && s[0] == '-' then 1 else 0);
    }
    if a, b :| 0 <= a <= b <= |s| && IsNumberAt(s, a, b) {
      NumberIsPlain(s, a, b);
    }
  }

  lemma PlainIsNumber(s: string, a: nat)
    requires PlainNumber(s) && a == if s != "" && s[0] == '-' then 1 else 0
    ensures IsNumber(s)
  {
    var unsigned := s[a..];
    assert unsigned == if s != "" && s[0] == '-' then s[1..] else s;
    if Numeral(unsigned) {
      assert forall i | a <= i < |s| :: s[i] == unsigned[i - a];
      assert IsNumberAt(s, a, |s|);
    } else {
      var k :| 0 < k < |unsigned| && unsigned[k] == '.' && Numeral(unsigned[..k]) && Numeral(unsigned[k + 1..]);
      PointExactly(s, a, k);
    }
  }

  lemma NumberIsPlain(s: string, a: nat, b: nat)
    requires a <= b <= |s| && IsNumberAt(s, a, b)
    ensures PlainNumber(s)
  {
    var unsigned := s[a..];
    assert unsigned == if s != "" && s[0] == '-' then s[1..] else s;
    if b < |s| {
      PointExactly(s, a, b - a);
      assert unsigned[b - a] == '.' && Numeral(unsigned[..b - a]) && Numeral(unsigned[b - a + 1..]);
    } else {
      assert forall i | 0 <= i < |unsigned| :: unsigned[i] == s[i + a];
      assert Numeral(unsigned);
    }
  }

  lemma PointExactly(s: string, a: nat, k: nat)
    requires 0 < k && a + k < |s| && (a == 0 || (a == 1 && s[0] == '-'))
    ensures s[a + k] == '.' && Numeral(s[a..][..k]) && Numeral(s[a..][k + 1..]) <==>
      s[a + k] == '.' && IsNumberAt(s, a, a + k)
  {
    var whole, rest := s[a..][..k], s[a..][k + 1..];
    assert forall i | 0 <= i < |whole| :: whole[i] == s[a + i];
    assert forall i | 0 <= i < |rest| :: rest[i] == s[a + k + 1 + i];
    if Numeral(whole) && Numeral(rest) {
      assert forall i | a <= i < a + k :: s[i] == whole[i - a];
      assert forall i | a + k < i < |s| :: s[i] == rest[i - a - k - 1];
    }
  }

  lemma {:induction false} DoubledExactly(s: string)
    ensures IsDoubled(s, DoubleQuotes(s))
  {
    if s != "" {
      DoubledExactly(s[1..]);
      var doubled := DoubleQuotes(s);
      assert s[0] == '"' ==> doubled[..2] == "\"\"" && doubled[2..] == DoubleQuotes(s[1..]);
      assert s[0] != '"' ==> doubled[1..] == DoubleQuotes(s[1..]);
    }
  }

  lemma CellExactly(s: string)
    ensures IsCell(s, Cell(s))
  {
    NumberExactly(s);
    var guarded, cell := Guard(s), Cell(s);
    assert IsGuarded(s, guarded);
    DoubledExactly(guarded);
    if NeedsQuotes(guarded) {
      assert cell[1..|cell| - 1] == DoubleQuotes(guarded);
      var i :| 0 <= i < |guarded| && guarded[i] in {'"', ',', '\r', '\n'};
      assert IsSpecial(guarded[i]);
    }
  }

  lemma {:induction false} JoinedExactly(row: Row, cells: seq<string>)
    requires |cells| == |row| && forall i | 0 <= i < |row| :: cells[i] == Cell(row[i])
    ensures JoinCells(row) == Between(cells, ",")
    decreases |row|
  {
    if |row| > 1 {
      JoinedExactly(row[1..], cells[1..]);
    }
  }

  lemma LineExactly(row: Row)
    ensures IsLine(row, JoinCells(row))
  {
    var cells := seq(|row|, i requires 0 <= i < |row| => Cell(row[i]));
    JoinedExactly(row, cells);
    forall i | 0 <= i < |row| ensures IsCell(row[i], cells[i]) {
      CellExactly(row[i]);
    }
  }

  lemma {:induction false} PrintedExactly(rows: seq<Row>, lines: seq<string>)
    requires |lines| == |rows| && forall i | 0 <= i < |rows| :: lines[i] == JoinCells(rows[i])
    ensures Print(rows) == Between(lines + [""], "\r\n")
    decreases |rows|
  {
    if rows != [] {
      PrintedExactly(rows[1..], lines[1..]);
      assert (lines + [""])[1..] == lines[1..] + [""];
    }
  }

  /** What is written is the file told. */
  lemma FileExactly(rows: seq<Row>)
    ensures IsFile(rows, Print(rows))
  {
    var lines := seq(|rows|, i requires 0 <= i < |rows| => JoinCells(rows[i]));
    PrintedExactly(rows, lines);
    forall i | 0 <= i < |rows| ensures IsLine(rows[i], lines[i]) {
      LineExactly(rows[i]);
    }
  }

  /** Outside quotes, characters up to the next comma, line end or quote go to the field. A comma ends it, a line end
      the row with it, of whichever kind it is, and a quote opens quotes; at the end of the text a row that was begun is
      ended. */
  lemma PlainRun(s: string, rest: string, row: Row, field: string)
    requires Plain(s)
    ensures Scan(s, row, field, false) == if field + s == "" && row == [] then [] else [row + [field + s]]
    ensures Scan(s + ("," + rest), row, field, false) == Scan(rest, row + [field + s], "", false)
    ensures Scan(s + ("\n" + rest), row, field, false) == [row + [field + s]] + Scan(rest, [], "", false)
    ensures Scan(s + ("\r\n" + rest), row, field, false) == [row + [field + s]] + Scan(rest, [], "", false)
    ensures (rest == "" || rest[0] != '\n') ==>
      Scan(s + ("\r" + rest), row, field, false) == [row + [field + s]] + Scan(rest, [], "", false)
    ensures Scan(s + ("\"" + rest), row, field, false) == Scan(rest, row, field + s, true)
  {
    ScanPlain(s, "", row, field);
    assert s + "" == s;
    ScanPlain(s, "," + rest, row, field);
    ScanPlain(s, "\n" + rest, row, field);
    ScanPlain(s, "\r\n" + rest, row, field);
    ScanPlain(s, "\r" + rest, row, field);
    ScanPlain(s, "\"" + rest, row, field);
    assert ("," + rest)[1..] == rest && ("\n" + rest)[1..] == rest && ("\r" + rest)[1..] == rest;
    assert ("\r\n" + rest)[2..] == rest && ("\"" + rest)[1..] == rest;
  }

  /** Inside quotes everything up to the next quote goes to the field. Two quotes are one, and a single one closes
      them. */
  lemma {:induction false} QuotedRun(s: string, rest: string, row: Row, field: string)
    requires '"' !in s
    ensures Scan(s, row, field, true) == if field + s == "" && row == [] then [] else [row + [field + s]]
    ensures Scan(s + ("\"\"" + rest), row, field, true) == Scan(rest, row, field + s + "\"", true)
    ensures (rest == "" || rest[0] != '"') ==>
      Scan(s + ("\"" + rest), row, field, true) == Scan(rest, row, field + s, false)
    decreases |s|
  {
    var two, one := "\"\"" + rest, "\"" + rest;
    if s == "" {
      assert s + two == two && s + one == one && field + s == field;
      assert two[2..] == rest && one[1..] == rest;
    } else {
      QuotedRun(s[1..], rest, row, field + [s[0]]);
      assert (s + two)[1..] == s[1..] + two && (s + one)[1..] == s[1..] + one;
      assert field + [s[0]] + s[1..] == field + s;
    }
  }

  predicate Increasing(places: seq<nat>) {
    forall i, j | 0 <= i < j < |places| :: places[i] < places[j]
  }

  predicate HasText(row: Row) {
    exists i, k | 0 <= i < |row| && 0 <= k < |row[i]| :: !Space(row[i][k])
  }

  /** The rows at these places, which are all that hold some text, stand there in order. */
  ghost predicate KeptAt(rows: seq<Row>, kept: seq<Row>, places: seq<nat>) {
    && Increasing(places) && |kept| == |places|
    && (forall k: nat :: k in places <==> k < |rows| && HasText(rows[k]))
    && (forall i | 0 <= i < |places| :: places[i] < |rows| && kept[i] == rows[places[i]])
  }

  lemma {:induction false} KeptExactly(rows: seq<Row>) returns (places: seq<nat>)
    ensures KeptAt(rows, DropBlank(rows), places)
    decreases |rows|
  {
    if rows == [] {
      places := [];
    } else {
      var front, last := rows[..|rows| - 1], rows[|rows| - 1];
      var earlier := KeptExactly(front);
      DropBlankNext(rows);
      places := if HasText(last) then earlier + [|front|] else earlier;
      KeptNext(rows, DropBlank(front), earlier);
    }
  }

  lemma DropBlankNext(rows: seq<Row>)
    requires rows != []
    ensures
      var front, last := rows[..|rows| - 1], rows[|rows| - 1];
      DropBlank(rows) == if BlankRow(last) then DropBlank(front) else DropBlank(front) + [last]
  {
    var front, last := rows[..|rows| - 1], rows[|rows| - 1];
    assert front + [last] == rows;
    DropBlankAppend(front, [last]);
    assert DropBlank([last]) == if BlankRow(last) then [] else [last];
  }

  lemma KeptNext(rows: seq<Row>, kept: seq<Row>, places: seq<nat>)
    requires rows != [] && KeptAt(rows[..|rows| - 1], kept, places)
    ensures
      var n := |rows| - 1;
      && (BlankRow(rows[n]) <==> !HasText(rows[n]))
      && if HasText(rows[n]) then KeptAt(rows, kept + [rows[n]], places + [n]) else KeptAt(rows, kept, places)
  {
    assert forall i | 0 <= i < |places| :: places[i] in places;
  }

  // ------------------------------------------------------------ appending to a statement

  predicate LineBreak(c: char) {
    c == '\n' || c == '\r'
  }

  /** The parser is outside quotes at the end of the text. */
  predicate Outside(t: string, quoted: bool)
    decreases |t|
  {
    if t == "" then !quoted
    else if quoted && t[0] == '"' && |t| > 1 && t[1] == '"' then Outside(t[2..], true)
    else Outside(t[1..], quoted != (t[0] == '"'))
  }

  /** What comes after `t` starts on a line of its own: `t` ends with a line break, or what comes begins with one. */
  predicate Continues(t: string, more: string) {
    Outside(t, false) && (t == "" || more == "" || LineBreak(t[|t| - 1]) || LineBreak(more[0]))
  }

  /** What follows a line break; a carriage return and a line feed are one. */
  function AfterBreak(t: string): string
    requires t != ""
  {
    if t[0] == '\r' && |t| > 1 && t[1] == '\n' then t[2..] else t[1..]
  }

  lemma AfterBreakAppend(t: string, more: string)
    requires t != "" && !(t == "\r" && more != "" && more[0] == '\n')
    ensures AfterBreak(t + more) == AfterBreak(t) + more
  {
    assert (t + more)[1..] == t[1..] + more && (|t| > 1 ==> (t + more)[2..] == t[2..] + more);
  }

  /** A line break ends the row begun, if there is one, and adds no row of its own. */
  lemma BreakEndsRow(t: string, row: Row, field: string)
    requires t != "" && LineBreak(t[0])
    ensures DropBlank(Scan(t, row, field, false)) == DropBlank([row + [field]]) + Parse(AfterBreak(t))
  {
    DropBlankAppend([row + [field]], Scan(AfterBreak(t), [], "", false));
  }

  /** A line break in front adds nothing. */
  lemma LeadingBreak(t: string)
    requires t != "" && LineBreak(t[0])
    ensures Parse(t) == Parse(AfterBreak(t))
  {
    BreakEndsRow(t, [], "");
    var empty: Row := [];
    assert BlankRow(empty + [""]);
    assert DropBlank([empty + [""]]) == [];
  }

  lemma ScanNothingMore(more: string, row: Row, field: string)
    requires more == "" || LineBreak(more[0]) || (row == [] && field == "")
    ensures DropBlank(Scan(more, row, field, false)) == DropBlank(Scan("", row, field, false)) + Parse(more)
  {
    if more != "" && LineBreak(more[0]) {
      BreakEndsRow(more, row, field);
      LeadingBreak(more);
      if row == [] && field == "" {
        assert BlankRow(row + [field]);
        assert DropBlank([row + [field]]) == [];
      }
    }
  }

  lemma {:induction false} ScanAppend(t: string, more: string, row: Row, field: string, quoted: bool)
    requires Outside(t, quoted)
    requires more == "" || LineBreak(more[0]) || if t == "" then row == [] && field == "" else LineBreak(t[|t| - 1])
    ensures DropBlank(Scan(t + more, row, field, quoted)) == DropBlank(Scan(t, row, field, quoted)) + Parse(more)
    decreases |t|
  {
    if t == "" {
      assert t + more == more;
      ScanNothingMore(more, row, field);
    } else {
      assert (t + more)[0] == t[0] && (t + more)[1..] == t[1..] + more;
      if |t| > 1 {
        assert (t + more)[1] == t[1] && (t + more)[2..] == t[2..] + more;
      }
      if quoted && t[0] == '"' && |t| > 1 && t[1] == '"' {
        ScanAppend(t[2..], more, row, field + "\"", true);
      } else if quoted && t[0] == '"' {
        ScanAppend(t[1..], more, row, field, false);
      } else if quoted {
        ScanAppend(t[1..], more, row, field + [t[0]], true);
      } else if t[0] == '"' {
        ScanAppend(t[1..], more, row, field, true);
      } else if t[0] == ',' {
        ScanAppend(t[1..], more, row + [field], "", false);
      } else if LineBreak(t[0]) {
        BreakAppend(t, more, row, field);
      } else {
        ScanAppend(t[1..], more, row, field + [t[0]], false);
      }
    }
  }

  /** The same at a line break, which a following line feed may belong to. */
  lemma {:induction false} BreakAppend(t: string, more: string, row: Row, field: string)
    requires t != "" && LineBreak(t[0]) && Outside(t, false)
    requires more == "" || LineBreak(more[0]) || LineBreak(t[|t| - 1])
    ensures DropBlank(Scan(t + more, row, field, false)) == DropBlank(Scan(t, row, field, false)) + Parse(more)
    decreases |t|, 0
  {
    BreakEndsRow(t, row, field);
    BreakEndsRow(t + more, row, field);
    if t == "\r" && more != "" && more[0] == '\n' {
      assert AfterBreak(t + more) == AfterBreak(more);
      LeadingBreak(more);
      NothingParses();
    } else {
      AfterBreakAppend(t, more);
      AfterBreakOutside(t);
      ScanAppend(AfterBreak(t), more, [], "", false);
    }
  }

  lemma NothingParses()
    ensures Parse("") == []
  {
  }

  lemma AfterBreakOutside(t: string)
    requires t != "" && LineBreak(t[0]) && Outside(t, false)
    ensures Outside(AfterBreak(t), false)
    ensures AfterBreak(t) == "" || AfterBreak(t)[|AfterBreak(t)| - 1] == t[|t| - 1]
  {
  }

  lemma {:induction false} OutsideAppend(t: string, more: string, quoted: bool)
    requires Outside(t, quoted) && Outside(more, false)
    requires t == "" || more == "" || LineBreak(t[|t| - 1]) || LineBreak(more[0])
    ensures Outside(t + more, quoted)
    decreases |t|
  {
    if t == "" {
      assert t + more == more;
    } else {
      assert (t + more)[0] == t[0] && (t + more)[1..] == t[1..] + more;
      if quoted && t[0] == '"' && |t| > 1 && t[1] == '"' {
        assert (t + more)[1] == t[1] && (t + more)[2..] == t[2..] + more;
        OutsideAppend(t[2..], more, true);
      } else {
        OutsideAppend(t[1..], more, quoted != (t[0] == '"'));
      }
    }
  }

  /** Lines appended to a text add rows and change none of the earlier ones, whether the text ended its last line or the
      line break only comes with what is appended. */
  lemma ParseAppend(t: string, more: string)
    requires Continues(t, more)
    ensures Parse(t + more) == Parse(t) + Parse(more)
  {
    ScanAppend(t, more, [], "", false);
  }

  /** Outside quotes a last line break changes nothing. */
  lemma LastBreak(t: string, end: string)
    requires Outside(t, false) && end in {"\n", "\r", "\r\n"}
    ensures Parse(t + end) == Parse(t)
  {
    ParseAppend(t, end);
    LeadingBreak(end);
    NothingParses();
    assert AfterBreak(end) == "";
  }

  // ------------------------------------------------------------ a written file can be appended to

  lemma {:induction false} OutsidePlain(s: string, rest: string)
    requires Plain(s)
    ensures Outside(s + rest, false) == Outside(rest, false)
    decreases |s|
  {
    if s == "" {
      assert s + rest == rest;
    } else {
      assert (s + rest)[1..] == s[1..] + rest;
      assert forall i | 0 <= i < |s[1..]| :: s[1..][i] == s[i + 1];
      OutsidePlain(s[1..], rest);
    }
  }

  lemma {:induction false} OutsideQuoted(s: string, rest: string)
    requires rest == "" || rest[0] != '"'
    ensures Outside(DoubleQuotes(s) + "\"" + rest, true) == Outside(rest, false)
    decreases |s|
  {
    var t := DoubleQuotes(s) + "\"" + rest;
    if s == "" {
      assert t[1..] == rest;
    } else {
      var lead := if s[0] == '"' then "\"\"" else [s[0]];
      var tail := DoubleQuotes(s[1..]) + "\"" + rest;
      assert t == lead + tail;
      assert t[|lead|..] == tail;
      OutsideQuoted(s[1..], rest);
    }
  }

  lemma OutsideQuote(s: string, rest: string)
    requires rest == "" || rest[0] != '"'
    ensures Outside(Quote(s) + rest, false) == Outside(rest, false)
  {
    if NeedsQuotes(s) {
      var t := "\"" + (DoubleQuotes(s) + "\"" + rest);
      Requote(DoubleQuotes(s), rest);
      assert t[0] == '"' && t[1..] == DoubleQuotes(s) + "\"" + rest;
      OutsideQuoted(s, rest);
    } else {
      OutsidePlain(s, rest);
    }
  }

  lemma {:induction false} OutsideCells(cells: Row, rest: string)
    requires rest == "" || rest[0] != '"'
    ensures Outside(JoinCells(cells) + rest, false) == Outside(rest, false)
    decreases |cells|
  {
    if cells == [] {
      assert JoinCells(cells) + rest == rest;
    } else if |cells| == 1 {
      OutsideQuote(Guard(cells[0]), rest);
    } else {
      var end := "," + (JoinCells(cells[1..]) + rest);
      JoinSplit(cells, rest);
      OutsideQuote(Guard(cells[0]), end);
      assert end[1..] == JoinCells(cells[1..]) + rest;
      OutsideCells(cells[1..], rest);
    }
  }

  lemma {:induction false} PrintIsOutside(rows: seq<Row>)
    ensures Outside(Print(rows), false)
    ensures Print(rows) != "" ==> Print(rows)[|Print(rows)| - 1] == '\n'
  {
    if rows != [] {
      var end := "\r\n" + Print(rows[1..]);
      assert Print(rows) == JoinCells(rows[0]) + end;
      PrintIsOutside(rows[1..]);
      OutsideCells(rows[0], end);
      assert end[1..][1..] == Print(rows[1..]);
      assert end[|end| - 1] == '\n';
    }
  }

  /** Whatever is appended to a written file starts on a line of its own. */
  lemma PrintedContinues(rows: seq<Row>, more: string)
    ensures Continues(Print(rows), more)
  {
    PrintIsOutside(rows);
  }

  lemma {:induction false} DoubleQuotesLength(s: string)
    ensures |DoubleQuotes(s)| <= 2 * |s|
  {
    if s != "" {
      DoubleQuotesLength(s[1..]);
    }
  }

  function CellLengths(cells: Row): nat {
    if cells == [] then 0 else |cells[0]| + CellLengths(cells[1..])
  }

  lemma {:induction false} JoinedLength(cells: Row)
    ensures |JoinCells(cells)| <= 2 * CellLengths(cells) + 5 * |cells|
    decreases |cells|
  {
    if cells != [] {
      DoubleQuotesLength(Guard(cells[0]));
      JoinedLength(cells[1..]);
    }
  }

  /** Rows that are not blank and hold no formula are written and read back as they are. */
  predicate Keeps(row: Row) {
    GuardRow(row) == row && !BlankRow(row)
  }

  lemma {:induction false} KeptRows(rows: seq<Row>)
    requires forall row | row in rows :: Keeps(row)
    ensures DropBlank(GuardAll(rows)) == rows
  {
    if rows != [] {
      assert rows[0] in rows && forall row | row in rows[1..] :: row in rows;
      KeptRows(rows[1..]);
    }
  }

  lemma KeptReadBack(rows: seq<Row>)
    requires forall row | row in rows :: Keeps(row)
    ensures Parse(Print(rows)) == rows
  {
    RoundTrip(rows);
    KeptRows(rows);
  }
}
