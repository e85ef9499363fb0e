/** A statement that outgrows what the journal takes at once. */
module GrownStatement {
  import Csv
  import opened Basics
  import opened Accounting
  import opened Statement
  import opened StatementReader
  import Amounts

  const HEADER: Csv.Row := ["date", "amount", "currency", "invoicenumber", "description"]
  const COLUMNS: Columns := Columns(0, 1, Some(2), Some(3), Some(4))
  const PROVIDER: Source := Source("source", "account", "provider", Payment)

  /** The cells of a charge: its day, a number and a currency code. */
  datatype Sample = Sample(date: string, number: string, code: string)

  predicate Good(x: Sample) {
    && CalendarDate(x.date) && CurrencyCode(x.code)
    && Amounts.Plain(x.number) && |x.number| <= 20
    && Amounts.Read(x.number).Some? && Bounded(Amounts.Read(x.number).value)
  }

  function ChargeOf(x: Sample): Facts
    requires Good(x)
  {
    Facts(x.date, Amounts.Read(x.number).value, x.code, "x")
  }

  function Line(x: Sample, reference: string): Csv.Row {
    [x.date, x.number, x.code, reference, "x"]
  }

  /** A header and `n` times one line. */
  function Sheet(header: Csv.Row, line: Csv.Row, n: nat): seq<Csv.Row> {
    if n == 0 then [header] else Sheet(header, line, n - 1) + [line]
  }

  function Printed(line: Csv.Row): string {
    Csv.JoinCells(line) + "\r\n"
  }

  /** A thousand lines with one and the same reference. */
  function Long(x: Sample): string {
    Csv.Print(Sheet(HEADER, Line(x, "r"), 1000))
  }

  /** One more line, of another charge. */
  function More(x: Sample): string {
    Printed(Line(x, "s"))
  }

  // ------------------------------------------------------------ a printed sheet and its rows

  lemma {:induction false} SheetRows(header: Csv.Row, line: Csv.Row, n: nat)
    ensures |Sheet(header, line, n)| == n + 1 && Sheet(header, line, n)[0] == header
    ensures forall i | 0 < i <= n :: Sheet(header, line, n)[i] == line
  {
    if n > 0 {
      SheetRows(header, line, n - 1);
    }
  }

  lemma PrintOne(header: Csv.Row)
    ensures Csv.Print([header]) == Printed(header)
  {
    assert [header][1..] == [] && Csv.Print([header][1..]) == "";
  }

  lemma {:induction false} SheetLength(header: Csv.Row, line: Csv.Row, n: nat)
    requires |Printed(header)| <= 200 && |Printed(line)| <= 200
    ensures |Csv.Print(Sheet(header, line, n))| <= 200 * (n + 1)
  {
    if n == 0 {
      PrintOne(header);
    } else {
      SheetLength(header, line, n - 1);
      Csv.PrintAppend(Sheet(header, line, n - 1), line);
    }
  }

  /** A printed sheet starts with its header, so there is no byte order mark to strip. */
  lemma TextStarts(rows: seq<Csv.Row>, header: Csv.Row)
    requires rows != [] && rows[0] == header && |header| > 1 && header[0] == "date"
    ensures Csv.Print(rows) != "" && StripMark(Csv.Print(rows)) == Csv.Print(rows)
    ensures !Csv.BlankCell(Csv.Print(rows))
  {
    var text := Csv.Print(rows);
    assert Csv.Guard("date") == "date";
    assert Csv.JoinCells(header)[0] in {'d', '"'};
    assert text[0] == Csv.JoinCells(header)[0];
    assert !Csv.Space('d') && !Csv.Space('"');
  }

  lemma LongerText(header: Csv.Row, line: Csv.Row, n: nat, last: Csv.Row)
    requires |header| > 1 && header[0] == "date"
    ensures Csv.Print(Sheet(header, line, n)) + Printed(last) == Csv.Print(Sheet(header, line, n) + [last])
    ensures Continues(Csv.Print(Sheet(header, line, n)), Printed(last))
  {
    Csv.PrintAppend(Sheet(header, line, n), last);
    SheetRows(header, line, n);
    TextStarts(Sheet(header, line, n), header);
    Csv.PrintedContinues(Sheet(header, line, n), Printed(last));
  }

  lemma RowsOfSheet(header: Csv.Row, line: Csv.Row, n: nat, last: Csv.Row)
    requires |header| > 1 && header[0] == "date" && Csv.Keeps(header) && Csv.Keeps(line) && Csv.Keeps(last)
    ensures Rows(Csv.Print(Sheet(header, line, n))) == Sheet(header, line, n)
    ensures Rows(Csv.Print(Sheet(header, line, n)) + Printed(last)) == Sheet(header, line, n) + [last]
  {
    SheetRows(header, line, n);
    LongerText(header, line, n, last);
    TextStarts(Sheet(header, line, n), header);
    TextStarts(Sheet(header, line, n) + [last], header);
    Csv.KeptReadBack(Sheet(header, line, n));
    Csv.KeptReadBack(Sheet(header, line, n) + [last]);
  }

  lemma {:induction false} ReferencedOffer(reader: Reader, source: Source, readings: seq<Reading>, f: Facts, id: string)
    requires id != "" && forall i | 0 <= i < |readings| :: readings[i] == Charge(f, id)
    ensures |Records(reader, source, readings)| == |readings|
    ensures forall i | 0 <= i < |readings| :: Records(reader, source, readings)[i] == RecordOf(source, id, f)
  {
    if readings != [] {
      var front := readings[..|readings| - 1];
      ReferencedOffer(reader, source, front, f, id);
      assert front + [Charge(f, id)] == readings;
      RecordsPush(reader, source, front, Charge(f, id));
    }
  }

  lemma ReadAllPush(reader: Reader, header: Csv.Row, rows: seq<Csv.Row>, last: Csv.Row)
    ensures ReadAll(reader, header, rows + [last]) == ReadAll(reader, header, rows) + [reader.read(header, last)]
  {
  }

  lemma ReadingsOf(reader: Reader, text: string, header: Csv.Row, rows: seq<Csv.Row>)
    requires Rows(text) == [header] + rows
    ensures Readings(reader, text) == ReadAll(reader, header, rows)
  {
    assert Rows(text)[1..] == rows;
  }

  lemma SheetReadings(reader: Reader, header: Csv.Row, line: Csv.Row, n: nat, last: Csv.Row)
    requires |header| > 1 && header[0] == "date" && Csv.Keeps(header) && Csv.Keeps(line) && Csv.Keeps(last)
    ensures
      var text := Csv.Print(Sheet(header, line, n));
      && Rows(text) != [] && Rows(text + Printed(last)) != []
      && |Readings(reader, text)| == n
      && (forall i | 0 <= i < n :: Readings(reader, text)[i] == reader.read(header, line))
      && Readings(reader, text + Printed(last)) == Readings(reader, text) + [reader.read(header, last)]
  {
    var sheet := Sheet(header, line, n);
    var text := Csv.Print(sheet);
    RowsOfSheet(header, line, n, last);
    SheetRows(header, line, n);
    assert sheet == [header] + sheet[1..] && sheet + [last] == [header] + (sheet[1..] + [last]);
    ReadingsOf(reader, text, header, sheet[1..]);
    ReadingsOf(reader, text + Printed(last), header, sheet[1..] + [last]);
    ReadAllPush(reader, header, sheet[1..], last);
  }

  /** What a sheet of one charge, and one other charge more, offers to the journal. */
  lemma SheetOffers(reader: Reader, source: Source, header: Csv.Row, line: Csv.Row, n: nat, last: Csv.Row, f: Facts,
                    id: string, other: string)
    requires |header| > 1 && header[0] == "date" && Csv.Keeps(header) && Csv.Keeps(line) && Csv.Keeps(last)
    requires id != "" && reader.read(header, line) == Charge(f, id)
    requires other != "" && reader.read(header, last) == Charge(f, other)
    ensures
      var text := Csv.Print(Sheet(header, line, n));
      && Rows(text) != [] && Rows(text + Printed(last)) != []
      && |Offer(reader, source, text)| == n
      && (forall i | 0 <= i < n :: Offer(reader, source, text)[i] == RecordOf(source, id, f))
      && Offer(reader, source, text + Printed(last)) == Offer(reader, source, text) + [RecordOf(source, other, f)]
  {
    var text := Csv.Print(Sheet(header, line, n));
    SheetReadings(reader, header, line, n, last);
    ReferencedOffer(reader, source, Readings(reader, text), f, id);
    RecordsPush(reader, source, Readings(reader, text), Charge(f, other));
  }

  lemma PrintedIsRead(reader: Reader, rows: seq<Csv.Row>, header: Csv.Row)
    requires 2 <= |rows| <= MAX_ROWS + 1 && rows[0] == header && |header| > 1 && header[0] == "date"
    requires Rows(Csv.Print(rows)) == rows && |Csv.Print(rows)| <= MAX_BYTES && reader.maps(header)
    ensures Refused(reader, Csv.Print(rows)).None?
  {
    TextStarts(rows, header);
  }

  /** Neither text is refused by the importer. */
  lemma SheetIsRead(reader: Reader, header: Csv.Row, line: Csv.Row, last: Csv.Row)
    requires |header| > 1 && header[0] == "date" && Csv.Keeps(header) && Csv.Keeps(line) && Csv.Keeps(last)
    requires |Printed(header)| <= 200 && |Printed(line)| <= 200 && |Printed(last)| <= 200 && reader.maps(header)
    ensures Refused(reader, Csv.Print(Sheet(header, line, 1000))).None?
    ensures Refused(reader, Csv.Print(Sheet(header, line, 1000)) + Printed(last)).None?
  {
    var sheet := Sheet(header, line, 1000);
    SheetLength(header, line, 1000);
    RowsOfSheet(header, line, 1000, last);
    SheetRows(header, line, 1000);
    LongerText(header, line, 1000, last);
    PrintedIsRead(reader, sheet, header);
    PrintedIsRead(reader, sheet + [last], header);
  }

  // ------------------------------------------------------------ this sheet

  lemma HeaderKept()
    ensures Csv.Keeps(HEADER)
  {
    assert !Csv.Space(HEADER[0][0]);
    assert Csv.GuardRow(HEADER) == HEADER;
  }

  lemma CellKept(s: string)
    requires s == "" || s[0] !in {'=', '+', '-', '@', '\t', '\r'}
    ensures Csv.Guard(s) == s
  {
  }

  lemma LineKept(x: Sample, reference: string)
    requires Good(x) && (reference == "r" || reference == "s")
    ensures Csv.Keeps(Line(x, reference))
  {
    var line := Line(x, reference);
    assert x.date[0] == x.date[..4][0];
    Amounts.PlainCharacters(x.number);
    CellKept(x.date);
    CellKept(x.number);
    CellKept(x.code);
    CellKept(reference);
    CellKept("x");
    assert !Csv.BlankCell(line[4]) by {
      assert !Csv.Space(line[4][0]);
    }
    assert Csv.GuardRow(line) == line;
  }

  lemma OneMoreCell(cell: string, rest: Csv.Row)
    ensures Csv.CellLengths([cell] + rest) == |cell| + Csv.CellLengths(rest)
  {
    assert ([cell] + rest)[1..] == rest;
  }

  lemma FiveLengths(a: string, b: string, c: string, d: string, e: string)
    ensures |Printed([a, b, c, d, e])| <= 2 * (|a| + |b| + |c| + |d| + |e|) + 27
  {
    OneMoreCell(e, []);
    OneMoreCell(d, [e]);
    OneMoreCell(c, [d, e]);
    OneMoreCell(b, [c, d, e]);
    OneMoreCell(a, [b, c, d, e]);
    assert [e] + [] == [e] && [d] + [e] == [d, e] && [c] + [d, e] == [c, d, e];
    assert [b] + [c, d, e] == [b, c, d, e] && [a] + [b, c, d, e] == [a, b, c, d, e];
    Csv.JoinedLength([a, b, c, d, e]);
  }

  lemma Lengths(x: Sample)
    requires Good(x)
    ensures |Printed(HEADER)| <= 200 && |Printed(Line(x, "r"))| <= 200 && |Printed(Line(x, "s"))| <= 200
  {
    FiveLengths("date", "amount", "currency", "invoicenumber", "description");
    FiveLengths(x.date, x.number, x.code, "r", "x");
    FiveLengths(x.date, x.number, x.code, "s", "x");
  }

  // ------------------------------------------------------------ what the importer reads

  /** No column is named, and case mapping leaves ASCII letters of its own case alone. */
  ghost predicate Usual(settings: Settings) {
    && settings.mapping == Mapping(None, None, None, None, None)
    && (forall s: string :: (forall c | c in s :: 'a' <= c <= 'z') ==> settings.lower(s) == s)
    && (forall s: string :: (forall c | c in s :: 'A' <= c <= 'Z') ==> settings.upper(s) == s)
  }

  lemma {:induction false} PlainestKeeps(s: string)
    requires forall c | c in s :: 'a' <= c <= 'z'
    ensures Plainest(s) == s
  {
    if s != "" {
      assert s[0] in s && forall c | c in s[1..] :: c in s;
      PlainestKeeps(s[1..]);
    }
  }

  lemma HeaderCell(s: string, settings: Settings)
    requires Usual(settings) && s != "" && forall c | c in s :: 'a' <= c <= 'z'
    ensures Trim(s) == s && Normal(s, settings.lower) == s
  {
    assert s[0] in s && s[|s| - 1] in s;
    TrimKeeps(s);
    PlainestKeeps(s);
  }

  lemma HeaderNames(settings: Settings)
    requires Usual(settings)
    ensures Trimmed(HEADER) == HEADER && NamesOf(HEADER, settings) == HEADER
  {
    forall i | 0 <= i < |HEADER| ensures Trim(HEADER[i]) == HEADER[i]
      ensures Normal(HEADER[i], settings.lower) == HEADER[i]
    {
      HeaderCell(HEADER[i], settings);
    }
  }

  lemma Places()
    ensures Place(HEADER, "date") == Some(0) && Place(HEADER, "amount") == Some(1)
    ensures Place(HEADER, "currency") == Some(2) && Place(HEADER, "invoicenumber") == Some(3)
    ensures Place(HEADER, "description") == Some(4)
  {
    assert |HEADER[0]| == 4 && |HEADER[1]| == 6 && |HEADER[2]| == 8 && |HEADER[3]| == 13 && |HEADER[4]| == 11;
  }

  lemma HeaderColumns(settings: Settings)
    requires Usual(settings)
    ensures ColumnsOf(HEADER, settings) == Some(COLUMNS)
  {
    HeaderNames(settings);
    Places();
  }

  lemma DateExists()
    ensures CalendarDate("2024-01-01")
  {
    var d := "2024-01-01";
    assert d[..4] == "2024" && d[5..7] == "01" && d[8..] == "01";
    assert "0"[..0] == "" && "01"[..1] == "0";
    assert Number("0") == 0;
    assert Number("01") == 1;
  }

  lemma CellsOfLine(x: Sample, reference: string)
    requires Good(x) && (reference == "r" || reference == "s")
    ensures
      var line := Line(x, reference);
      && At(line, Some(0)) == x.date && At(line, Some(1)) == x.number && At(line, Some(2)) == x.code
      && At(line, Some(3)) == reference && At(line, Some(4)) == "x"
  {
    DayIsNoSpace(x.date);
    TrimKeeps(x.date);
    PlainIsTrimmed(x.number);
    TrimKeeps(x.code);
    TrimKeeps("x");
    TrimKeeps(reference);
  }

  lemma LineIsRead(settings: Settings, x: Sample, reference: string)
    requires Usual(settings) && Good(x) && (reference == "r" || reference == "s")
    ensures ReaderOf(settings).maps(HEADER)
    ensures ReaderOf(settings).read(HEADER, Line(x, reference)) == Charge(ChargeOf(x), reference)
  {
    HeaderColumns(settings);
    CellsOfLine(x, reference);
    IsoReadsBack(x.date, settings.format);
    PlainMoney(x.number);
    assert forall c | c in x.code :: 'A' <= c <= 'Z';
    RowReadsAs(COLUMNS, Line(x, reference), settings, ChargeOf(x), reference);
  }

  /** For example a single dollar. */
  lemma SampleExists()
    ensures Good(Sample("2024-01-01", "1", "USD"))
  {
    DateExists();
    Amounts.WholeReads("1");
    assert "1"[..0] == "" && Number("1") == 1;
    assert Amounts.Normalised("1") == "1";
  }

  // ------------------------------------------------------------ what the journal takes

  lemma IsText(s: string)
    requires s != "" && !Csv.Space(s[0]) && |s| <= 200
    ensures Text(s)
  {
  }

  lemma ChargeIsValid(x: Sample, reference: string)
    requires Good(x) && (reference == "r" || reference == "s")
    ensures Valid(RecordOf(PROVIDER, reference, ChargeOf(x)))
  {
    IsText("source");
    IsText(reference);
    IsText("account");
    IsText("provider");
    FactsAreValidExactly(ChargeOf(x), PROVIDER, reference);
  }

  /** A batch of one record many times over conflicts with nothing, and stores that one id. */
  lemma OneRecordOnly(batch: seq<Record>, one: Record)
    requires forall i | 0 <= i < |batch| :: batch[i] == one
    ensures Acceptable([], batch)
    ensures forall id :: Known(Appended([], batch), id) ==> id == one.id
  {
    var none: seq<Record> := [];
    assert none + batch == batch;
    AppendedKnows(none, batch);
  }

  lemma NothingToConflict(hash: string -> string, inputs: seq<Input>, input: Input, now: string)
    requires forall i | 0 <= i < |inputs| :: inputs[i] == input
    ensures Acceptable([], ToRecords(hash, inputs, now))
    ensures forall id :: Known(Appended([], ToRecords(hash, inputs, now)), id) ==> id == ToRecord(hash, input, now).id
  {
    OneRecordOnly(ToRecords(hash, inputs, now), ToRecord(hash, input, now));
  }

  /** A statement of a thousand readable lines is taken; grown by one line, of a new and valid charge, the importer
      still reads it, but the journal refuses it as a whole and nothing is inserted. Of the hash it is assumed that it
      tells the two references apart. */
  lemma OneLineTooMany(settings: Settings, x: Sample, hash: string -> string, now: string, later: string)
    requires Usual(settings) && Good(x) && hash("source" + "\0" + "r") != hash("source" + "\0" + "s")
    ensures Continues(Long(x), More(x)) && Rows(Long(x) + More(x)) != []
    ensures
      var reader := ReaderOf(settings);
      var stored := Posted(hash, reader, PROVIDER, [], Long(x), now);
      && Taken(hash, reader, PROVIDER, [], Long(x), now)
      && Refused(reader, Long(x) + More(x)).None?
      && AllValid(Offer(reader, PROVIDER, Long(x) + More(x)))
      && RecordOf(PROVIDER, "s", ChargeOf(x)) in Offer(reader, PROVIDER, Long(x) + More(x))
      && !Known(stored, ToRecord(hash, RecordOf(PROVIDER, "s", ChargeOf(x)), later).id)
      && !Taken(hash, reader, PROVIDER, stored, Long(x) + More(x), later)
      && Posted(hash, reader, PROVIDER, stored, Long(x) + More(x), later) == stored
  {
    HeaderKept();
    LineKept(x, "r");
    LineKept(x, "s");
    Lengths(x);
    LineIsRead(settings, x, "r");
    LineIsRead(settings, x, "s");
    ChargeIsValid(x, "r");
    ChargeIsValid(x, "s");
    OneSheetTooLong(ReaderOf(settings), hash, HEADER, Line(x, "r"), Line(x, "s"), ChargeOf(x), "r", "s", now, later);
  }

  /** A sheet of a thousand times one charge, and one other charge more. */
  lemma OneSheetTooLong(reader: Reader, hash: string -> string, header: Csv.Row, line: Csv.Row, last: Csv.Row, f: Facts,
                        id: string, other: string, now: string, later: string)
    requires |header| > 1 && header[0] == "date" && Csv.Keeps(header) && Csv.Keeps(line) && Csv.Keeps(last)
    requires |Printed(header)| <= 200 && |Printed(line)| <= 200 && |Printed(last)| <= 200 && reader.maps(header)
    requires id != "" && reader.read(header, line) == Charge(f, id) && Valid(RecordOf(PROVIDER, id, f))
    requires other != "" && reader.read(header, last) == Charge(f, other) && Valid(RecordOf(PROVIDER, other, f))
    requires hash("source" + "\0" + id) != hash("source" + "\0" + other)
    ensures
      var text, more := Csv.Print(Sheet(header, line, 1000)), Printed(last);
      var stored := Posted(hash, reader, PROVIDER, [], text, now);
      && Continues(text, more) && Rows(text + more) != []
      && Taken(hash, reader, PROVIDER, [], text, now)
      && Refused(reader, text + more).None?
      && AllValid(Offer(reader, PROVIDER, text + more))
      && RecordOf(PROVIDER, other, f) in Offer(reader, PROVIDER, text + more)
      && !Known(stored, ToRecord(hash, RecordOf(PROVIDER, other, f), later).id)
      && !Taken(hash, reader, PROVIDER, stored, text + more, later)
      && Posted(hash, reader, PROVIDER, stored, text + more, later) == stored
  {
    LongerText(header, line, 1000, last);
    SheetIsRead(reader, header, line, last);
    SheetOffers(reader, PROVIDER, header, line, 1000, last, f, id, other);
    TooLong(hash, Offer(reader, PROVIDER, Csv.Print(Sheet(header, line, 1000))), RecordOf(PROVIDER, id, f),
            RecordOf(PROVIDER, other, f), now, later);
  }

  /** A full batch of one charge, and one other charge more. */
  lemma TooLong(hash: string -> string, first: seq<Input>, one: Input, other: Input, now: string, later: string)
    requires |first| == MAX_BATCH && forall i | 0 <= i < |first| :: first[i] == one
    requires Valid(one) && Valid(other) && ToRecord(hash, other, later).id != ToRecord(hash, one, now).id
    ensures Accepted([], hash, first, now) && AllValid(first + [other])
    ensures
      var stored := Imported([], hash, first, now);
      && !Known(stored, ToRecord(hash, other, later).id)
      && !Accepted(stored, hash, first + [other], later) && Imported(stored, hash, first + [other], later) == stored
  {
    NothingToConflict(hash, first, one, now);
  }
}
