/** How a statement's cells are read: which column is which, dates, and money with its currency. */
module StatementReader {
  import opened Basics
  import opened Csv
  import opened Accounting
  import opened Statement
  import opened Amounts

  // ------------------------------------------------------------ columns

  /** Header names given by the caller, each in place of the common ones. */
  datatype Mapping = Mapping(date: Option<string>, amount: Option<string>, currency: Option<string>, id: Option<string>,
                             description: Option<string>)

  datatype DateFormat = Iso | MonthFirst | DayFirst

  /** `currency` is the default, or empty. Case mapping beyond ASCII and the digest of a row's facts are parameters. */
  datatype Settings = Settings(mapping: Mapping, format: DateFormat, currency: string, lower: string -> string,
                               upper: string -> string, digest: Facts -> string)

  function Trim(s: string): string {
    if s == "" then ""
    else if Space(s[0]) then Trim(s[1..])
    else if Space(s[|s| - 1]) then Trim(s[..|s| - 1])
    else s
  }

  function Plainest(s: string): string {
    if s == "" then ""
    else (if 'a' <= s[0] <= 'z' || '0' <= s[0] <= '9' then [s[0]] else "") + Plainest(s[1..])
  }

  function Normal(name: string, lower: string -> string): string {
    Plainest(lower(name))
  }

  function Names(columns: Row, lower: string -> string): seq<string> {
    seq(|columns|, i requires 0 <= i < |columns| => Normal(columns[i], lower))
  }

  /** The first place of a name. */
  function Place(names: seq<string>, name: string): (k: Option<nat>)
    ensures k.None? <==> name !in names
    ensures k.Some? ==> k.value < |names| && names[k.value] == name && name !in names[..k.value]
  {
    if names == [] then None
    else if names[0] == name then Some(0)
    else
      var rest := Place(names[1..], name);
      assert names == [names[0]] + names[1..];
      if rest.None? then None else Some(rest.value + 1)
  }

  function FirstPresent(names: seq<string>, candidates: seq<string>): Option<nat> {
    if candidates == [] then None
    else if Place(names, candidates[0]).Some? then Place(names, candidates[0])
    else FirstPresent(names, candidates[1..])
  }

  const DATE_NAMES := ["date", "invoicedate", "transactiondate", "createdat", "created", "day", "billingdate", "paidat",
                       "periodstart"]
  const AMOUNT_NAMES := ["amount", "amountusd", "total", "totalusd", "cost", "costusd", "amountdue", "charge", "spend",
                         "netamount"]
  const CURRENCY_NAMES := ["currency", "currencycode"]
  const ID_NAMES := ["invoicenumber", "invoiceid", "invoice", "id", "reference", "transactionid", "receiptnumber",
                     "number"]
  const DESCRIPTION_NAMES := ["description", "memo", "item", "lineitem", "model", "workspace", "product", "service",
                              "note"]

  /** The column of a field: the one named, which must be there, or else the first common name present. */
  function FindColumn(names: seq<string>, named: Option<string>, candidates: seq<string>, lower: string -> string)
    : Found
  {
    if named.Some? then
      var k := Place(names, Normal(named.value, lower));
      if k.None? then Err(()) else Ok(k)
    else Ok(FirstPresent(names, candidates))
  }

  datatype Columns = Columns(date: nat, amount: nat, currency: Option<nat>, id: Option<nat>, description: Option<nat>)

  /** The names of a header as they are compared. */
  function NamesOf(header: Row, settings: Settings): seq<string> {
    Names(Trimmed(header), settings.lower)
  }

  function Trimmed(header: Row): Row {
    seq(|header|, i requires 0 <= i < |header| => Trim(header[i]))
  }

  /** `resolveMapping`: nothing when a named column is missing, or there is no date or amount column. */
  function ColumnsOf(header: Row, settings: Settings): Option<Columns> {
    var names, m, low := NamesOf(header, settings), settings.mapping, settings.lower;
    Chosen(Trimmed(header), FindColumn(names, m.date, DATE_NAMES, low), FindColumn(names, m.amount, AMOUNT_NAMES, low),
           FindColumn(names, m.currency, CURRENCY_NAMES, low), FindColumn(names, m.id, ID_NAMES, low),
           FindColumn(names, m.description, DESCRIPTION_NAMES, low))
  }

  type Found = Result<Option<nat>, ()>

  /** A column whose name is empty counts as none for the date and the amount. */
  function Chosen(header: Row, date: Found, amount: Found, currency: Found, id: Found, description: Found)
    : Option<Columns>
  {
    if date.Err? || amount.Err? || currency.Err? || id.Err? || description.Err? then None
    else if !Named(header, date.value) || !Named(header, amount.value) then None
    else Some(Columns(date.value.value, amount.value.value, currency.value, id.value, description.value))
  }

  predicate Named(header: Row, k: Option<nat>) {
    k.Some? && k.value < |header| && header[k.value] != ""
  }

  function At(row: Row, k: Option<nat>): string {
    if k.Some? && k.value < |row| then Trim(row[k.value]) else ""
  }

  // ------------------------------------------------------------ dates

  predicate Digit(c: char) {
    '0' <= c <= '9'
  }

  predicate Letter(c: char) {
    'a' <= c <= 'z' || 'A' <= c <= 'Z'
  }

  function LeadingDigits(s: string): (n: nat)
    ensures n <= |s| && forall i | 0 <= i < n :: Digit(s[i])
    ensures n < |s| ==> !Digit(s[n])
  {
    if s == "" || !Digit(s[0]) then 0 else 1 + LeadingDigits(s[1..])
  }

  function LeadingLetters(s: string): (n: nat)
    ensures n <= |s| && forall i | 0 <= i < n :: Letter(s[i])
    ensures n < |s| ==> !Letter(s[n])
  {
    if s == "" || !Letter(s[0]) then 0 else 1 + LeadingLetters(s[1..])
  }

  const MONTHS := map[
    "jan" := "01", "feb" := "02", "mar" := "03", "apr" := "04", "may" := "05", "jun" := "06", "jul" := "07",
    "aug" := "08", "sep" := "09", "sept" := "09", "oct" := "10", "nov" := "11", "dec" := "12"]

  function LowerLetter(c: char): char {
    if 'A' <= c <= 'Z' then ((c as int - 'A' as int) + 'a' as int) as char else c
  }

  function Month(name: string): Option<string> {
    var low := seq(|name|, i requires 0 <= i < |name| => LowerLetter(name[i]));
    if low in MONTHS then Some(MONTHS[low]) else None
  }

  function Padded(s: string): string {
    if |s| == 1 then "0" + s else s
  }

  datatype Parts = Parts(year: string, month: string, day: string)

  function DateOf(p: Parts): string {
    p.year + "-" + Padded(p.month) + "-" + Padded(p.day)
  }

  predicate FourDigits(s: string) {
    |s| == 4 && Digits(s)
  }

  /** `2024-01-31`, perhaps with a time after it. */
  function IsoParts(v: string): Option<Parts> {
    if |v| >= 10 && Digits(v[..4]) && v[4] == '-' && Digits(v[5..7]) && v[7] == '-' && Digits(v[8..10])
       && (|v| == 10 || (v[10] in {'T', ' '} && forall c | c in v[11..] :: c !in {'\n', '\r', '\U{2028}', '\U{2029}'}))
    then Some(Parts(v[..4], v[5..7], v[8..10])) else None
  }

  /** `Jan 31, 2024` */
  function MonthDayParts(v: string): Option<Parts> {
    var n := LeadingLetters(v);
    if n != 3 && n != 4 then None
    else
      var a := if n < |v| && v[n] == '.' then v[n + 1..] else v[n..];
      if a == "" || a[0] != ' ' then None
      else
        var b := a[1..];
        var k := LeadingDigits(b);
        if k != 1 && k != 2 then None
        else
          var c := if k < |b| && b[k] == ',' then b[k + 1..] else b[k..];
          if c == "" || c[0] != ' ' || !FourDigits(c[1..]) || Month(v[..n]).None? then None
          else Some(Parts(c[1..], Month(v[..n]).value, b[..k]))
  }

  /** `31 Jan 2024` */
  function DayMonthParts(v: string): Option<Parts> {
    var k := LeadingDigits(v);
    if (k != 1 && k != 2) || k == |v| || v[k] != ' ' then None
    else
      var a := v[k + 1..];
      var n := LeadingLetters(a);
      if n != 3 && n != 4 then None
      else
        var b := if n < |a| && a[n] == '.' then a[n + 1..] else a[n..];
        if b == "" || b[0] != ' ' || !FourDigits(b[1..]) || Month(a[..n]).None? then None
        else Some(Parts(b[1..], Month(a[..n]).value, v[..k]))
  }

  /** Two numbers and a year between slashes or points; which number is the day is not known yet. */
  function SlashParts(v: string): Option<(string, string, string)> {
    var k := LeadingDigits(v);
    if (k != 1 && k != 2) || k == |v| || v[k] !in {'/', '.'} then None
    else
      var a := v[k + 1..];
      var n := LeadingDigits(a);
      if (n != 1 && n != 2) || n == |a| || a[n] !in {'/', '.'} || !FourDigits(a[n + 1..]) then None
      else Some((v[..k], a[..n], a[n + 1..]))
  }

  function CalendarDay(p: Parts, value: string): (r: Result<string, string>)
    ensures r.Ok? ==> CalendarDate(r.value)
  {
    if CalendarDate(DateOf(p)) then Ok(DateOf(p)) else Err("invalid calendar date \"" + value + "\"")
  }

  /** `parseStatementDate` */
  function ReadDate(raw: string, format: DateFormat): (r: Result<string, string>)
    ensures r.Ok? ==> CalendarDate(r.value)
  {
    var v := Trim(raw);
    if IsoParts(v).Some? then CalendarDay(IsoParts(v).value, v)
    else if MonthDayParts(v).Some? then CalendarDay(MonthDayParts(v).value, v)
    else if DayMonthParts(v).Some? then CalendarDay(DayMonthParts(v).value, v)
    else if SlashParts(v).Some? then
      var (first, second, year) := SlashParts(v).value;
      match format
      case MonthFirst => CalendarDay(Parts(year, first, second), v)
      case DayFirst => CalendarDay(Parts(year, second, first), v)
      case Iso => Err("ambiguous date \"" + v + "\"; set dateFormat to mdy or dmy")
    else Err("unrecognised date \"" + v + "\"")
  }

  // ------------------------------------------------------------ money

  predicate Capital(c: char) {
    'A' <= c <= 'Z'
  }

  predicate WordCharacter(c: char) {
    Letter(c) || Digit(c) || c == '_'
  }

  predicate CodeAt(s: string, i: nat) {
    && i + 3 <= |s| && Capital(s[i]) && Capital(s[i + 1]) && Capital(s[i + 2])
    && (i > 0 ==> !WordCharacter(s[i - 1])) && (i + 3 < |s| ==> !WordCharacter(s[i + 3]))
  }

  /** The first currency code that stands as a word of its own. */
  function CodeFrom(s: string, i: nat): Option<string>
    decreases |s| - i
  {
    if i + 3 > |s| then None else if CodeAt(s, i) then Some(s[i..i + 3]) else CodeFrom(s, i + 1)
  }

  const SYMBOLS: map<char, string> := map['$' := "USD", '\U{20AC}' := "EUR", '\U{A3}' := "GBP", '\U{20AA}' := "ILS"]

  function Symbol(s: string): Option<string> {
    if s == "" then None else if s[0] in SYMBOLS then Some(SYMBOLS[s[0]]) else Symbol(s[1..])
  }

  /** Runs of three capitals are taken out from the left. */
  function WithoutCodes(s: string): string {
    if s == "" then ""
    else if |s| >= 3 && Capital(s[0]) && Capital(s[1]) && Capital(s[2]) then WithoutCodes(s[3..])
    else [s[0]] + WithoutCodes(s[1..])
  }

  function WithoutSymbols(s: string): string {
    if s == "" then ""
    else (if s[0] in SYMBOLS || Space(s[0]) then "" else [s[0]]) + WithoutSymbols(s[1..])
  }

  function Bare(s: string): string {
    WithoutSymbols(WithoutCodes(s))
  }

  /** What is left once an enclosing pair of parentheses is taken off. */
  function Inner(cell: string): string {
    if InParentheses(cell) then cell[1..|cell| - 1] else cell
  }

  function CurrencyOf(cell: string): Option<string> {
    var code := CodeFrom(Inner(cell), 0);
    if code.Some? then code else Symbol(Inner(cell))
  }

  /** `parseStatementAmount` */
  function ReadMoney(raw: string): Result<(real, Option<string>), string> {
    var cell := Trim(raw);
    if cell == "" then Err("empty amount")
    else
      var amount := ReadAmount(cell, Bare);
      if amount.None? then Err("unreadable amount \"" + cell + "\"") else Ok((amount.value, CurrencyOf(cell)))
  }

  // ------------------------------------------------------------ rows

  function CurrencyText(row: Row, columns: Columns, money: Option<string>, settings: Settings): string {
    var cell := At(row, columns.currency);
    settings.upper(
      if cell != "" then cell else if money.Some? then money.value else settings.currency)
  }

  /** One data row, under a header whose columns were found. */
  function ReadRow(columns: Columns, row: Row, settings: Settings): Reading {
    var date := ReadDate(At(row, Some(columns.date)), settings.format);
    if date.Err? then Skipped(date.error)
    else
      var money := ReadMoney(At(row, Some(columns.amount)));
      if money.Err? then Skipped(money.error)
      else
        var currency := CurrencyText(row, columns, money.value.1, settings);
        if !CurrencyCode(currency) then
          Skipped(if currency != "" then "invalid currency \"" + currency + "\""
                  else "no currency column and no default currency")
        else
          Charge(Facts(date.value, money.value.0, currency, At(row, columns.description)), At(row, columns.id))
  }

  /** A row all of whose cells can be read is the charge they tell of. */
  lemma RowReadsAs(columns: Columns, row: Row, settings: Settings, f: Facts, reference: string)
    requires ReadDate(At(row, Some(columns.date)), settings.format) == Ok(f.date)
    requires ReadMoney(At(row, Some(columns.amount))).Ok?
    requires ReadMoney(At(row, Some(columns.amount))).value.0 == f.amount
    requires At(row, columns.currency) != "" && settings.upper(At(row, columns.currency)) == f.currency
    requires CurrencyCode(f.currency)
    requires At(row, columns.description) == f.description && At(row, columns.id) == reference
    ensures ReadRow(columns, row, settings) == Charge(f, reference)
  {
  }

  function ReaderOf(settings: Settings): Reader {
    Reader(
      (header: Row) => ColumnsOf(header, settings).Some?,
      (header: Row, row: Row) =>
        var columns := ColumnsOf(header, settings);
        if columns.None? then Skipped("") else ReadRow(columns.value, row, settings),
      settings.digest)
  }

  // ------------------------------------------------------------ which column is found

  lemma {:induction false} FirstPresentMeans(names: seq<string>, candidates: seq<string>)
    ensures FirstPresent(names, candidates).None? <==> forall c | c in candidates :: c !in names
    ensures FirstPresent(names, candidates).Some? ==>
      exists c | 0 <= c < |candidates| ::
        && FirstPresent(names, candidates) == Place(names, candidates[c])
        && forall b | 0 <= b < c :: candidates[b] !in names
  {
    if candidates != [] {
      var rest := candidates[1..];
      FirstPresentMeans(names, rest);
      assert candidates == [candidates[0]] + rest;
      if candidates[0] !in names && FirstPresent(names, rest).Some? {
        var c :| 0 <= c < |rest| && FirstPresent(names, rest) == Place(names, rest[c])
          && forall b | 0 <= b < c :: rest[b] !in names;
        assert candidates[c + 1] == rest[c];
        assert forall b | 0 <= b < c + 1 :: candidates[b] !in names;
      }
    }
  }

  /** A common name that is present leads to a column, and one with a name. */
  lemma CommonColumn(header: Row, settings: Settings, candidates: seq<string>)
    requires settings.lower("") == "" && "" !in candidates
    ensures
      var names := NamesOf(header, settings);
      Named(Trimmed(header), FirstPresent(names, candidates)) <==> exists c | c in candidates :: c in names
  {
    var names := NamesOf(header, settings);
    FirstPresentMeans(names, candidates);
    if FirstPresent(names, candidates).Some? {
      var k := FirstPresent(names, candidates).value;
      var c :| 0 <= c < |candidates| && Some(k) == Place(names, candidates[c]);
      assert names[k] == candidates[c] && candidates[c] in candidates;
      assert names[k] == Normal(Trimmed(header)[k], settings.lower);
      assert Normal("", settings.lower) == "";
    }
  }

  /** Without a mapping a statement can be read if and only if its header has a common name for the date and one for
      the amount; of several, the one listed first is taken, at its first place. */
  lemma ColumnsFoundExactly(header: Row, settings: Settings, dates: seq<string>, amounts: seq<string>)
    requires settings.mapping == Mapping(None, None, None, None, None) && settings.lower("") == ""
    requires dates == DATE_NAMES && amounts == AMOUNT_NAMES
    ensures
      var names, found := NamesOf(header, settings), ColumnsOf(header, settings);
      && (found.Some? <==> (exists c | c in dates :: c in names) && (exists c | c in amounts :: c in names))
      && (found.Some? ==>
            && Some(found.value.date) == FirstPresent(names, dates)
            && Some(found.value.amount) == FirstPresent(names, amounts))
  {
    var names := NamesOf(header, settings);
    CommonColumn(header, settings, dates);
    CommonColumn(header, settings, amounts);
    ChosenIs(Trimmed(header), FirstPresent(names, dates), FirstPresent(names, amounts),
             FirstPresent(names, CURRENCY_NAMES), FirstPresent(names, ID_NAMES),
             FirstPresent(names, DESCRIPTION_NAMES));
  }

  /** The first place of a name. */
  predicate IsFirstPlace(names: seq<string>, name: string, k: nat) {
    k < |names| && names[k] == name && forall i | 0 <= i < k :: names[i] != name
  }

  /** Name `c` of the list is the first of it that is there. */
  predicate IsFirstPresent(names: seq<string>, candidates: seq<string>, c: nat) {
    c < |candidates| && candidates[c] in names && forall b | 0 <= b < c :: candidates[b] !in names
  }

  /** The column of a field: of the header named by the caller, or else of the first common name there is. */
  predicate IsColumn(names: seq<string>, named: Option<string>, candidates: seq<string>, lower: string -> string,
                     k: Option<nat>)
  {
    if named.Some? then k.Some? && IsFirstPlace(names, Normal(named.value, lower), k.value)
    else if k.None? then forall c | 0 <= c < |candidates| :: candidates[c] !in names
    else exists c: nat | c < |candidates| ::
      IsFirstPresent(names, candidates, c) && IsFirstPlace(names, candidates[c], k.value)
  }

  lemma FindColumnExactly(names: seq<string>, named: Option<string>, candidates: seq<string>, lower: string -> string)
    ensures
      var found := FindColumn(names, named, candidates, lower);
      && (found.Err? <==> named.Some? && Normal(named.value, lower) !in names)
      && (found.Ok? ==> IsColumn(names, named, candidates, lower, found.value))
  {
    FirstPresentMeans(names, candidates);
    if named.Some? {
      FirstPlaceExactly(names, Normal(named.value, lower));
    } else if FirstPresent(names, candidates).Some? {
      var c: nat :| c < |candidates| && FirstPresent(names, candidates) == Place(names, candidates[c])
        && forall b | 0 <= b < c :: candidates[b] !in names;
      FirstPlaceExactly(names, candidates[c]);
      assert IsFirstPresent(names, candidates, c);
    }
  }

  lemma FirstPlaceExactly(names: seq<string>, name: string)
    ensures Place(names, name).Some? ==> IsFirstPlace(names, name, Place(names, name).value)
  {
    var k := Place(names, name);
    if k.Some? {
      assert forall i | 0 <= i < k.value :: names[i] == names[..k.value][i];
    }
  }

  /** Each field is read from its own column; a header is refused when a column named by the caller is not there, or
      when the date or the amount has none with a name. */
  lemma ColumnsExactly(header: Row, settings: Settings)
    ensures
      var names, m, low, found :=
        NamesOf(header, settings), settings.mapping, settings.lower, ColumnsOf(header, settings);
      && (found.Some? ==>
            && IsColumn(names, m.date, DATE_NAMES, low, Some(found.value.date))
            && IsColumn(names, m.amount, AMOUNT_NAMES, low, Some(found.value.amount))
            && IsColumn(names, m.currency, CURRENCY_NAMES, low, found.value.currency)
            && IsColumn(names, m.id, ID_NAMES, low, found.value.id)
            && IsColumn(names, m.description, DESCRIPTION_NAMES, low, found.value.description)
            && Named(Trimmed(header), Some(found.value.date)) && Named(Trimmed(header), Some(found.value.amount)))
      && (found.None? ==>
            || Missing(names, m.date, low) || Missing(names, m.amount, low) || Missing(names, m.currency, low)
            || Missing(names, m.id, low) || Missing(names, m.description, low)
            || (exists k :: IsColumn(names, m.date, DATE_NAMES, low, k) && !Named(Trimmed(header), k))
            || (exists k :: IsColumn(names, m.amount, AMOUNT_NAMES, low, k) && !Named(Trimmed(header), k)))
  {
    var names, m, low := NamesOf(header, settings), settings.mapping, settings.lower;
    FindColumnExactly(names, m.date, DATE_NAMES, low);
    FindColumnExactly(names, m.amount, AMOUNT_NAMES, low);
    FindColumnExactly(names, m.currency, CURRENCY_NAMES, low);
    FindColumnExactly(names, m.id, ID_NAMES, low);
    FindColumnExactly(names, m.description, DESCRIPTION_NAMES, low);
  }

  predicate Missing(names: seq<string>, named: Option<string>, lower: string -> string) {
    named.Some? && Normal(named.value, lower) !in names
  }

  lemma ChosenIs(header: Row, date: Option<nat>, amount: Option<nat>, currency: Option<nat>, id: Option<nat>,
                 description: Option<nat>)
    ensures
      var found := Chosen(header, Ok(date), Ok(amount), Ok(currency), Ok(id), Ok(description));
      && (found.Some? <==> Named(header, date) && Named(header, amount))
      && (found.Some? ==> Some(found.value.date) == date && Some(found.value.amount) == amount)
  {
  }

  // ------------------------------------------------------------ what is read is valid

  lemma {:induction false} TrimIsText(s: string)
    ensures |Trim(s)| <= |s|
    ensures Trim(s) != "" ==> !BlankCell(Trim(s))
    decreases |s|
  {
    if s != "" {
      if Space(s[0]) {
        TrimIsText(s[1..]);
      } else if Space(s[|s| - 1]) {
        TrimIsText(s[..|s| - 1]);
      }
    }
  }

  lemma TrimKeeps(s: string)
    requires s != "" ==> !Space(s[0]) && !Space(s[|s| - 1])
    ensures Trim(s) == s
  {
  }

  lemma DateIsText(d: string)
    requires CalendarDate(d)
    ensures Text(d)
  {
    assert !Space(d[4]);
  }

  lemma CodeIsText(c: string)
    requires CurrencyCode(c)
    ensures Text(c)
  {
    assert !Space(c[0]);
  }

  /** A row that is read as a charge has a day that exists, a currency code, and no blank reference. */
  lemma ChargeIsReadable(columns: Columns, row: Row, settings: Settings, f: Facts, reference: string)
    requires ReadRow(columns, row, settings) == Charge(f, reference)
    ensures CalendarDate(f.date) && CurrencyCode(f.currency) && (reference != "" ==> !BlankCell(reference))
  {
    var date := ReadDate(At(row, Some(columns.date)), settings.format);
    assert date.Ok? && f.date == date.value;
    assert reference == At(row, columns.id);
    AtIsText(row, columns.id);
  }

  lemma AtIsText(row: Row, k: Option<nat>)
    ensures At(row, k) != "" ==> !BlankCell(At(row, k))
  {
    if k.Some? && k.value < |row| {
      TrimIsText(row[k.value]);
    }
  }

  predicate SourceFits(source: Source) {
    Text(source.sourceId) && Text(source.accountId) && Text(source.provider)
  }

  predicate Bounded(amount: real) {
    -1.0e12 <= amount <= 1.0e12
  }

  lemma FactsAreValidExactly(f: Facts, source: Source, id: string)
    requires CalendarDate(f.date) && CurrencyCode(f.currency)
    ensures Valid(RecordOf(source, id, f)) <==> SourceFits(source) && Text(id) && Bounded(f.amount)
  {
    DateIsText(f.date);
    CodeIsText(f.currency);
  }

  predicate Passes(r: Input) {
    Text(r.sourceRecordId) && Bounded(r.amount)
  }

  /** What is known of every reading of the importer. */
  predicate Readable(r: Reading) {
    r.Charge? ==> CalendarDate(r.facts.date) && CurrencyCode(r.facts.currency)
  }

  lemma ReadingIsReadable(settings: Settings, header: Row, row: Row)
    ensures Readable(ReaderOf(settings).read(header, row))
  {
    var r := ReaderOf(settings).read(header, row);
    if r.Charge? {
      ChargeIsReadable(ColumnsOf(header, settings).value, row, settings, r.facts, r.reference);
    }
  }

  lemma {:induction false} RecordsAreValidExactly(reader: Reader, source: Source, readings: seq<Reading>)
    requires SourceFits(source) && forall r | r in readings :: Readable(r)
    ensures forall x | x in Records(reader, source, readings) :: Valid(x) <==> Passes(x)
  {
    if readings != [] {
      var front, r := readings[..|readings| - 1], readings[|readings| - 1];
      RecordsAreValidExactly(reader, source, front);
      assert r in readings;
      if r.Charge? {
        FactsAreValidExactly(r.facts, source, Identity(reader, front, r));
      }
    }
  }

  /** So the journal can refuse a charge the importer has read only for an identity that is too long or an amount that
      is too large: what a statement offers is valid as a whole if and only if it has neither. */
  lemma OfferIsValidExactly(settings: Settings, source: Source, text: string)
    requires SourceFits(source) && Rows(text) != []
    ensures
      var offer := Offer(ReaderOf(settings), source, text);
      AllValid(offer) <==> forall x | x in offer :: Passes(x)
  {
    var reader := ReaderOf(settings);
    var readings := Readings(reader, text);
    forall r | r in readings ensures Readable(r) {
      var i :| 0 <= i < |readings| && readings[i] == r;
      ReadingIsReadable(settings, Rows(text)[0], Rows(text)[1..][i]);
    }
    RecordsAreValidExactly(reader, source, readings);
    var offer := Offer(reader, source, text);
    assert forall i | 0 <= i < |offer| :: offer[i] in offer;
  }

  // ------------------------------------------------------------ dates read back

  lemma DayIsNoSpace(d: string)
    requires CalendarDate(d)
    ensures d[..4] + "-" + d[5..7] + "-" + d[8..] == d
    ensures !Space(d[0]) && !Space(d[9])
  {
    assert d[0] == d[..4][0] && d[9] == d[8..][1];
  }

  /** A date in the form it is stored in is read as itself, whatever the format of the others. */
  lemma IsoReadsBack(d: string, format: DateFormat)
    requires CalendarDate(d)
    ensures ReadDate(d, format) == Ok(d)
  {
    DayIsNoSpace(d);
    TrimKeeps(d);
    assert d[8..10] == d[8..];
    assert DateOf(Parts(d[..4], d[5..7], d[8..])) == d;
  }

  lemma TwoDigitsLead(two: string, rest: string)
    requires |two| == 2 && Digits(two) && rest != "" && !Digit(rest[0])
    ensures LeadingDigits(two + rest) == 2
  {
    var s := two + rest;
    assert s[0] == two[0] && s[1] == two[1] && s[2] == rest[0];
    assert s[1..][0] == two[1] && s[1..][1..] == rest;
    assert LeadingDigits(rest) == 0;
  }

  /** Two numbers and a year come apart again. */
  lemma SlashPartsOf(first: string, second: string, year: string, sep: char)
    requires |first| == 2 && Digits(first) && |second| == 2 && Digits(second) && FourDigits(year) && sep in {'/', '.'}
    ensures SlashParts(first + [sep] + second + [sep] + year) == Some((first, second, year))
  {
    var v := first + [sep] + second + [sep] + year;
    var a := second + [sep] + year;
    assert v == first + ([sep] + a) && a == second + ([sep] + year);
    TwoDigitsLead(first, [sep] + a);
    TwoDigitsLead(second, [sep] + year);
    assert v[3..] == a && a[3..] == year && v[..2] == first && a[..2] == second;
  }

  lemma SlashIsNothingElse(first: string, second: string, year: string, sep: char)
    requires |first| == 2 && Digits(first) && |second| == 2 && Digits(second) && FourDigits(year) && sep in {'/', '.'}
    ensures
      var v := first + [sep] + second + [sep] + year;
      && Trim(v) == v && IsoParts(v).None? && MonthDayParts(v).None? && DayMonthParts(v).None?
  {
    var v := first + [sep] + second + [sep] + year;
    assert v[0] == first[0] && v[2] == sep && v[9] == year[3] && |v| == 10;
    TrimKeeps(v);
    assert v[..4][2] == sep;
    assert LeadingLetters(v) == 0;
    assert v == first + ([sep] + second + [sep] + year);
    TwoDigitsLead(first, [sep] + second + [sep] + year);
  }

  lemma SlashReads(first: string, second: string, year: string, sep: char)
    requires |first| == 2 && Digits(first) && |second| == 2 && Digits(second) && FourDigits(year) && sep in {'/', '.'}
    ensures
      var v := first + [sep] + second + [sep] + year;
      && ReadDate(v, MonthFirst) == CalendarDay(Parts(year, first, second), v)
      && ReadDate(v, DayFirst) == CalendarDay(Parts(year, second, first), v)
      && ReadDate(v, Iso).Err?
  {
    SlashPartsOf(first, second, year, sep);
    SlashIsNothingElse(first, second, year, sep);
  }

  /** A date written with slashes or points is read as itself under the order it was written in, and refused as
      ambiguous when no order was given. */
  lemma SlashReadsBack(d: string, sep: char)
    requires CalendarDate(d) && sep in {'/', '.'}
    ensures ReadDate(d[8..] + [sep] + d[5..7] + [sep] + d[..4], DayFirst) == Ok(d)
    ensures ReadDate(d[5..7] + [sep] + d[8..] + [sep] + d[..4], MonthFirst) == Ok(d)
    ensures ReadDate(d[8..] + [sep] + d[5..7] + [sep] + d[..4], Iso).Err?
  {
    var y, m, day := d[..4], d[5..7], d[8..];
    assert DateOf(Parts(y, m, day)) == d by {
      DayIsNoSpace(d);
    }
    SlashReads(day, m, y, sep);
    SlashReads(m, day, y, sep);
  }

  // ------------------------------------------------------------ dates with a month's name

  /** The English names of the months, and the numbers they stand for. */
  predicate IsMonth(name: string, number: string) {
    || (name == "jan" && number == "01") || (name == "feb" && number == "02") || (name == "mar" && number == "03")
    || (name == "apr" && number == "04") || (name == "may" && number == "05") || (name == "jun" && number == "06")
    || (name == "jul" && number == "07") || (name == "aug" && number == "08") || (name == "sep" && number == "09")
    || (name == "sept" && number == "09") || (name == "oct" && number == "10") || (name == "nov" && number == "11")
    || (name == "dec" && number == "12")
  }

  predicate Small(s: string) {
    forall i | 0 <= i < |s| :: 'a' <= s[i] <= 'z'
  }

  lemma MonthIsShort(name: string, number: string)
    requires IsMonth(name, number)
    ensures Small(name) && (|name| == 3 || |name| == 4)
  {
  }

  /** A month is known by its name in small letters. */
  lemma MonthExactly(name: string, number: string)
    requires Small(name)
    ensures Month(name) == Some(number) <==> IsMonth(name, number)
  {
    var low := seq(|name|, i requires 0 <= i < |name| => LowerLetter(name[i]));
    assert low == name;
  }

  lemma {:induction false} LettersLead(name: string, rest: string)
    requires Small(name) && (rest == "" || !Letter(rest[0]))
    ensures LeadingLetters(name + rest) == |name|
  {
    if name == "" {
      assert name + rest == rest;
    } else {
      assert (name + rest)[0] == name[0] && (name + rest)[1..] == name[1..] + rest;
      LettersLead(name[1..], rest);
    }
  }

  /** The month first, then the day, with a comma or without, and the year. */
  lemma MonthDayPartsOf(name: string, number: string, day: string, comma: string, year: string)
    requires IsMonth(name, number) && |day| == 2 && Digits(day) && FourDigits(year) && (comma == "" || comma == ",")
    ensures MonthDayParts(name + (" " + (day + (comma + (" " + year))))) == Some(Parts(year, number, day))
  {
    var c := comma + (" " + year);
    var b := day + c;
    var v := name + (" " + b);
    MonthIsShort(name, number);
    MonthExactly(name, number);
    LettersLead(name, " " + b);
    TwoDigitsLead(day, c);
    Halves(name, " " + b);
    Halves(day, c);
    assert (" " + b)[1..] == b && (" " + year)[1..] == year;
    assert if comma == "," then c[0] == ',' && c[1..] == " " + year else c == " " + year;
    assert v[|name|] == ' ' && (" " + year)[0] == ' ';
  }

  lemma Halves(a: string, b: string)
    ensures (a + b)[..|a|] == a && (a + b)[|a|..] == b
  {
  }

  lemma DayMonthPartsOf(name: string, number: string, day: string, year: string)
    requires IsMonth(name, number) && |day| == 2 && Digits(day) && FourDigits(year)
    ensures DayMonthParts(day + (" " + (name + (" " + year)))) == Some(Parts(year, number, day))
  {
    var b := " " + year;
    var a := name + b;
    var v := day + (" " + a);
    MonthIsShort(name, number);
    MonthExactly(name, number);
    TwoDigitsLead(day, " " + a);
    LettersLead(name, b);
    Halves(day, " " + a);
    Halves(name, b);
    assert v[3..] == a && b[1..] == year;
  }

  lemma WordsAreTrimmed(v: string)
    requires |v| >= 10 && (Letter(v[0]) || Digit(v[0])) && Digit(v[|v| - 1])
    ensures Trim(v) == v
  {
    TrimKeeps(v);
  }

  lemma MonthDayReads(name: string, number: string, day: string, comma: string, year: string, format: DateFormat)
    requires IsMonth(name, number) && |day| == 2 && Digits(day) && FourDigits(year) && (comma == "" || comma == ",")
    ensures
      var v := name + (" " + (day + (comma + (" " + year))));
      ReadDate(v, format) == CalendarDay(Parts(year, number, day), v)
  {
    MonthDayPartsOf(name, number, day, comma, year);
    MonthDayIsNoIso(name, number, day + (comma + (" " + year)));
    assert (comma + (" " + year))[|comma| + 4] == year[3];
    assert (day + (comma + (" " + year)))[|comma| + 6] == year[3];
  }

  lemma MonthDayIsNoIso(name: string, number: string, rest: string)
    requires IsMonth(name, number) && |rest| >= 6 && Digit(rest[|rest| - 1])
    ensures Trim(name + (" " + rest)) == name + (" " + rest) && IsoParts(name + (" " + rest)).None?
  {
    var v := name + (" " + rest);
    MonthIsShort(name, number);
    assert v[0] == name[0] && v[|v| - 1] == rest[|rest| - 1];
    WordsAreTrimmed(v);
    assert v[..4][0] == v[0];
  }

  lemma DayMonthReads(name: string, number: string, day: string, year: string, format: DateFormat)
    requires IsMonth(name, number) && |day| == 2 && Digits(day) && FourDigits(year)
    ensures
      var v := day + (" " + (name + (" " + year)));
      ReadDate(v, format) == CalendarDay(Parts(year, number, day), v)
  {
    var v := day + (" " + (name + (" " + year)));
    MonthIsShort(name, number);
    DayMonthPartsOf(name, number, day, year);
    assert v[0] == day[0] && v[|v| - 1] == year[3] && v[2] == ' ';
    WordsAreTrimmed(v);
    assert v[..4][2] == ' ' && LeadingLetters(v) == 0;
  }

  /** A date written with its month's name, before the day or after it, is read as itself. */
  lemma NamedMonthReadsBack(d: string, name: string, comma: string, format: DateFormat)
    requires CalendarDate(d) && IsMonth(name, d[5..7]) && (comma == "" || comma == ",")
    ensures ReadDate(name + (" " + (d[8..] + (comma + (" " + d[..4])))), format) == Ok(d)
    ensures ReadDate(d[8..] + (" " + (name + (" " + d[..4]))), format) == Ok(d)
  {
    DayIsNoSpace(d);
    MonthDayReads(name, d[5..7], d[8..], comma, d[..4], format);
    DayMonthReads(name, d[5..7], d[8..], d[..4], format);
    assert DateOf(Parts(d[..4], d[5..7], d[8..])) == d;
  }

  // ------------------------------------------------------------ money reads back

  lemma {:induction false} CodesKeep(s: string)
    requires forall c | c in s :: !Capital(c)
    ensures WithoutCodes(s) == s
  {
    if s != "" {
      assert s[0] in s;
      CodesKeep(s[1..]);
    }
  }

  lemma {:induction false} SymbolsKeep(s: string)
    requires forall c | c in s :: c !in SYMBOLS && !Space(c)
    ensures WithoutSymbols(s) == s
  {
    if s != "" {
      assert s[0] in s;
      SymbolsKeep(s[1..]);
    }
  }

  lemma BareIsPlain(s: string)
    requires forall c | c in s :: Digit(c) || c == '.' || c == '-'
    ensures Bare(s) == s
  {
    CodesKeep(s);
    SymbolsKeep(s);
  }

  /** Taking out codes, symbols and white space leaves a plain number and its sign as they are. */
  lemma BareKeeps(number: string)
    requires Amounts.Plain(number)
    ensures Bare(number) == number && Bare("-" + number) == "-" + number
  {
    PlainCharacters(number);
    BareIsPlain(number);
    BareIsPlain("-" + number);
  }

  /** The four ways of writing a sign, of a cell as it is really read. */
  lemma SignedReadsBack(number: string)
    requires Amounts.Plain(number)
    ensures ReadAmount(number, Bare) == Read(number)
    ensures ReadAmount("-" + number, Bare) == Negated(true, Read(number))
    ensures ReadAmount("(" + number + ")", Bare) == Negated(true, Read(number))
    ensures ReadAmount("(-" + number + ")", Bare) == Read(number)
  {
    BareKeeps(number);
    SignsNegate(number, Bare);
  }

  lemma PlainIsTrimmed(number: string)
    requires Amounts.Plain(number)
    ensures number != "" && Trim(number) == number
  {
    PlainCharacters(number);
    assert number[|number| - 1] in number;
    TrimKeeps(number);
  }

  /** A plain number alone is read as its value. */
  lemma PlainMoney(number: string)
    requires Amounts.Plain(number) && Read(number).Some?
    ensures ReadMoney(number).Ok? && ReadMoney(number).value.0 == Read(number).value
  {
    PlainIsTrimmed(number);
    SignedReadsBack(number);
  }

  lemma {:induction false} CodesTakenLast(s: string, code: string)
    requires CurrencyCode(code) && forall c | c in s :: !Capital(c)
    ensures WithoutCodes(s + code) == s
  {
    if s == "" {
      assert s + code == code && code[3..] == "";
    } else {
      assert s[0] in s && (s + code)[1..] == s[1..] + code;
      CodesTakenLast(s[1..], code);
    }
  }

  lemma {:induction false} SymbolsOfEnd(s: string)
    requires forall c | c in s :: c !in SYMBOLS && !Space(c)
    ensures WithoutSymbols(s + " ") == s
  {
    if s == "" {
      assert s + " " == " " && " "[1..] == "";
    } else {
      assert s[0] in s && (s + " ")[1..] == s[1..] + " ";
      SymbolsOfEnd(s[1..]);
    }
  }

  lemma {:induction false} CodeIsLast(s: string, code: string, i: nat)
    requires CurrencyCode(code) && forall c | c in s :: !Capital(c)
    requires i <= |s| && s != "" && !WordCharacter(s[|s| - 1])
    ensures CodeFrom(s + code, i) == Some(code)
    decreases |s| - i
  {
    var t := s + code;
    if i < |s| {
      assert t[i] == s[i] && s[i] in s;
      CodeIsLast(s, code, i + 1);
    } else {
      assert t[i..i + 3] == code && t[i] == code[0] && t[i + 1] == code[1] && t[i + 2] == code[2];
      assert CodeAt(t, i);
    }
  }

  lemma BareOfCoded(number: string, code: string)
    requires CurrencyCode(code) && forall c | c in number :: Digit(c) || c == '.'
    ensures Bare(number + " " + code) == number
  {
    CodesTakenLast(number + " ", code);
    SymbolsOfEnd(number);
  }

  lemma CodedCell(number: string, code: string)
    requires CurrencyCode(code) && number != "" && Digit(number[0])
    ensures
      var cell := number + " " + code;
      && Trim(cell) == cell && !InParentheses(cell) && Inner(cell) == cell
  {
    var cell := number + " " + code;
    assert cell[0] == number[0] && cell[|cell| - 1] == code[2];
    TrimKeeps(cell);
  }

  lemma CodedAmount(number: string, cell: string)
    requires Amounts.Plain(number) && cell != "" && !InParentheses(cell) && Bare(cell) == number
    ensures ReadAmount(cell, Bare) == Read(number)
  {
    PlainCharacters(number);
  }

  lemma MoneyIs(cell: string, amount: real, currency: Option<string>)
    requires Trim(cell) == cell && cell != "" && ReadAmount(cell, Bare) == Some(amount) && CurrencyOf(cell) == currency
    ensures ReadMoney(cell) == Ok((amount, currency))
  {
  }

  lemma CurrencyIs(cell: string, code: string)
    requires Inner(cell) == cell && CodeFrom(cell, 0) == Some(code)
    ensures CurrencyOf(cell) == Some(code)
  {
  }

  lemma CodedCurrency(number: string, code: string)
    requires Amounts.Plain(number) && CurrencyCode(code)
    ensures CurrencyOf(number + " " + code) == Some(code)
  {
    PlainCharacters(number);
    CodedCell(number, code);
    CodeIsLast(number + " ", code, 0);
    CurrencyIs(number + " " + code, code);
  }

  lemma CodedNumber(number: string, code: string)
    requires Amounts.Plain(number) && CurrencyCode(code)
    ensures ReadAmount(number + " " + code, Bare) == Read(number)
  {
    PlainCharacters(number);
    BareOfCoded(number, code);
    CodedCell(number, code);
    CodedAmount(number, number + " " + code);
  }

  /** A number followed by its currency code is read as that number in that currency. */
  lemma CodedReadsBack(number: string, code: string)
    requires Amounts.Plain(number) && CurrencyCode(code) && Read(number).Some?
    ensures ReadMoney(number + " " + code) == Ok((Read(number).value, Some(code)))
  {
    CodedTrimmed(number, code);
    CodedNumber(number, code);
    CodedCurrency(number, code);
    MoneyIs(number + " " + code, Read(number).value, Some(code));
  }

  lemma CodedTrimmed(number: string, code: string)
    requires Amounts.Plain(number) && CurrencyCode(code)
    ensures Trim(number + " " + code) == number + " " + code
  {
    PlainCharacters(number);
    CodedCell(number, code);
  }

  // ------------------------------------------------------------ symbols, and whole rows

  /** The currency signs that are known. */
  predicate IsSign(symbol: char, code: string) {
    || (symbol == '$' && code == "USD") || (symbol == '\U{20AC}' && code == "EUR")
    || (symbol == '\U{A3}' && code == "GBP") || (symbol == '\U{20AA}' && code == "ILS")
  }

  lemma SignExactly(symbol: char, code: string)
    ensures IsSign(symbol, code) <==> symbol in SYMBOLS && SYMBOLS[symbol] == code
  {
  }

  lemma {:induction false} NoCode(s: string, i: nat)
    requires i <= |s| && forall c | c in s :: !Capital(c)
    ensures CodeFrom(s, i) == None
    decreases |s| - i
  {
    if i + 3 <= |s| {
      assert s[i] in s;
      NoCode(s, i + 1);
    }
  }

  lemma SignedCell(symbol: char, number: string)
    requires symbol in SYMBOLS && Amounts.Plain(number)
    ensures
      var cell := [symbol] + number;
      && Trim(cell) == cell && !InParentheses(cell) && Inner(cell) == cell && CodeFrom(cell, 0) == None
      && Symbol(cell) == Some(SYMBOLS[symbol]) && Bare(cell) == number
  {
    PlainCharacters(number);
    SignedIsTrimmed(symbol, number);
    SignedHasNoCode(symbol, number);
    SignIsTaken(symbol, number);
  }

  lemma SignedIsTrimmed(symbol: char, number: string)
    requires symbol in SYMBOLS && number != "" && forall c | c in number :: Digit(c) || c == '.'
    ensures
      var cell := [symbol] + number;
      Trim(cell) == cell && !InParentheses(cell) && Inner(cell) == cell
  {
    var cell := [symbol] + number;
    SignIsPlain(symbol);
    assert cell[0] == symbol && cell[|cell| - 1] == number[|number| - 1] && number[|number| - 1] in number;
    TrimKeeps(cell);
  }

  lemma SignIsTaken(symbol: char, number: string)
    requires symbol in SYMBOLS && forall c | c in number :: Digit(c) || c == '.'
    ensures Symbol([symbol] + number) == Some(SYMBOLS[symbol]) && WithoutSymbols([symbol] + number) == number
  {
    var cell := [symbol] + number;
    assert cell[0] == symbol && cell[1..] == number;
    SymbolsKeep(number);
  }

  lemma SignIsPlain(symbol: char)
    requires symbol in SYMBOLS
    ensures !Space(symbol) && !Capital(symbol) && symbol != '('
  {
    SignExactly(symbol, SYMBOLS[symbol]);
  }

  lemma SignedHasNoCode(symbol: char, number: string)
    requires symbol in SYMBOLS && forall c | c in number :: Digit(c) || c == '.'
    ensures CodeFrom([symbol] + number, 0) == None && WithoutCodes([symbol] + number) == [symbol] + number
  {
    var cell := [symbol] + number;
    SignIsPlain(symbol);
    assert forall c | c in cell :: c == symbol || c in number;
    NoCode(cell, 0);
    CodesKeep(cell);
  }

  /** A number behind a currency sign is read as that number in the sign's currency. */
  lemma SymbolReadsBack(symbol: char, code: string, number: string)
    requires IsSign(symbol, code) && Amounts.Plain(number) && Read(number).Some?
    ensures ReadMoney([symbol] + number) == Ok((Read(number).value, Some(code)))
  {
    SignExactly(symbol, code);
    SignedCell(symbol, number);
    CodedAmount(number, [symbol] + number);
    MoneyIs([symbol] + number, Read(number).value, Some(code));
  }

  /** `t` is what is left of `s` between white space. */
  predicate IsTrimmed(s: string, t: string) {
    exists i, j | 0 <= i <= j <= |s| :: IsTrimmedAt(s, t, i, j)
  }

  predicate IsTrimmedAt(s: string, t: string, i: int, j: int)
    requires 0 <= i <= j <= |s|
  {
    && t == s[i..j] && (forall k | 0 <= k < i :: Space(s[k])) && (forall k | j <= k < |s| :: Space(s[k]))
    && (t != "" ==> !Space(t[0]) && !Space(t[|t| - 1]))
  }

  lemma {:induction false} TrimExactly(s: string)
    ensures IsTrimmed(s, Trim(s))
    decreases |s|
  {
    if s == "" || (!Space(s[0]) && !Space(s[|s| - 1])) {
      assert IsTrimmedAt(s, s, 0, |s|);
    } else if Space(s[0]) {
      TrimExactly(s[1..]);
      TrimmedBehind(s, Trim(s));
    } else {
      TrimExactly(s[..|s| - 1]);
      TrimmedInFront(s, Trim(s));
    }
  }

  lemma TrimmedBehind(s: string, t: string)
    requires s != "" && Space(s[0]) && IsTrimmed(s[1..], t)
    ensures IsTrimmed(s, t)
  {
    var rest := s[1..];
    var i, j :| 0 <= i <= j <= |rest| && IsTrimmedAt(rest, t, i, j);
    assert forall k | 0 < k < |s| :: s[k] == rest[k - 1];
    assert rest[i..j] == s[i + 1..j + 1];
    assert IsTrimmedAt(s, t, i + 1, j + 1);
  }

  lemma TrimmedInFront(s: string, t: string)
    requires s != "" && Space(s[|s| - 1]) && IsTrimmed(s[..|s| - 1], t)
    ensures IsTrimmed(s, t)
  {
    var front := s[..|s| - 1];
    var i, j :| 0 <= i <= j <= |front| && IsTrimmedAt(front, t, i, j);
    assert forall k | 0 <= k < |front| :: s[k] == front[k];
    assert front[i..j] == s[i..j];
    assert IsTrimmedAt(s, t, i, j);
  }

  /** The cell of a row in a column, trimmed; empty if there is none. */
  predicate IsCellAt(row: Row, k: Option<nat>, cell: string) {
    if k.Some? && k.value < |row| then IsTrimmed(row[k.value], cell) else cell == ""
  }

  /** The currency is that of its own column, or else the one told beside the amount, or else the default. */
  predicate IsCurrency(cell: string, money: Option<string>, settings: Settings, currency: string) {
    && (cell != "" ==> currency == settings.upper(cell))
    && (cell == "" && money.Some? ==> currency == settings.upper(money.value))
    && (cell == "" && money.None? ==> currency == settings.upper(settings.currency))
  }

  /** A row is a charge when its date and its amount can be read and its currency is three capitals: of that date,
      amount and currency, with the description and the reference of their columns. */
  lemma RowExactly(columns: Columns, row: Row, settings: Settings, f: Facts, reference: string)
    ensures
      var date, amount := At(row, Some(columns.date)), At(row, Some(columns.amount));
      ReadRow(columns, row, settings) == Charge(f, reference) <==>
        && ReadDate(date, settings.format) == Ok(f.date) && ReadMoney(amount).Ok?
        && ReadMoney(amount).value.0 == f.amount && CurrencyCode(f.currency)
        && IsCurrency(At(row, columns.currency), ReadMoney(amount).value.1, settings, f.currency)
        && f.description == At(row, columns.description) && reference == At(row, columns.id)
  {
    var money := ReadMoney(At(row, Some(columns.amount)));
    if money.Ok? {
      CurrencyExactly(columns, row, money.value.1, settings, f.currency);
    }
  }

  lemma CurrencyExactly(columns: Columns, row: Row, money: Option<string>, settings: Settings, currency: string)
    ensures CurrencyText(row, columns, money, settings) == currency <==>
      IsCurrency(At(row, columns.currency), money, settings, currency)
  {
  }

  /** What is read of a cell is what stands in it between white space. */
  lemma CellsAreTrimmed(row: Row, k: Option<nat>)
    ensures IsCellAt(row, k, At(row, k))
  {
    if k.Some? && k.value < |row| {
      TrimExactly(row[k.value]);
    }
  }
}
