/** Statement import: the rows of a billing export become financial records with stable identities. */
module Statement {
  import opened Basics
  import Csv
  import opened Accounting

  const MAX_BYTES: nat := 2_000_000
  const MAX_ROWS: nat := 5000

  /** The facts that identify a row without a reference. */
  datatype Facts = Facts(date: string, amount: real, currency: string, description: string)

  /** A row as read under the statement's header: skipped with a reason, or a charge whose reference may be
      empty. */
  datatype Reading = Skipped(reason: string) | Charge(facts: Facts, reference: string)

  datatype Source = Source(sourceId: string, accountId: string, provider: string, kind: Kind)

  /** How a statement is read, as far as its rows are concerned: `maps` says whether the header's columns can be told
      apart, `read` turns a header and a row into a reading, `digest` hashes a row's facts. What follows holds for every
      reader. */
  datatype Reader = Reader(maps: Csv.Row -> bool, read: (Csv.Row, Csv.Row) -> Reading, digest: Facts -> string)

  datatype Problem = Empty | TooLarge | NoRows | TooManyRows | NoColumns

  // ------------------------------------------------------------ identities

  function Decimal(n: nat): string {
    if n < 10 then [('0' as int + n) as char] else Decimal(n / 10) + [('0' as int + n % 10) as char]
  }

  predicate Unreferenced(r: Reading) {
    r.Charge? && r.reference == ""
  }

  /** How many earlier unreferenced rows carry a digest. */
  function Occurrences(reader: Reader, before: seq<Reading>, d: string): nat {
    if before == [] then 0
    else
      var last := before[|before| - 1];
      Occurrences(reader, before[..|before| - 1], d)
      + if Unreferenced(last) && reader.digest(last.facts) == d then 1 else 0
  }

  /** The reference is the identity; without one, the digest and the row's ordinal among equal rows are. */
  function Identity(reader: Reader, before: seq<Reading>, r: Reading): string
    requires r.Charge?
  {
    if r.reference != "" then r.reference
    else
      var d := reader.digest(r.facts);
      var ordinal := Occurrences(reader, before, d) + 1;
      if ordinal == 1 then d else d + "#" + Decimal(ordinal)
  }

  function RecordOf(source: Source, id: string, f: Facts): Input {
    Input(source.sourceId, id, source.accountId, source.provider, source.kind, f.amount, f.currency, f.date,
          if f.description == "" then None
          else Some(if |f.description| <= 1000 then f.description else f.description[..1000]))
  }

  function Records(reader: Reader, source: Source, readings: seq<Reading>): seq<Input> {
    if readings == [] then []
    else
      var before, r := readings[..|readings| - 1], readings[|readings| - 1];
      Records(reader, source, before)
      + if r.Charge? then [RecordOf(source, Identity(reader, before, r), r.facts)] else []
  }

  /** Skipped rows are numbered as lines of the statement, its header being line 1. */
  function Skips(readings: seq<Reading>): seq<(nat, string)> {
    if readings == [] then []
    else
      var before, r := readings[..|readings| - 1], readings[|readings| - 1];
      Skips(before) + if r.Skipped? then [(|readings| + 1, r.reason)] else []
  }

  /** The row loop, with its running count of equal rows. */
  method ImportRows(reader: Reader, source: Source, readings: seq<Reading>)
    returns (records: seq<Input>, skipped: seq<(nat, string)>)
    ensures records == Records(reader, source, readings)
    ensures skipped == Skips(readings)
    ensures OffersAsTold(reader, source, readings, records) && SkipsAsTold(readings, skipped)
    ensures |records| + |skipped| == |readings|
  {
    records, skipped := [], [];
    var seen: map<string, nat> := map[];
    ghost var before: seq<Reading> := [];
    for n := 0 to |readings|
      invariant before == readings[..n]
      invariant records == Records(reader, source, before) && skipped == Skips(before) && |records| + |skipped| == n
      invariant Counts(reader, seen, before)
    {
      var r := readings[n];
      TakeNext(readings, n);
      RecordsPush(reader, source, before, r);
      OccurrencesPush(reader, before, r, seen);
      match r {
        case Skipped(reason) => skipped := skipped + [(n + 2, reason)];
        case Charge(facts, reference) =>
          var id := reference;
          if id == "" {
            var d := reader.digest(facts);
            var ordinal := (if d in seen then seen[d] else 0) + 1;
            seen := seen[d := ordinal];
            id := if ordinal == 1 then d else d + "#" + Decimal(ordinal);
          }
          records := records + [RecordOf(source, id, facts)];
      }
      before := before + [r];
    }
    TakeAll(readings);
    ReadingsAreTold(reader, source, readings);
  }

  /** The running count of equal rows. */
  ghost predicate Counts(reader: Reader, seen: map<string, nat>, before: seq<Reading>) {
    forall d :: (if d in seen then seen[d] else 0) == Occurrences(reader, before, d)
  }

  /** One more row. */
  lemma RecordsPush(reader: Reader, source: Source, before: seq<Reading>, r: Reading)
    ensures Records(reader, source, before + [r]) ==
      Records(reader, source, before)
      + if r.Charge? then [RecordOf(source, Identity(reader, before, r), r.facts)] else []
    ensures Skips(before + [r]) == Skips(before) + if r.Skipped? then [(|before| + 2, r.reason)] else []
  {
    var longer := before + [r];
    assert longer[..|longer| - 1] == before && longer[|longer| - 1] == r;
  }

  lemma OccurrencesPush(reader: Reader, before: seq<Reading>, r: Reading, seen: map<string, nat>)
    requires Counts(reader, seen, before)
    ensures !Unreferenced(r) ==> Counts(reader, seen, before + [r])
    ensures Unreferenced(r) ==>
      var d := reader.digest(r.facts);
      Counts(reader, seen[d := (if d in seen then seen[d] else 0) + 1], before + [r])
  {
    var longer := before + [r];
    assert longer[..|longer| - 1] == before && longer[|longer| - 1] == r;
  }

  // ------------------------------------------------------------ what a caller can tell of a statement

  /** The number in figures, without a leading zero. */
  predicate IsDecimal(s: string, n: nat) {
    Numeral(s) && Number(s) == n && (|s| > 1 ==> s[0] != '0')
  }

  predicate HasDigest(reader: Reader, r: Reading, d: string) {
    r.Charge? && r.reference == "" && reader.digest(r.facts) == d
  }

  /** The earlier rows without a reference that have the same digest. */
  function EqualBefore(reader: Reader, readings: seq<Reading>, n: nat, d: string): set<int>
    requires n <= |readings|
  {
    set i | 0 <= i < n && HasDigest(reader, readings[i], d)
  }

  /** A row is known by its reference; without one, by its digest and, from the second equal row on, its number. */
  ghost predicate IsIdentity(reader: Reader, readings: seq<Reading>, k: nat, id: string)
    requires k < |readings| && readings[k].Charge?
  {
    if readings[k].reference != "" then id == readings[k].reference
    else
      var d := reader.digest(readings[k].facts);
      var earlier := |EqualBefore(reader, readings, k, d)|;
      if earlier == 0 then id == d else exists s :: IsDecimal(s, earlier + 1) && id == d + "#" + s
  }

  /** The record of row `k`: its facts, for the statement's source, with at most a thousand characters of note. */
  ghost predicate IsRecordAt(reader: Reader, source: Source, readings: seq<Reading>, k: nat, x: Input)
    requires k < |readings|
  {
    && readings[k].Charge? && IsIdentity(reader, readings, k, x.sourceRecordId)
    && x.sourceId == source.sourceId && x.accountId == source.accountId && x.provider == source.provider
    && x.kind == source.kind
    && var f := readings[k].facts;
       && x.amount == f.amount && x.currency == f.currency && x.date == f.date
       && (if f.description == "" then x.note == None
           else x.note.Some? && x.note.value <= f.description
                && |x.note.value| == if |f.description| < 1000 then |f.description| else 1000)
  }

  predicate Increasing(places: seq<nat>) {
    forall i, j | 0 <= i < j < |places| :: places[i] < places[j]
  }

  /** The records of all charges, in order. */
  ghost predicate RecordsAt(reader: Reader, source: Source, readings: seq<Reading>, records: seq<Input>,
                            places: seq<nat>)
  {
    && Increasing(places) && |records| == |places|
    && (forall k: nat :: k in places <==> k < |readings| && readings[k].Charge?)
    && (forall i | 0 <= i < |places| ::
          places[i] < |readings| && IsRecordAt(reader, source, readings, places[i], records[i]))
  }

  /** The line and the reason of every row that is skipped, in order; the header is line 1. */
  ghost predicate SkipsAt(readings: seq<Reading>, skips: seq<(nat, string)>, places: seq<nat>) {
    && Increasing(places) && |skips| == |places|
    && (forall k: nat :: k in places <==> k < |readings| && readings[k].Skipped?)
    && (forall i | 0 <= i < |places| ::
          && places[i] < |readings| && readings[places[i]].Skipped?
          && skips[i] == (places[i] + 2, readings[places[i]].reason))
  }

  ghost predicate OffersAsTold(reader: Reader, source: Source, readings: seq<Reading>, records: seq<Input>) {
    exists places :: RecordsAt(reader, source, readings, records, places)
  }

  ghost predicate SkipsAsTold(readings: seq<Reading>, skips: seq<(nat, string)>) {
    exists places :: SkipsAt(readings, skips, places)
  }

  /** The rows of a statement, whose text may begin with a byte order mark. */
  function RowsIn(text: string): seq<Csv.Row> {
    if text != "" && text[0] == '\U{FEFF}' then Csv.Parse(text[1..]) else Csv.Parse(text)
  }

  /** Why a statement is not read, in the order in which the reasons are looked for. */
  predicate IsProblem(reader: Reader, text: string, problem: Problem) {
    var blank := forall i | 0 <= i < |text| :: Csv.Space(text[i]);
    var rows := RowsIn(text);
    match problem
    case Empty => blank
    case TooLarge => !blank && |text| > 2_000_000
    case NoRows => !blank && |text| <= 2_000_000 && |rows| <= 1
    case TooManyRows => !blank && |text| <= 2_000_000 && |rows| > 5_001
    case NoColumns => !blank && |text| <= 2_000_000 && 2 <= |rows| <= 5_001 && !reader.maps(rows[0])
  }

  ghost predicate IsReadable(reader: Reader, text: string) {
    forall problem :: !IsProblem(reader, text, problem)
  }

  /** Every row under the header, as it is read. */
  ghost predicate AreReadings(reader: Reader, text: string, readings: seq<Reading>) {
    && |readings| + 1 == |RowsIn(text)|
    && forall i | 0 <= i < |readings| :: readings[i] == reader.read(RowsIn(text)[0], RowsIn(text)[i + 1])
  }

  lemma {:induction false} DecimalExactly(n: nat)
    ensures IsDecimal(Decimal(n), n) && (n > 0 ==> Decimal(n)[0] != '0')
  {
    DecimalReads(n);
    if n >= 10 {
      DecimalExactly(n / 10);
    }
  }

  lemma {:induction false} EqualExactly(reader: Reader, readings: seq<Reading>, n: nat, d: string)
    requires n <= |readings|
    ensures Occurrences(reader, readings[..n], d) == |EqualBefore(reader, readings, n, d)|
  {
    if n == 0 {
      assert EqualBefore(reader, readings, 0, d) == {};
    } else {
      EqualExactly(reader, readings, n - 1, d);
      assert readings[..n][..n - 1] == readings[..n - 1];
      EqualNext(reader, readings, n - 1, d);
    }
  }

  lemma EqualNext(reader: Reader, readings: seq<Reading>, n: nat, d: string)
    requires n < |readings|
    ensures |EqualBefore(reader, readings, n + 1, d)| ==
      |EqualBefore(reader, readings, n, d)| + if HasDigest(reader, readings[n], d) then 1 else 0
  {
    OneMore(EqualBefore(reader, readings, n, d), EqualBefore(reader, readings, n + 1, d), n,
            HasDigest(reader, readings[n], d));
  }

  lemma OneMore(before: set<int>, after: set<int>, n: int, more: bool)
    requires n !in before && forall i :: i in after <==> i in before || (more && i == n)
    ensures |after| == |before| + if more then 1 else 0
  {
    var all := if more then before + {n} else before;
    assert forall i | i in after :: i in all;
    assert forall i | i in all :: i in after;
    assert after == all;
  }

  lemma IdentityExactly(reader: Reader, readings: seq<Reading>, k: nat)
    requires k < |readings| && readings[k].Charge?
    ensures IsIdentity(reader, readings, k, Identity(reader, readings[..k], readings[k]))
  {
    if readings[k].reference == "" {
      var d := reader.digest(readings[k].facts);
      EqualExactly(reader, readings, k, d);
      var n := |EqualBefore(reader, readings, k, d)| + 1;
      DecimalExactly(n);
      assert IsDecimal(Decimal(n), n);
    }
  }

  lemma RecordExactly(reader: Reader, source: Source, readings: seq<Reading>, k: nat)
    requires k < |readings| && readings[k].Charge?
    ensures IsRecordAt(reader, source, readings, k,
                       RecordOf(source, Identity(reader, readings[..k], readings[k]), readings[k].facts))
  {
    IdentityExactly(reader, readings, k);
  }

  /** The charges among the first `n` rows, or the skipped ones. */
  function PlacesOf(readings: seq<Reading>, n: nat, charges: bool): seq<nat>
    requires n <= |readings|
  {
    if n == 0 then []
    else PlacesOf(readings, n - 1, charges) + if readings[n - 1].Charge? == charges then [n - 1] else []
  }

  lemma {:induction false} PlacesExactly(readings: seq<Reading>, n: nat, charges: bool)
    requires n <= |readings|
    ensures Increasing(PlacesOf(readings, n, charges))
    ensures forall k: nat :: k in PlacesOf(readings, n, charges) <==> k < n && readings[k].Charge? == charges
  {
    if n > 0 {
      PlacesExactly(readings, n - 1, charges);
      IncreasingMore(PlacesOf(readings, n - 1, charges), n - 1);
    }
  }

  lemma IncreasingMore(places: seq<nat>, n: nat)
    requires Increasing(places) && forall k | k in places :: k < n
    ensures Increasing(places + [n])
  {
    assert forall i | 0 <= i < |places| :: places[i] in places;
  }

  lemma {:induction false} RecordsAtPlaces(reader: Reader, source: Source, readings: seq<Reading>, n: nat)
    requires n <= |readings|
    ensures
      var places, records := PlacesOf(readings, n, true), Records(reader, source, readings[..n]);
      && |records| == |places|
      && forall i | 0 <= i < |places| ::
           places[i] < |readings| && IsRecordAt(reader, source, readings, places[i], records[i])
  {
    if n > 0 {
      RecordsAtPlaces(reader, source, readings, n - 1);
      TakeNext(readings, n - 1);
      RecordsPush(reader, source, readings[..n - 1], readings[n - 1]);
      if readings[n - 1].Charge? {
        RecordExactly(reader, source, readings, n - 1);
      }
    }
  }

  lemma {:induction false} SkipsAtPlaces(readings: seq<Reading>, n: nat)
    requires n <= |readings|
    ensures
      var places, skips := PlacesOf(readings, n, false), Skips(readings[..n]);
      && |skips| == |places|
      && forall i | 0 <= i < |places| ::
           && places[i] < |readings| && readings[places[i]].Skipped?
           && skips[i] == (places[i] + 2, readings[places[i]].reason)
  {
    if n > 0 {
      SkipsAtPlaces(readings, n - 1);
      assert readings[..n][..n - 1] == readings[..n - 1];
    }
  }

  /** The rows that are read are offered, and skipped, as told. */
  lemma ReadingsAreTold(reader: Reader, source: Source, readings: seq<Reading>)
    ensures OffersAsTold(reader, source, readings, Records(reader, source, readings))
    ensures SkipsAsTold(readings, Skips(readings))
  {
    var n := |readings|;
    assert readings[..n] == readings;
    PlacesExactly(readings, n, true);
    PlacesExactly(readings, n, false);
    RecordsAtPlaces(reader, source, readings, n);
    SkipsAtPlaces(readings, n);
    assert RecordsAt(reader, source, readings, Records(reader, source, readings), PlacesOf(readings, n, true));
    assert SkipsAt(readings, Skips(readings), PlacesOf(readings, n, false));
  }

  // ------------------------------------------------------------ distinct identities

  lemma {:induction false} DecimalReads(n: nat)
    ensures Digits(Decimal(n)) && Number(Decimal(n)) == n
  {
    if n < 10 {
      var s := Decimal(n);
      assert s[..|s| - 1] == "";
    } else {
      DecimalReads(n / 10);
      var s := Decimal(n);
      assert s[..|s| - 1] == Decimal(n / 10);
      assert forall i | 0 <= i < |s| - 1 :: s[i] == Decimal(n / 10)[i];
    }
  }

  /** The part of an identity before its first `#`. */
  function Head(s: string): string {
    if s == "" || s[0] == '#' then "" else [s[0]] + Head(s[1..])
  }

  lemma {:induction false} HeadOfDigest(d: string, rest: string)
    requires '#' !in d && (rest == "" || rest[0] == '#')
    ensures Head(d + rest) == d
  {
    if d != "" {
      assert (d + rest)[1..] == d[1..] + rest;
      HeadOfDigest(d[1..], rest);
    } else {
      assert d + rest == rest;
    }
  }

  lemma {:induction false} OccurrencesGrow(reader: Reader, readings: seq<Reading>, i: nat, j: nat)
    requires i < j <= |readings| && Unreferenced(readings[i])
    ensures Occurrences(reader, readings[..i], reader.digest(readings[i].facts)) <
      Occurrences(reader, readings[..j], reader.digest(readings[i].facts))
    decreases j
  {
    var d := reader.digest(readings[i].facts);
    assert readings[..j][..j - 1] == readings[..j - 1];
    if i < j - 1 {
      OccurrencesGrow(reader, readings, i, j - 1);
    }
  }

  /** Unreferenced rows of one statement get pairwise distinct identities, even rows with identical facts,
      and whatever the hash, as long as a digest contains no `#`. */
  lemma IdentitiesDistinct(reader: Reader, readings: seq<Reading>, i: nat, j: nat)
    requires i < j < |readings| && Unreferenced(readings[i]) && Unreferenced(readings[j])
    requires forall f :: '#' !in reader.digest(f)
    ensures Identity(reader, readings[..i], readings[i]) != Identity(reader, readings[..j], readings[j])
  {
    var d, e := reader.digest(readings[i].facts), reader.digest(readings[j].facts);
    var m, n := Occurrences(reader, readings[..i], d) + 1, Occurrences(reader, readings[..j], e) + 1;
    var restI := if m == 1 then "" else "#" + Decimal(m);
    var restJ := if n == 1 then "" else "#" + Decimal(n);
    HeadOfDigest(d, restI);
    HeadOfDigest(e, restJ);
    assert Identity(reader, readings[..i], readings[i]) == d + restI
      && Identity(reader, readings[..j], readings[j]) == e + restJ;
    if d == e && d + restI == e + restJ {
      OccurrencesGrow(reader, readings, i, j);
      assert (d + restI)[|d|..] == restI && (e + restJ)[|d|..] == restJ;
      assert restI == restJ && n > 1 && m > 1;
      assert restI[1..] == Decimal(m) && restJ[1..] == Decimal(n);
      DecimalReads(m);
      DecimalReads(n);
    }
  }

  // ------------------------------------------------------------ appended rows

  /** Appending rows to a statement leaves every earlier record as it was. */
  lemma {:induction false} RecordsOfPrefix(reader: Reader, source: Source, readings: seq<Reading>, more: seq<Reading>)
    ensures Records(reader, source, readings) <= Records(reader, source, readings + more)
    ensures Skips(readings) <= Skips(readings + more)
    decreases |more|
  {
    if more == [] {
      assert readings + more == readings;
    } else {
      assert (readings + more)[..|readings + more| - 1] == readings + more[..|more| - 1];
      RecordsOfPrefix(reader, source, readings, more[..|more| - 1]);
    }
  }

  // ------------------------------------------------------------ from text to journal

  function StripMark(text: string): string {
    if text != "" && text[0] == '\U{FEFF}' then text[1..] else text
  }

  function ReadAll(reader: Reader, header: Csv.Row, rows: seq<Csv.Row>): seq<Reading> {
    seq(|rows|, i requires 0 <= i < |rows| => reader.read(header, rows[i]))
  }

  function Rows(text: string): seq<Csv.Row> {
    Csv.Parse(StripMark(text))
  }

  /** Why a statement is refused as a whole. */
  function Refused(reader: Reader, text: string): Option<Problem> {
    if Csv.BlankCell(text) then Some(Empty)
    else if |text| > MAX_BYTES then Some(TooLarge)
    else if |Rows(text)| < 2 then Some(NoRows)
    else if |Rows(text)| - 1 > MAX_ROWS then Some(TooManyRows)
    else if !reader.maps(Rows(text)[0]) then Some(NoColumns)
    else None
  }

  function Readings(reader: Reader, text: string): seq<Reading>
    requires Rows(text) != []
  {
    ReadAll(reader, Rows(text)[0], Rows(text)[1..])
  }

  lemma RefusedExactly(reader: Reader, text: string)
    ensures forall problem :: Refused(reader, text) == Some(problem) <==> IsProblem(reader, text, problem)
    ensures Refused(reader, text).None? <==> IsReadable(reader, text)
    ensures Rows(text) == RowsIn(text)
  {
    var refused := Refused(reader, text);
    if refused.Some? {
      assert IsProblem(reader, text, refused.value);
    }
  }

  method ImportStatement(reader: Reader, source: Source, text: string)
    returns (r: Result<(seq<Input>, seq<(nat, string)>), Problem>)
    ensures r.Err? <==> Refused(reader, text).Some?
    ensures r.Err? ==> Some(r.error) == Refused(reader, text)
    ensures r.Ok? ==> r.value == (Records(reader, source, Readings(reader, text)), Skips(Readings(reader, text)))
    ensures forall problem :: r == Err(problem) <==> IsProblem(reader, text, problem)
    ensures r.Ok? ==> forall readings | AreReadings(reader, text, readings) ::
      OffersAsTold(reader, source, readings, r.value.0) && SkipsAsTold(readings, r.value.1)
  {
    RefusedExactly(reader, text);
    if Csv.BlankCell(text) {
      return Err(Empty);
    }
    if |text| > MAX_BYTES {
      return Err(TooLarge);
    }
    var rows := Csv.ParseCsv(StripMark(text));
    if |rows| < 2 {
      return Err(NoRows);
    }
    if |rows| - 1 > MAX_ROWS {
      return Err(TooManyRows);
    }
    if !reader.maps(rows[0]) {
      return Err(NoColumns);
    }
    var records, skipped := ImportRows(reader, source, ReadAll(reader, rows[0], rows[1..]));
    forall readings | AreReadings(reader, text, readings) ensures readings == ReadAll(reader, rows[0], rows[1..]) {
    }
    r := Ok((records, skipped));
  }

  /** What is appended to a statement starts on a line of its own. */
  predicate Continues(text: string, more: string) {
    text != "" && Csv.Continues(StripMark(text), more)
  }

  lemma ReadingsOfAppended(reader: Reader, text: string, more: string)
    requires Continues(text, more) && Rows(text) != []
    ensures Rows(text + more) == Rows(text) + Csv.Parse(more)
    ensures Readings(reader, text + more) == Readings(reader, text) + ReadAll(reader, Rows(text)[0], Csv.Parse(more))
  {
    assert StripMark(text + more) == StripMark(text) + more;
    Csv.ParseAppend(StripMark(text), more);
    assert (Rows(text) + Csv.Parse(more))[1..] == Rows(text)[1..] + Csv.Parse(more);
  }

  /** The same statement later, with lines appended: its earlier records keep their identities and content. */
  lemma StatementExtends(reader: Reader, source: Source, text: string, more: string)
    requires Continues(text, more) && Rows(text) != []
    ensures Rows(text + more) != []
    ensures Records(reader, source, Readings(reader, text)) <= Records(reader, source, Readings(reader, text + more))
  {
    ReadingsOfAppended(reader, text, more);
    RecordsOfPrefix(reader, source, Readings(reader, text), ReadAll(reader, Rows(text)[0], Csv.Parse(more)));
  }

  /** A statement that could be read can still be read with lines appended if and only if it has not outgrown what the
      importer takes. */
  lemma GrownIsRefusedExactly(reader: Reader, text: string, more: string)
    requires Continues(text, more) && Refused(reader, text).None?
    ensures Refused(reader, text + more).None? <==>
      |text + more| <= MAX_BYTES && |Rows(text)| + |Csv.Parse(more)| - 1 <= MAX_ROWS
  {
    ReadingsOfAppended(reader, text, more);
    assert Rows(text + more)[0] == Rows(text)[0];
    var i :| 0 <= i < |text| && !Csv.Space(text[i]);
    assert (text + more)[i] == text[i];
  }

  /** What a statement offers to the journal. */
  function Offer(reader: Reader, source: Source, text: string): seq<Input>
    requires Rows(text) != []
  {
    Records(reader, source, Readings(reader, text))
  }

  // ------------------------------------------------------------ posting a statement

  /** The statement is read and all its records are accepted. */
  predicate Taken(hash: string -> string, reader: Reader, source: Source, rows: seq<Record>, text: string, now: string)
  {
    Refused(reader, text).None? && Accepted(rows, hash, Offer(reader, source, text), now)
  }

  /** The journal after a statement was posted: one that is refused, by the importer or by the journal, leaves it as it
      was. */
  function Posted(hash: string -> string, reader: Reader, source: Source, rows: seq<Record>, text: string, now: string)
    : seq<Record>
  {
    if Refused(reader, text).Some? then rows else Imported(rows, hash, Offer(reader, source, text), now)
  }

  datatype Answer =
    | Unreadable(problem: Problem)
    | NothingRead
    | NotStored(refusal: Refusal)
    | Preview(records: seq<Input>)
    | Stored(inserted: nat, duplicates: nat)

  /** What posting a readable statement answers and leaves, told from its rows. */
  ghost predicate PostsAsTold(hash: string -> string, reader: Reader, source: Source, readings: seq<Reading>,
                              dryRun: bool, now: string, before: seq<Record>, after: seq<Record>, answer: Answer)
  {
    exists records ::
      && OffersAsTold(reader, source, readings, records)
      && RecordsPosted(hash, records, dryRun, now, before, after, answer)
  }

  ghost predicate RecordsPosted(hash: string -> string, records: seq<Input>, dryRun: bool, now: string,
                                before: seq<Record>, after: seq<Record>, answer: Answer)
  {
    if dryRun then answer == Preview(records) && after == before
    else
      && AppendsAsTold(before, hash, records, now, after)
      && (answer == NothingRead <==> records == [])
      && (answer.Stored? <==> BatchFits(before, hash, records))
      && (answer.Stored? ==>
            && answer.inserted == |after| - |before|
            && answer.duplicates == |records| - answer.inserted)
  }

  /** The import route: the statement is read, previewed on a dry run, and its records are appended as one batch. */
  method Post(journal: Journal, hash: string -> string, reader: Reader, source: Source, text: string, dryRun: bool,
              now: string)
    returns (answer: Answer)
    requires journal.Consistent()
    modifies journal
    ensures journal.Consistent()
    ensures journal.rows ==
      if dryRun then old(journal.rows) else Posted(hash, reader, source, old(journal.rows), text, now)
    ensures answer.Stored? <==> !dryRun && Taken(hash, reader, source, old(journal.rows), text, now)
    ensures answer.Stored? ==>
      && answer.inserted == |journal.rows| - |old(journal.rows)|
      && answer.inserted + answer.duplicates == |Offer(reader, source, text)|
    ensures answer.Unreadable? <==> Refused(reader, text).Some?
    ensures answer.Preview? <==> dryRun && Refused(reader, text).None?
    ensures answer.Preview? ==> answer.records == Offer(reader, source, text)
    ensures forall problem :: answer == Unreadable(problem) <==> IsProblem(reader, text, problem)
    ensures !IsReadable(reader, text) ==> journal.rows == old(journal.rows)
    ensures IsReadable(reader, text) ==> forall readings | AreReadings(reader, text, readings) ::
      PostsAsTold(hash, reader, source, readings, dryRun, now, old(journal.rows), journal.rows, answer)
  {
    RefusedExactly(reader, text);
    var read := ImportStatement(reader, source, text);
    if read.Err? {
      return Unreadable(read.error);
    }
    var (records, _) := read.value;
    answer := PostRecords(journal, hash, records, dryRun, now);
  }

  /** The records of a statement that was read are shown, or appended. */
  method PostRecords(journal: Journal, hash: string -> string, records: seq<Input>, dryRun: bool, now: string)
    returns (answer: Answer)
    requires journal.Consistent()
    modifies journal
    ensures journal.Consistent()
    ensures journal.rows == if dryRun then old(journal.rows) else Imported(old(journal.rows), hash, records, now)
    ensures answer.Stored? <==> !dryRun && Accepted(old(journal.rows), hash, records, now)
    ensures answer.Stored? ==>
      && answer.inserted == |journal.rows| - |old(journal.rows)|
      && answer.inserted + answer.duplicates == |records|
    ensures !answer.Unreadable? && (answer.Preview? <==> dryRun)
    ensures answer.Preview? ==> answer.records == records
    ensures RecordsPosted(hash, records, dryRun, now, old(journal.rows), journal.rows, answer)
  {
    ImportIsTold(journal.rows, hash, [], now);
    if dryRun {
      return Preview(records);
    }
    if records == [] {
      return NothingRead;
    }
    var appended := journal.Append(hash, records, now);
    match appended
    case Err(refusal) => answer := NotStored(refusal);
    case Ok(counts) => answer := Stored(counts.0, counts.1);
  }

  /** The rows a batch adds when lines are appended to a statement that was accepted before. */
  lemma GrownBatch(hash: string -> string, rows: seq<Record>, first: seq<Input>, longer: seq<Input>, now: string,
                   later: string)
    requires first <= longer && Distinct(rows) && Accepted(rows, hash, first, now)
    ensures
      var stored := Imported(rows, hash, first, now);
      var grown := ToRecords(hash, first, now) + ToRecords(hash, longer[|first|..], later);
      && (Accepted(stored, hash, longer, later) <==>
            |longer| <= MAX_BATCH && AllValid(longer) && Acceptable(rows, grown))
      && Imported(stored, hash, longer, later) ==
           if Accepted(stored, hash, longer, later) then Appended(rows, grown) else stored
  {
    var a, b, c :=
      ToRecords(hash, first, now), ToRecords(hash, first, later), ToRecords(hash, longer[|first|..], later);
    assert AllSame(a, b);
    assert ToRecords(hash, longer, later) == b + c;
    ExtendedImport(rows, a, b, c);
  }

  lemma SameBatch(hash: string -> string, rows: seq<Record>, first: seq<Input>, now: string, later: string)
    requires Distinct(rows) && Accepted(rows, hash, first, now)
    ensures Accepted(Imported(rows, hash, first, now), hash, first, later)
    ensures Imported(Imported(rows, hash, first, now), hash, first, later) == Imported(rows, hash, first, now)
  {
    var a, b := ToRecords(hash, first, now), ToRecords(hash, first, later);
    assert AllSame(a, b);
    AppendIdempotent(rows, a, b);
  }

  /** A statement once taken is taken again at any later time, and inserts nothing. */
  lemma PostedAgain(hash: string -> string, reader: Reader, source: Source, text: string, rows: seq<Record>,
                    now: string, later: string)
    requires Distinct(rows) && Taken(hash, reader, source, rows, text, now)
    ensures
      var stored := Posted(hash, reader, source, rows, text, now);
      && Taken(hash, reader, source, stored, text, later)
      && Posted(hash, reader, source, stored, text, later) == stored
  {
    SameBatch(hash, rows, Offer(reader, source, text), now, later);
  }

  /** End to end, from text to journal. A statement once taken, and posted later with lines appended, is taken if and
      only if it has at most so many characters and data rows, at most so many of its rows are charges, its charges are
      valid records, and nothing in it conflicts; the journal is then as if both had come at once, and otherwise nothing
      at all is inserted. */
  lemma ImportTwice(hash: string -> string, reader: Reader, source: Source, text: string, more: string,
                    rows: seq<Record>, now: string, later: string)
    requires Continues(text, more) && Distinct(rows) && Taken(hash, reader, source, rows, text, now)
    ensures Rows(text + more) == Rows(text) + Csv.Parse(more)
    ensures Offer(reader, source, text) <= Offer(reader, source, text + more)
    ensures
      var first, longer := Offer(reader, source, text), Offer(reader, source, text + more);
      var stored := Posted(hash, reader, source, rows, text, now);
      var grown := ToRecords(hash, first, now) + ToRecords(hash, longer[|first|..], later);
      && (Taken(hash, reader, source, stored, text + more, later) <==>
            && |text + more| <= MAX_BYTES && |Rows(text + more)| - 1 <= MAX_ROWS
            && |longer| <= MAX_BATCH && AllValid(longer) && Acceptable(rows, grown))
      && Posted(hash, reader, source, stored, text + more, later)
         == if Taken(hash, reader, source, stored, text + more, later) then Appended(rows, grown) else stored
  {
    ReadingsOfAppended(reader, text, more);
    StatementExtends(reader, source, text, more);
    GrownIsRefusedExactly(reader, text, more);
    GrownBatch(hash, rows, Offer(reader, source, text), Offer(reader, source, text + more), now, later);
  }
}
