/** Financial records: validation, conflict-aware deduplication and the append-only journal. */
module Accounting {
  import opened Basics
  import Csv

  datatype Kind = Payment | Accrual | ApiEquivalent | Balance | Subscription

  datatype Input = Input(
    sourceId: string, sourceRecordId: string, accountId: string, provider: string, kind: Kind,
    amount: real, currency: string, date: string, note: Option<string>)

  datatype Record = Record(id: string, facts: Input, observedAt: string)

  /** `Missing` is an invalid record or a batch of the wrong size, `Conflict` two records under one id. */
  datatype Refusal = Invalid | Conflict

  // ------------------------------------------------------------ validation

  predicate Text(s: string) {
    !Csv.BlankCell(s) && |s| <= 200
  }

  function Number(s: string): nat
    requires Digits(s)
  {
    if s == "" then 0 else 10 * Number(s[..|s| - 1]) + (s[|s| - 1] as int - '0' as int)
  }

  predicate Leap(year: nat) {
    year % 4 == 0 && (year % 100 != 0 || year % 400 == 0)
  }

  function DaysIn(year: nat, month: nat): nat {
    if month == 2 then (if Leap(year) then 29 else 28)
    else if month in {4, 6, 9, 11} then 30 else 31
  }

  /** `YYYY-MM-DD` of a day that exists. */
  predicate CalendarDate(s: string) {
    && |s| == 10 && s[4] == '-' && s[7] == '-'
    && Digits(s[..4]) && Digits(s[5..7]) && Digits(s[8..])
    && 1 <= Number(s[5..7]) <= 12 && 1 <= Number(s[8..]) <= DaysIn(Number(s[..4]), Number(s[5..7]))
  }

  predicate CurrencyCode(s: string) {
    |s| == 3 && forall i | 0 <= i < 3 :: 'A' <= s[i] <= 'Z'
  }

  predicate Valid(r: Input) {
    && Text(r.sourceId) && Text(r.sourceRecordId) && Text(r.accountId)
    && Text(r.provider) && Text(r.date) && Text(r.currency)
    && -1.0e12 <= r.amount <= 1.0e12
    && CalendarDate(r.date) && CurrencyCode(r.currency)
    && (r.note.Some? ==> |r.note.value| <= 1000)
  }

  /** `hash` is the opaque id of a text; nothing but determinism is assumed of it here. */
  function ToRecord(hash: string -> string, r: Input, now: string): Record {
    Record(hash(r.sourceId + "\0" + r.sourceRecordId), r, now)
  }

  function ToRecords(hash: string -> string, inputs: seq<Input>, now: string): (records: seq<Record>)
    ensures |records| == |inputs|
    ensures forall i | 0 <= i < |inputs| :: records[i] == ToRecord(hash, inputs[i], now)
  {
    seq(|inputs|, i requires 0 <= i < |inputs| => ToRecord(hash, inputs[i], now))
  }

  // ------------------------------------------------------------ deduplication

  /** Equal in everything but the time of observation. */
  predicate Same(a: Record, b: Record) {
    a.id == b.id && a.facts == b.facts
  }

  predicate Known(rows: seq<Record>, id: string) {
    exists i | 0 <= i < |rows| :: rows[i].id == id
  }

  predicate Conflicting(rows: seq<Record>) {
    exists i, j | 0 <= i < j < |rows| :: rows[i].id == rows[j].id && !Same(rows[i], rows[j])
  }

  /** The first record of each id, in order. */
  function Firsts(rows: seq<Record>): seq<Record> {
    if rows == [] then []
    else
      var front := rows[..|rows| - 1];
      if Known(front, rows[|rows| - 1].id) then Firsts(front) else Firsts(front) + [rows[|rows| - 1]]
  }

  predicate Distinct(rows: seq<Record>) {
    forall i, j | 0 <= i < j < |rows| :: rows[i].id != rows[j].id
  }

  lemma {:induction false} FirstsProperties(rows: seq<Record>)
    ensures Distinct(Firsts(rows))
    ensures forall id :: Known(Firsts(rows), id) <==> Known(rows, id)
    ensures forall r | r in Firsts(rows) :: r in rows
    ensures |Firsts(rows)| <= |rows|
  {
    if rows != [] {
      var front, last := rows[..|rows| - 1], rows[|rows| - 1];
      FirstsProperties(front);
      assert rows == front + [last];
      KnownAppend(front, [last]);
      KnownAppend(Firsts(front), [last]);
      if !Known(front, last.id) {
        assert !Known(Firsts(front), last.id);
      }
    }
  }

  lemma KnownAppend(a: seq<Record>, b: seq<Record>)
    ensures forall id :: Known(a + b, id) <==> Known(a, id) || Known(b, id)
  {
    forall id ensures Known(a + b, id) <==> Known(a, id) || Known(b, id) {
      if Known(a, id) {
        var i :| 0 <= i < |a| && a[i].id == id;
        assert (a + b)[i].id == id;
      }
      if Known(b, id) {
        var i :| 0 <= i < |b| && b[i].id == id;
        assert (a + b)[|a| + i].id == id;
      }
    }
  }

  lemma {:induction false} DistinctFirsts(rows: seq<Record>)
    requires Distinct(rows)
    ensures Firsts(rows) == rows && !Conflicting(rows)
  {
    if rows != [] {
      var front, last := rows[..|rows| - 1], rows[|rows| - 1];
      DistinctFirsts(front);
      assert front + [last] == rows;
      FirstsPush(front, last);
    }
  }

  /** `deduplicateRecords`: fails exactly when two rows share an id but differ in more than their observation,
      and otherwise keeps the first record of each id, in order. */
  method Deduplicate(rows: seq<Record>) returns (r: Result<seq<Record>, Refusal>)
    ensures r.Err? <==> Conflicting(rows)
    ensures r.Err? ==> r.error == Conflict
    ensures r.Ok? ==> r.value == Firsts(rows)
  {
    var kept: seq<Record> := [];
    var byId: map<string, Record> := map[];
    ghost var seen: seq<Record> := [];
    for n := 0 to |rows|
      invariant seen == rows[..n] && Deduped(kept, byId, seen)
    {
      var row := rows[n];
      if row.id in byId && !Same(byId[row.id], row) {
        IndexFindsConflict(kept, byId, rows, n);
        return Err(Conflict);
      }
      DedupedPush(kept, byId, seen, row);
      TakeNext(rows, n);
      if row.id !in byId {
        kept := kept + [row];
        byId := byId[row.id := row];
      }
      seen := seen + [row];
    }
    TakeAll(rows);
    r := Ok(kept);
  }

  ghost predicate Deduped(kept: seq<Record>, byId: map<string, Record>, seen: seq<Record>) {
    kept == Firsts(seen) && !Conflicting(seen) && Indexes(byId, seen)
  }

  lemma DedupedPush(kept: seq<Record>, byId: map<string, Record>, seen: seq<Record>, row: Record)
    requires Deduped(kept, byId, seen) && (row.id in byId ==> Same(byId[row.id], row))
    ensures row.id in byId ==> Deduped(kept, byId, seen + [row])
    ensures row.id !in byId ==> Deduped(kept + [row], byId[row.id := row], seen + [row])
  {
    IndexGrows(byId, seen, row);
    FirstsPush(seen, row);
  }

  lemma FirstsPush(seen: seq<Record>, row: Record)
    ensures Firsts(seen + [row]) == if Known(seen, row.id) then Firsts(seen) else Firsts(seen) + [row]
  {
    assert (seen + [row])[..|seen|] == seen;
  }

  /** The map holds, for every id seen, a record that agrees with all seen under it. */
  ghost predicate Indexes(byId: map<string, Record>, seen: seq<Record>) {
    && (forall i | 0 <= i < |seen| :: seen[i].id in byId && Same(byId[seen[i].id], seen[i]))
    && (forall id | id in byId :: byId[id].id == id && byId[id] in seen)
  }

  lemma IndexFindsConflict(kept: seq<Record>, byId: map<string, Record>, rows: seq<Record>, n: nat)
    requires n < |rows| && Deduped(kept, byId, rows[..n]) && rows[n].id in byId && !Same(byId[rows[n].id], rows[n])
    ensures Conflicting(rows)
  {
    var i :| 0 <= i < n && rows[..n][i] == byId[rows[n].id];
    assert rows[i].id == rows[n].id && !Same(rows[i], rows[n]);
  }

  lemma IndexGrows(byId: map<string, Record>, seen: seq<Record>, row: Record)
    requires Indexes(byId, seen) && !Conflicting(seen)
    requires row.id in byId ==> Same(byId[row.id], row)
    ensures Known(seen, row.id) <==> row.id in byId
    ensures !Conflicting(seen + [row])
    ensures Indexes(if row.id in byId then byId else byId[row.id := row], seen + [row])
  {
    if row.id in byId {
      var i :| 0 <= i < |seen| && seen[i] == byId[row.id];
      assert seen[i].id == row.id;
    }
    var all := seen + [row];
    forall i, j | 0 <= i < j < |all| && all[i].id == all[j].id ensures Same(all[i], all[j]) {
      if j < |seen| {
        assert all[i] == seen[i] && all[j] == seen[j];
      } else {
        assert all[i] == seen[i] && all[j] == row;
      }
    }
    assert all[|seen|] == row;
  }

  // ------------------------------------------------------------ what a caller can tell of a batch

  predicate IsFigure(c: char) {
    '0' <= c <= '9'
  }

  function Figure(c: char): nat
    requires IsFigure(c)
  {
    c as int - '0' as int
  }

  /** A day of the Gregorian calendar. */
  predicate IsDay(year: nat, month: nat, day: nat) {
    && 1 <= month <= 12 && 1 <= day <= 31
    && (month == 4 || month == 6 || month == 9 || month == 11 ==> day <= 30)
    && (month == 2 ==> day <= 29)
    && (month == 2 && day == 29 ==> IsLeap(year))
  }

  predicate IsLeap(year: nat) {
    year % 400 == 0 || (year % 4 == 0 && year % 100 != 0)
  }

  /** Four figures of the year, two of the month and two of the day, with dashes between. */
  predicate IsDate(s: string) {
    && |s| == 10 && s[4] == '-' && s[7] == '-'
    && IsFigure(s[0]) && IsFigure(s[1]) && IsFigure(s[2]) && IsFigure(s[3])
    && IsFigure(s[5]) && IsFigure(s[6]) && IsFigure(s[8]) && IsFigure(s[9])
    && IsDay(1000 * Figure(s[0]) + 100 * Figure(s[1]) + 10 * Figure(s[2]) + Figure(s[3]),
             10 * Figure(s[5]) + Figure(s[6]), 10 * Figure(s[8]) + Figure(s[9]))
  }

  /** A text that is not blank and not too long. */
  predicate IsText(s: string) {
    |s| <= 200 && exists i | 0 <= i < |s| :: !Csv.Space(s[i])
  }

  predicate IsRecordable(r: Input) {
    && IsText(r.sourceId) && IsText(r.sourceRecordId) && IsText(r.accountId) && IsText(r.provider)
    && -1_000_000_000_000.0 <= r.amount && r.amount <= 1_000_000_000_000.0
    && |r.currency| == 3 && 'A' <= r.currency[0] <= 'Z' && 'A' <= r.currency[1] <= 'Z' && 'A' <= r.currency[2] <= 'Z'
    && IsDate(r.date) && (r.note == None || |r.note.value| <= 1000)
  }

  /** The id that a record is stored under. */
  function IdOf(hash: string -> string, r: Input): string {
    hash(r.sourceId + "\0" + r.sourceRecordId)
  }

  /** Every input can be recorded, and none differs from another, or from a stored record, of the same id. */
  ghost predicate BatchFits(rows: seq<Record>, hash: string -> string, inputs: seq<Input>) {
    && 1 <= |inputs| && |inputs| <= 1000
    && (forall i | 0 <= i < |inputs| :: IsRecordable(inputs[i]))
    && (forall i, j | 0 <= i < j < |inputs| && IdOf(hash, inputs[i]) == IdOf(hash, inputs[j]) :: inputs[i] == inputs[j])
    && (forall k, j | 0 <= k < |rows| && 0 <= j < |inputs| && rows[k].id == IdOf(hash, inputs[j]) ::
          rows[k].facts == inputs[j])
  }

  /** No stored record and no earlier input has this input's id. */
  ghost predicate IsNew(rows: seq<Record>, hash: string -> string, inputs: seq<Input>, j: nat)
    requires j < |inputs|
  {
    && (forall k | 0 <= k < |rows| :: rows[k].id != IdOf(hash, inputs[j]))
    && (forall i | 0 <= i < j :: IdOf(hash, inputs[i]) != IdOf(hash, inputs[j]))
  }

  /** The record of an input, as observed now. */
  predicate IsRecordOf(hash: string -> string, r: Input, now: string, record: Record) {
    record.id == IdOf(hash, r) && record.facts == r && record.observedAt == now
  }

  /** The new rows stand behind the old ones, in the order of the inputs at `places`, which are all that are new. */
  ghost predicate AddsAt(before: seq<Record>, hash: string -> string, inputs: seq<Input>, now: string,
                         after: seq<Record>, places: seq<nat>)
  {
    && (forall i, j | 0 <= i < j < |places| :: places[i] < places[j])
    && (forall i | 0 <= i < |places| :: places[i] < |inputs|)
    && (forall j: nat | j < |inputs| :: j in places <==> IsNew(before, hash, inputs, j))
    && |after| == |before| + |places| && before <= after
    && (forall i | 0 <= i < |places| :: IsRecordOf(hash, inputs[places[i]], now, after[|before| + i]))
  }

  /** What a batch leaves of the journal. */
  ghost predicate AppendsAsTold(before: seq<Record>, hash: string -> string, inputs: seq<Input>, now: string,
                                after: seq<Record>)
  {
    if BatchFits(before, hash, inputs) then exists places :: AddsAt(before, hash, inputs, now, after, places)
    else after == before
  }

  lemma NumberOfTwo(s: string)
    requires |s| == 2 && Digits(s)
    ensures Number(s) == 10 * Figure(s[0]) + Figure(s[1])
  {
    assert s[..1] == [s[0]] && s[..1][..0] == "";
    assert Number(s[..1]) == Figure(s[0]);
  }

  lemma NumberOfFour(s: string)
    requires |s| == 4 && Digits(s)
    ensures Number(s) == 1000 * Figure(s[0]) + 100 * Figure(s[1]) + 10 * Figure(s[2]) + Figure(s[3])
  {
    NumberOfTwo(s[..2]);
    assert s[..3][..2] == s[..2] && s[..3][2] == s[2];
    assert Number(s[..3]) == 10 * Number(s[..2]) + Figure(s[2]);
  }

  lemma LeapExactly(year: nat)
    ensures Leap(year) <==> IsLeap(year)
  {
    if year % 400 == 0 {
      assert year == 4 * (100 * (year / 400));
    }
  }

  lemma DayExactly(year: nat, month: nat, day: nat)
    ensures 1 <= month <= 12 && 1 <= day <= DaysIn(year, month) <==> IsDay(year, month, day)
  {
    LeapExactly(year);
    DaysExactly(year, month, IsLeap(year));
  }

  lemma DaysExactly(year: nat, month: nat, leap: bool)
    requires Leap(year) == leap
    ensures DaysIn(year, month) ==
      if month == 2 then (if leap then 29 else 28)
      else if month == 4 || month == 6 || month == 9 || month == 11 then 30 else 31
  {
  }

  lemma DateExactly(s: string)
    ensures CalendarDate(s) <==> IsDate(s)
  {
    if |s| == 10 {
      FiguresExactly(s);
      if Digits(s[..4]) && Digits(s[5..7]) && Digits(s[8..]) {
        NumberOfFour(s[..4]);
        NumberOfTwo(s[5..7]);
        NumberOfTwo(s[8..]);
        DayExactly(Number(s[..4]), Number(s[5..7]), Number(s[8..]));
      }
    }
  }

  lemma FiguresExactly(s: string)
    requires |s| == 10
    ensures Digits(s[..4]) <==> IsFigure(s[0]) && IsFigure(s[1]) && IsFigure(s[2]) && IsFigure(s[3])
    ensures Digits(s[5..7]) <==> IsFigure(s[5]) && IsFigure(s[6])
    ensures Digits(s[8..]) <==> IsFigure(s[8]) && IsFigure(s[9])
  {
    var y, m, d := s[..4], s[5..7], s[8..];
    assert y[0] == s[0] && y[1] == s[1] && y[2] == s[2] && y[3] == s[3];
    assert m[0] == s[5] && m[1] == s[6] && d[0] == s[8] && d[1] == s[9];
  }

  /** A record is valid if and only if it can be recorded. */
  lemma ValidExactly(r: Input)
    ensures Valid(r) <==> IsRecordable(r)
  {
    DateExactly(r.date);
    if CalendarDate(r.date) && CurrencyCode(r.currency) {
      assert !Csv.Space(r.date[0]) && !Csv.Space(r.currency[0]);
    }
  }

  // ------------------------------------------------------------ the journal

  /** The records not yet stored. */
  function Fresh(rows: seq<Record>, more: seq<Record>): seq<Record> {
    if more == [] then []
    else
      var front := more[..|more| - 1];
      if Known(rows, more[|more| - 1].id) then Fresh(rows, front) else Fresh(rows, front) + [more[|more| - 1]]
  }

  predicate Acceptable(rows: seq<Record>, requested: seq<Record>) {
    !Conflicting(rows + requested)
  }

  /** The journal after an accepted batch. */
  function Appended(rows: seq<Record>, requested: seq<Record>): seq<Record> {
    rows + Fresh(rows, Firsts(requested))
  }

  lemma FreshPush(rows: seq<Record>, more: seq<Record>, r: Record)
    ensures Fresh(rows, more + [r]) == if Known(rows, r.id) then Fresh(rows, more) else Fresh(rows, more) + [r]
  {
    assert (more + [r])[..|more|] == more;
  }

  lemma {:induction false} FirstsAppend(rows: seq<Record>, more: seq<Record>)
    requires Distinct(rows)
    ensures Firsts(rows + more) == rows + Fresh(rows, Firsts(more))
    decreases |more|
  {
    if more == [] {
      assert rows + more == rows;
      DistinctFirsts(rows);
    } else {
      var front, last := more[..|more| - 1], more[|more| - 1];
      FirstsAppend(rows, front);
      assert front + [last] == more && rows + front + [last] == rows + more;
      FirstsPush(front, last);
      FirstsPush(rows + front, last);
      KnownAppend(rows, front);
      FreshPush(rows, Firsts(front), last);
      if Known(rows, last.id) {
        Regroup(rows, Fresh(rows, Firsts(front)), []);
      } else {
        Regroup(rows, Fresh(rows, Firsts(front)), [last]);
      }
    }
  }

  /** Conflicts with the batch or inside it are conflicts among what is kept of it. */
  lemma FirstsConflict(rows: seq<Record>, more: seq<Record>)
    requires !Conflicting(more)
    ensures Conflicting(rows + Firsts(more)) <==> Conflicting(rows + more)
  {
    FirstsProperties(more);
    if Conflicting(rows + Firsts(more)) {
      var i, j :| 0 <= i < j < |rows + Firsts(more)| && (rows + Firsts(more))[i].id == (rows + Firsts(more))[j].id
        && !Same((rows + Firsts(more))[i], (rows + Firsts(more))[j]);
      if j < |rows| {
        assert (rows + more)[i] == rows[i] && (rows + more)[j] == rows[j];
      } else {
        var r := Firsts(more)[j - |rows|];
        assert r in Firsts(more);
        var k :| 0 <= k < |more| && more[k] == r;
        assert (rows + more)[|rows| + k] == r;
        if i < |rows| {
          assert (rows + more)[i] == rows[i];
        }
      }
    }
    if Conflicting(rows + more) {
      var all := rows + more;
      var i, j :| 0 <= i < j < |all| && all[i].id == all[j].id && !Same(all[i], all[j]);
      if j < |rows| {
        assert (rows + Firsts(more))[i] == rows[i] && (rows + Firsts(more))[j] == rows[j];
      } else {
        var r := more[j - |rows|];
        assert Known(more, r.id);
        var k :| 0 <= k < |Firsts(more)| && Firsts(more)[k].id == r.id;
        assert Firsts(more)[k] in more;
        var l :| 0 <= l < |more| && more[l] == Firsts(more)[k];
        assert Same(more[l], r);
        assert i < |rows|;
        assert (rows + Firsts(more))[i] == rows[i] && (rows + Firsts(more))[|rows| + k] == Firsts(more)[k];
      }
    }
  }

  const MAX_BATCH: nat := 1000

  predicate AllValid(inputs: seq<Input>) {
    forall i | 0 <= i < |inputs| :: Valid(inputs[i])
  }

  /** A batch is taken as a whole: of the right size, valid throughout, and without any conflict. */
  predicate Accepted(rows: seq<Record>, hash: string -> string, inputs: seq<Input>, now: string) {
    1 <= |inputs| <= MAX_BATCH && AllValid(inputs) && Acceptable(rows, ToRecords(hash, inputs, now))
  }

  /** The journal after a batch was offered. */
  function Imported(rows: seq<Record>, hash: string -> string, inputs: seq<Input>, now: string): seq<Record> {
    if Accepted(rows, hash, inputs, now) then Appended(rows, ToRecords(hash, inputs, now)) else rows
  }

  class Journal {
    var rows: seq<Record>

    predicate Consistent()
      reads this
    {
      Distinct(rows)
    }

    constructor ()
      ensures rows == [] && Consistent()
    {
      rows := [];
    }

    /** `appendFinancialRecordsTo`: all of a batch or, when anything in it is invalid or conflicts, nothing. */
    method Append(hash: string -> string, inputs: seq<Input>, now: string) returns (r: Result<(nat, nat), Refusal>)
      requires Consistent()
      modifies this
      ensures Consistent()
      ensures r.Ok? <==> Accepted(old(rows), hash, inputs, now)
      ensures rows == Imported(old(rows), hash, inputs, now)
      ensures r.Ok? <==> BatchFits(old(rows), hash, inputs)
      ensures AppendsAsTold(old(rows), hash, inputs, now, rows)
      ensures r == Err(Invalid) <==>
        inputs == [] || |inputs| > 1000 || !(forall i | 0 <= i < |inputs| :: IsRecordable(inputs[i]))
      ensures r.Ok? ==> r.value.0 == |rows| - |old(rows)| && r.value.0 + r.value.1 == |inputs|
    {
      ImportIsTold(rows, hash, inputs, now);
      BatchExactly(rows, hash, inputs, now);
      var requested := Requested(hash, inputs, now);
      if requested.None? {
        return Err(Invalid);
      }
      r := Store(requested.value);
    }

    /** What is appended of valid records. */
    method Store(requested: seq<Record>) returns (r: Result<(nat, nat), Refusal>)
      requires Consistent()
      modifies this
      ensures Consistent()
      ensures r.Ok? <==> Acceptable(old(rows), requested)
      ensures r.Err? ==> r.error == Conflict && rows == old(rows)
      ensures r.Ok? ==> rows == Appended(old(rows), requested)
      ensures r.Ok? ==> r.value.0 == |rows| - |old(rows)| && r.value.0 + r.value.1 == |requested|
    {
      var unique := Deduplicate(requested);
      if unique.Err? {
        ConflictInBatch(rows, requested);
        return Err(Conflict);
      }
      FirstsConflict(rows, requested);
      FirstsProperties(requested);
      DistinctFirsts(Firsts(requested));
      FirstsAppend(rows, Firsts(requested));
      var combined := Deduplicate(rows + unique.value);
      if combined.Err? {
        return Err(Conflict);
      }
      FirstsProperties(rows + unique.value);
      FreshIsShorter(rows, Firsts(requested));
      var inserted := |combined.value| - |rows|;
      rows := combined.value;
      r := Ok((inserted, |requested| - inserted));
    }
  }

  lemma AllValidExactly(inputs: seq<Input>)
    ensures AllValid(inputs) <==> forall i | 0 <= i < |inputs| :: IsRecordable(inputs[i])
  {
    forall i | 0 <= i < |inputs| ensures Valid(inputs[i]) <==> IsRecordable(inputs[i]) {
      ValidExactly(inputs[i]);
    }
  }

  /** The records of a batch of the right size whose inputs are all valid. */
  method Requested(hash: string -> string, inputs: seq<Input>, now: string) returns (requested: Option<seq<Record>>)
    ensures requested.Some? <==> 1 <= |inputs| <= MAX_BATCH && AllValid(inputs)
    ensures requested.Some? ==> requested.value == ToRecords(hash, inputs, now)
    ensures requested.None? <==>
      inputs == [] || |inputs| > 1000 || !(forall i | 0 <= i < |inputs| :: IsRecordable(inputs[i]))
  {
    AllValidExactly(inputs);
    if inputs == [] || |inputs| > MAX_BATCH {
      return None;
    }
    var records: seq<Record> := [];
    for n := 0 to |inputs|
      invariant records == ToRecords(hash, inputs, now)[..n]
      invariant forall i | 0 <= i < n :: Valid(inputs[i])
    {
      if !Valid(inputs[n]) {
        return None;
      }
      records := records + [ToRecord(hash, inputs[n], now)];
    }
    assert records == ToRecords(hash, inputs, now);
    requested := Some(records);
  }

  lemma ConflictInBatch(rows: seq<Record>, more: seq<Record>)
    requires Conflicting(more)
    ensures Conflicting(rows + more)
  {
    var i, j :| 0 <= i < j < |more| && more[i].id == more[j].id && !Same(more[i], more[j]);
    assert (rows + more)[|rows| + i] == more[i] && (rows + more)[|rows| + j] == more[j];
  }

  lemma {:induction false} FreshIsShorter(rows: seq<Record>, more: seq<Record>)
    ensures |Fresh(rows, more)| <= |more|
  {
    if more != [] {
      FreshIsShorter(rows, more[..|more| - 1]);
    }
  }

  // ------------------------------------------------------------ a batch does what is told of it

  lemma BatchExactly(rows: seq<Record>, hash: string -> string, inputs: seq<Input>, now: string)
    requires Distinct(rows)
    ensures Accepted(rows, hash, inputs, now) <==> BatchFits(rows, hash, inputs)
  {
    forall i | 0 <= i < |inputs| ensures Valid(inputs[i]) <==> IsRecordable(inputs[i]) {
      ValidExactly(inputs[i]);
    }
    if BatchFits(rows, hash, inputs) {
      FittingIsAcceptable(rows, hash, inputs, now);
    }
    if Accepted(rows, hash, inputs, now) {
      AcceptedFits(rows, hash, inputs, now);
    }
  }

  lemma FittingIsAcceptable(rows: seq<Record>, hash: string -> string, inputs: seq<Input>, now: string)
    requires Distinct(rows) && BatchFits(rows, hash, inputs)
    ensures Acceptable(rows, ToRecords(hash, inputs, now))
  {
    var batch := ToRecords(hash, inputs, now);
    var all := rows + batch;
    forall i, j | 0 <= i < j < |all| && all[i].id == all[j].id ensures Same(all[i], all[j]) {
      if j >= |rows| {
        assert all[j] == ToRecord(hash, inputs[j - |rows|], now);
        if i >= |rows| {
          assert all[i] == ToRecord(hash, inputs[i - |rows|], now);
        }
      }
    }
  }

  lemma AcceptedFits(rows: seq<Record>, hash: string -> string, inputs: seq<Input>, now: string)
    requires Accepted(rows, hash, inputs, now)
    requires forall i | 0 <= i < |inputs| :: IsRecordable(inputs[i])
    ensures BatchFits(rows, hash, inputs)
  {
    var batch := ToRecords(hash, inputs, now);
    var all := rows + batch;
    forall i, j | 0 <= i < j < |inputs| && IdOf(hash, inputs[i]) == IdOf(hash, inputs[j])
      ensures inputs[i] == inputs[j]
    {
      assert all[|rows| + i] == batch[i] && all[|rows| + j] == batch[j];
    }
    forall k, j | 0 <= k < |rows| && 0 <= j < |inputs| && rows[k].id == IdOf(hash, inputs[j])
      ensures rows[k].facts == inputs[j]
    {
      assert all[k] == rows[k] && all[|rows| + j] == batch[j];
    }
  }

  lemma {:induction false} AddsExactly(rows: seq<Record>, hash: string -> string, inputs: seq<Input>, now: string)
    returns (places: seq<nat>)
    requires Distinct(rows)
    ensures AddsAt(rows, hash, inputs, now, Appended(rows, ToRecords(hash, inputs, now)), places)
    decreases |inputs|
  {
    if inputs == [] {
      places := [];
      assert Appended(rows, []) == rows;
    } else {
      var front, last := inputs[..|inputs| - 1], inputs[|inputs| - 1];
      var earlier := AddsExactly(rows, hash, front, now);
      var batch, record := ToRecords(hash, front, now), ToRecord(hash, last, now);
      assert ToRecords(hash, inputs, now) == batch + [record];
      AppendOne(rows, batch, record);
      NewExactly(rows, hash, inputs, now);
      places := if IsNew(rows, hash, inputs, |front|) then earlier + [|front|] else earlier;
      AddsOne(rows, hash, inputs, now, Appended(rows, batch), earlier);
    }
  }

  /** The last input is new if and only if its id is neither stored nor in the batch before it. */
  lemma NewExactly(rows: seq<Record>, hash: string -> string, inputs: seq<Input>, now: string)
    requires inputs != []
    ensures
      var n := |inputs| - 1;
      IsNew(rows, hash, inputs, n) <==>
        !Known(rows, IdOf(hash, inputs[n])) && !Known(ToRecords(hash, inputs[..n], now), IdOf(hash, inputs[n]))
  {
    var n := |inputs| - 1;
    var batch := ToRecords(hash, inputs[..n], now);
    assert forall i | 0 <= i < n :: batch[i].id == IdOf(hash, inputs[i]);
  }

  lemma AddsOne(rows: seq<Record>, hash: string -> string, inputs: seq<Input>, now: string, after: seq<Record>,
                places: seq<nat>)
    requires inputs != [] && AddsAt(rows, hash, inputs[..|inputs| - 1], now, after, places)
    ensures
      var n := |inputs| - 1;
      if IsNew(rows, hash, inputs, n) then
        AddsAt(rows, hash, inputs, now, after + [ToRecord(hash, inputs[n], now)], places + [n])
      else AddsAt(rows, hash, inputs, now, after, places)
  {
    var n := |inputs| - 1;
    var front := inputs[..n];
    forall j: nat | j < n ensures IsNew(rows, hash, inputs, j) <==> IsNew(rows, hash, front, j) {
      assert front[j] == inputs[j] && forall i | 0 <= i < j :: front[i] == inputs[i];
    }
  }

  /** A batch leaves what it tells. */
  lemma ImportIsTold(rows: seq<Record>, hash: string -> string, inputs: seq<Input>, now: string)
    requires Distinct(rows)
    ensures AppendsAsTold(rows, hash, inputs, now, Imported(rows, hash, inputs, now))
  {
    BatchExactly(rows, hash, inputs, now);
    if BatchFits(rows, hash, inputs) {
      var places := AddsExactly(rows, hash, inputs, now);
    }
  }

  // ------------------------------------------------------------ importing again

  /** Row by row equal but for the observation times. */
  predicate AllSame(a: seq<Record>, b: seq<Record>) {
    |a| == |b| && forall i | 0 <= i < |a| :: Same(a[i], b[i])
  }

  lemma {:induction false} NothingFresh(rows: seq<Record>, more: seq<Record>)
    requires forall i | 0 <= i < |more| :: Known(rows, more[i].id)
    ensures Fresh(rows, more) == []
  {
    if more != [] {
      NothingFresh(rows, more[..|more| - 1]);
    }
  }

  lemma AppendedKnows(rows: seq<Record>, more: seq<Record>)
    requires Distinct(rows)
    ensures forall id :: Known(Appended(rows, more), id) <==> Known(rows, id) || Known(more, id)
    ensures Distinct(Appended(rows, more))
  {
    FirstsProperties(more);
    DistinctFirsts(Firsts(more));
    FirstsAppend(rows, Firsts(more));
    FirstsProperties(rows + Firsts(more));
    KnownAppend(rows, Firsts(more));
  }

  lemma SameKnown(a: seq<Record>, b: seq<Record>)
    requires AllSame(a, b)
    ensures forall id :: Known(a, id) <==> Known(b, id)
  {
    forall id ensures Known(a, id) <==> Known(b, id) {
      if Known(a, id) {
        var i :| 0 <= i < |a| && a[i].id == id;
        assert b[i].id == id;
      }
      if Known(b, id) {
        var i :| 0 <= i < |b| && b[i].id == id;
        assert a[i].id == id;
      }
    }
  }

  /** Importing the same facts again, at whatever time, is accepted and inserts nothing. */
  lemma AppendIdempotent(rows: seq<Record>, batch: seq<Record>, again: seq<Record>)
    requires Distinct(rows) && Acceptable(rows, batch) && AllSame(batch, again)
    ensures Appended(Appended(rows, batch), again) == Appended(rows, batch)
    ensures Acceptable(Appended(rows, batch), again)
  {
    var after := Appended(rows, batch);
    AppendedKnows(rows, batch);
    SameKnown(batch, again);
    FirstsProperties(again);
    forall i | 0 <= i < |Firsts(again)| ensures Known(after, Firsts(again)[i].id) {
      assert Known(Firsts(again), Firsts(again)[i].id);
    }
    NothingFresh(after, Firsts(again));
    AcceptAgain(rows, batch, again);
  }

  /** What was stored of a batch agrees with the batch. */
  lemma StoredAgrees(rows: seq<Record>, batch: seq<Record>, r: Record)
    requires r in Appended(rows, batch)
    ensures r in rows || r in batch
  {
    FreshMembers(rows, Firsts(batch));
    FirstsProperties(batch);
  }

  lemma {:induction false} FreshMembers(rows: seq<Record>, more: seq<Record>)
    ensures forall r | r in Fresh(rows, more) :: r in more && !Known(rows, r.id)
  {
    if more != [] {
      FreshMembers(rows, more[..|more| - 1]);
      assert more == more[..|more| - 1] + [more[|more| - 1]];
    }
  }

  lemma PairAgrees(all: seq<Record>, a: Record, b: Record)
    requires !Conflicting(all) && a in all && b in all && a.id == b.id
    ensures Same(a, b)
  {
    var i :| 0 <= i < |all| && all[i] == a;
    var j :| 0 <= j < |all| && all[j] == b;
    if i < j {
      assert Same(all[i], all[j]);
    } else if j < i {
      assert Same(all[j], all[i]);
    }
  }

  lemma AcceptAgain(rows: seq<Record>, batch: seq<Record>, again: seq<Record>)
    requires Distinct(rows) && Acceptable(rows, batch) && AllSame(batch, again)
    ensures Acceptable(Appended(rows, batch), again)
  {
    var all := Appended(rows, batch) + again;
    forall i, j | 0 <= i < j < |all| && all[i].id == all[j].id ensures Same(all[i], all[j]) {
      var a := Original(rows, batch, again, i);
      var b := Original(rows, batch, again, j);
      PairAgrees(rows + batch, a, b);
    }
  }

  /** Each row of the journal or of the second batch, as it stood when the first batch was accepted. */
  lemma Original(rows: seq<Record>, batch: seq<Record>, again: seq<Record>, i: nat) returns (r: Record)
    requires AllSame(batch, again) && i < |Appended(rows, batch) + again|
    ensures r in rows + batch && Same(r, (Appended(rows, batch) + again)[i])
  {
    var after := Appended(rows, batch);
    if i < |after| {
      r := after[i];
      assert r in after;
      StoredAgrees(rows, batch, r);
    } else {
      r := batch[i - |after|];
      assert r in batch;
    }
  }

  lemma {:induction false} FreshOfSplit(rows: seq<Record>, a: seq<Record>, b: seq<Record>)
    ensures Fresh(rows, a + b) == Fresh(rows, a) + Fresh(rows, b)
    decreases |b|
  {
    if b == [] {
      assert a + b == a;
    } else {
      assert (a + b)[..|a + b| - 1] == a + b[..|b| - 1];
      FreshOfSplit(rows, a, b[..|b| - 1]);
    }
  }

  /** Records that each agree with one of a conflict-free list do not conflict. */
  lemma AgreeingDoNotConflict(x: seq<Record>, y: seq<Record>)
    requires !Conflicting(y) && forall a | a in x :: exists b :: b in y && Same(a, b)
    ensures !Conflicting(x)
  {
    forall i, j | 0 <= i < j < |x| && x[i].id == x[j].id ensures Same(x[i], x[j]) {
      assert x[i] in x && x[j] in x;
      var a :| a in y && Same(x[i], a);
      var b :| b in y && Same(x[j], b);
      PairAgrees(y, a, b);
    }
  }

  lemma CounterpartsOf(a: seq<Record>, b: seq<Record>)
    requires AllSame(a, b)
    ensures forall r | r in a :: exists s :: s in b && Same(r, s)
  {
    forall r | r in a ensures exists s :: s in b && Same(r, s) {
      var i :| 0 <= i < |a| && a[i] == r;
      assert b[i] in b && Same(r, b[i]);
    }
  }

  lemma AcceptableBefore(rows: seq<Record>, first: seq<Record>, again: seq<Record>, more: seq<Record>)
    requires AllSame(first, again) && Acceptable(Appended(rows, first), again + more)
    ensures Acceptable(rows, first + more)
  {
    var y := Appended(rows, first) + (again + more);
    CounterpartsOf(first, again);
    forall a | a in rows + (first + more) ensures exists b :: b in y && Same(a, b) {
      if a in first {
        var b :| b in again && Same(a, b);
        assert b in y;
      } else {
        assert a in y && Same(a, a);
      }
    }
    AgreeingDoNotConflict(rows + (first + more), y);
  }

  lemma AcceptableAfter(rows: seq<Record>, first: seq<Record>, again: seq<Record>, more: seq<Record>)
    requires AllSame(first, again) && Acceptable(rows, first + more)
    ensures Acceptable(Appended(rows, first), again + more)
  {
    var y := rows + (first + more);
    assert AllSame(again, first);
    CounterpartsOf(again, first);
    forall a | a in Appended(rows, first) + (again + more) ensures exists b :: b in y && Same(a, b) {
      if a in Appended(rows, first) {
        StoredAgrees(rows, first, a);
        assert a in y && Same(a, a);
      } else if a in again {
        var b :| b in first && Same(a, b);
        assert b in y;
      } else {
        assert a in y && Same(a, a);
      }
    }
    AgreeingDoNotConflict(Appended(rows, first) + (again + more), y);
  }

  /** What a batch inserts: exactly the ids that are new, each once, with a record of the batch. */
  lemma InsertedExactly(rows: seq<Record>, batch: seq<Record>)
    ensures forall id :: Known(Fresh(rows, Firsts(batch)), id) <==> Known(batch, id) && !Known(rows, id)
    ensures forall r | r in Fresh(rows, Firsts(batch)) :: r in batch
  {
    FirstsProperties(batch);
    FreshKnown(rows, Firsts(batch));
    FreshMembers(rows, Firsts(batch));
  }

  lemma {:induction false} FreshKnown(rows: seq<Record>, more: seq<Record>)
    ensures forall id :: Known(Fresh(rows, more), id) <==> Known(more, id) && !Known(rows, id)
  {
    if more != [] {
      var front, last := more[..|more| - 1], more[|more| - 1];
      FreshKnown(rows, front);
      KnownAppend(front, [last]);
      KnownAppend(Fresh(rows, front), [last]);
      assert more == front + [last];
      KnowsOne(last);
    }
  }

  lemma KnowsOne(r: Record)
    ensures forall id :: Known([r], id) <==> id == r.id
  {
    assert [r][0].id == r.id;
  }

  /** Two rows of a batch under one id but with other facts: nothing of the whole batch is stored. */
  lemma OneConflictRefusesAll(rows: seq<Record>, hash: string -> string, inputs: seq<Input>, now: string, i: nat,
                              j: nat)
    requires i < j < |inputs| && inputs[i] != inputs[j]
    requires ToRecord(hash, inputs[i], now).id == ToRecord(hash, inputs[j], now).id
    ensures !Accepted(rows, hash, inputs, now) && Imported(rows, hash, inputs, now) == rows
  {
    var batch := ToRecords(hash, inputs, now);
    assert batch[i].id == batch[j].id && !Same(batch[i], batch[j]);
    ConflictInBatch(rows, batch);
  }

  /** Importing a statement and later the same statement with rows appended: the longer batch is free of conflicts if
      and only if it would have been at once, and then leaves the journal as importing it at once would. */
  lemma ExtendedImport(rows: seq<Record>, first: seq<Record>, again: seq<Record>, more: seq<Record>)
    requires Distinct(rows) && Acceptable(rows, first) && AllSame(first, again)
    ensures Acceptable(Appended(rows, first), again + more) <==> Acceptable(rows, first + more)
    ensures Appended(Appended(rows, first), again + more) == Appended(Appended(rows, first), more)
    ensures Appended(Appended(rows, first), again + more) == Appended(rows, first + more)
  {
    if Acceptable(rows, first + more) {
      AcceptableAfter(rows, first, again, more);
    }
    if Acceptable(Appended(rows, first), again + more) {
      AcceptableBefore(rows, first, again, more);
    }
    var after := Appended(rows, first);
    AppendedKnows(rows, first);
    SameKnown(first, again);
    KnownIsSkipped(after, again, more);
    AppendInTwo(rows, first, more);
  }

  /** Records whose ids are stored add nothing, wherever they stand in a batch. */
  lemma {:induction false} KnownIsSkipped(rows: seq<Record>, known: seq<Record>, more: seq<Record>)
    requires forall i | 0 <= i < |known| :: Known(rows, known[i].id)
    ensures Fresh(rows, Firsts(known + more)) == Fresh(rows, Firsts(more))
    decreases |more|
  {
    if more == [] {
      assert known + more == known;
      FirstsProperties(known);
      forall i | 0 <= i < |Firsts(known)| ensures Known(rows, Firsts(known)[i].id) {
        assert Firsts(known)[i] in known;
      }
      NothingFresh(rows, Firsts(known));
    } else {
      var front, last := more[..|more| - 1], more[|more| - 1];
      assert known + front + [last] == known + more && front + [last] == more;
      KnownIsSkipped(rows, known, front);
      KnownAppend(known, front);
      if Known(known, last.id) {
        var i :| 0 <= i < |known| && known[i].id == last.id;
        assert Known(rows, last.id);
      }
      FirstsPush(known + front, last);
      FirstsPush(front, last);
      FreshPush(rows, Firsts(known + front), last);
      FreshPush(rows, Firsts(front), last);
    }
  }

  lemma {:induction false} AppendInTwo(rows: seq<Record>, a: seq<Record>, b: seq<Record>)
    requires Distinct(rows)
    ensures Appended(Appended(rows, a), b) == Appended(rows, a + b)
    decreases |b|
  {
    if b == [] {
      assert a + b == a;
      assert Appended(rows, a) + [] == Appended(rows, a);
    } else {
      var front, last := b[..|b| - 1], b[|b| - 1];
      assert front + [last] == b && a + front + [last] == a + b;
      AppendInTwo(rows, a, front);
      AppendOne(Appended(rows, a), front, last);
      AppendOne(rows, a + front, last);
      KnownEither(rows, a, front, last.id);
    }
  }

  lemma KnownEither(rows: seq<Record>, a: seq<Record>, b: seq<Record>, id: string)
    requires Distinct(rows)
    ensures (Known(Appended(rows, a), id) || Known(b, id)) == (Known(rows, id) || Known(a + b, id))
  {
    AppendedKnows(rows, a);
    KnownAppend(a, b);
  }

  /** One more record at the end of a batch. */
  lemma AppendOne(rows: seq<Record>, batch: seq<Record>, last: Record)
    ensures Appended(rows, batch + [last]) ==
      if Known(rows, last.id) || Known(batch, last.id) then Appended(rows, batch) else Appended(rows, batch) + [last]
  {
    assert (batch + [last])[..|batch|] == batch;
    FreshOfSplit(rows, Firsts(batch), [last]);
    FreshOfOne(rows, last);
    Regroup(rows, Fresh(rows, Firsts(batch)), Fresh(rows, [last]));
  }

  lemma FreshOfOne(rows: seq<Record>, r: Record)
    ensures Fresh(rows, [r]) == if Known(rows, r.id) then [] else [r]
  {
    assert [r][..0] == [];
    assert Fresh(rows, [r][..0]) == [];
  }

  lemma Regroup(a: seq<Record>, b: seq<Record>, c: seq<Record>)
    ensures a + (b + c) == a + b + c
    ensures c == [] ==> a + (b + c) == a + b
  {
  }
}
