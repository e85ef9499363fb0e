/** The paid liability authority: its own database, committed apart from the operational journal. */
module Budget {
  import opened Basics
  import opened Totals

  /** One row of `liabilities`; `settled` and `cost` are separate columns. */
  datatype Liability = Liability(date: string, reserved: nat, cost: Option<nat>, settled: bool)

  type Table = map<string, Liability>

  /** `None`: the authority's table does not exist yet, which is unknown and never an empty day. */
  type Book = Option<Table>

  /** What an initial import reads of a paid journal row. */
  datatype PaidRow = PaidRow(date: string, reserved: nat, cost: Option<nat>, settled: bool)

  // ------------------------------------------------------------ totals of a day

  function SpentOf(l: Liability, date: string): int {
    if l.date == date && l.cost.Some? then l.cost.value else 0
  }

  function ReservedOf(l: Liability, date: string): int {
    if l.date == date && !l.settled then l.reserved else 0
  }

  ghost function Spent(t: Table, date: string): int {
    Sum(map id | id in t :: SpentOf(t[id], date))
  }

  ghost function Reserved(t: Table, date: string): int {
    Sum(map id | id in t :: ReservedOf(t[id], date))
  }

  /** What the day's limit is checked against. */
  ghost function Committed(t: Table, date: string): int {
    Spent(t, date) + Reserved(t, date)
  }

  /** How far a settled liability cost more than was reserved for it. */
  function OverrunOf(l: Liability, date: string): int {
    if l.date == date && l.cost.Some? && l.cost.value > l.reserved then l.cost.value - l.reserved else 0
  }

  ghost function Overrun(t: Table, date: string): int {
    Sum(map id | id in t :: OverrunOf(t[id], date))
  }

  /** The two status columns never disagree. */
  predicate WellFormed(t: Table) {
    forall id | id in t :: t[id].settled <==> t[id].cost.Some?
  }

  // ------------------------------------------------------------ the transactions

  predicate Unsettled(t: Table, id: string) {
    id in t && !t[id].settled
  }

  function SettledRow(l: Liability, cost: nat): Liability {
    l.(settled := true, cost := Some(cost))
  }

  /** `UPDATE … WHERE id=? AND status='reserved'`. */
  function SettleTable(t: Table, id: string, cost: nat): Table {
    if Unsettled(t, id) then t[id := SettledRow(t[id], cost)] else t
  }

  /** Every still reserved liability that the given settled costs name. */
  function ReconcileTable(t: Table, costs: map<string, nat>): Table {
    map id | id in t :: if id in costs && !t[id].settled then SettledRow(t[id], costs[id]) else t[id]
  }

  /** `INSERT OR IGNORE` of every given row. */
  function ImportTable(t: Table, rows: map<string, PaidRow>): Table {
    map id | id in t.Keys + rows.Keys ::
      if id in t then t[id] else Imported(rows[id])
  }

  /** The liability an import writes for a journal row. */
  function Imported(row: PaidRow): Liability {
    Liability(row.date, row.reserved, if row.settled then row.cost else None, row.settled)
  }

  function ImportBook(b: Book, rows: map<string, PaidRow>): Book {
    Some(ImportTable(if b.Some? then b.value else map[], rows))
  }

  function SettleBook(b: Book, id: string, cost: nat): Book {
    if b.Some? then Some(SettleTable(b.value, id, cost)) else None
  }

  function ReconcileBook(b: Book, costs: map<string, nat>): Book {
    if b.Some? then Some(ReconcileTable(b.value, costs)) else None
  }

  /** A reservation is refused as unavailable when the authority is missing or the id is taken. */
  datatype Verdict = Granted | Unavailable | Exhausted

  ghost function ReserveVerdict(b: Book, id: string, date: string, amount: nat, limit: nat): Verdict {
    if b.None? then Unavailable
    else if Committed(b.value, date) + amount > limit then Exhausted
    else if id in b.value then Unavailable
    else Granted
  }

  function ReserveTable(t: Table, id: string, date: string, amount: nat): Table {
    t[id := Liability(date, amount, None, false)]
  }

  ghost function ReserveBook(b: Book, id: string, date: string, amount: nat, limit: nat): Book {
    if ReserveVerdict(b, id, date, amount, limit).Granted? then Some(ReserveTable(b.value, id, date, amount)) else b
  }

  // ------------------------------------------------------------ what a transaction does to a day

  /** A reservation adds its amount to its own day and nothing else. */
  lemma ReserveTotals(t: Table, id: string, date: string, amount: nat, day: string)
    requires id !in t
    ensures
      var t' := ReserveTable(t, id, date, amount);
      && Committed(t', day) == Committed(t, day) + (if day == date then amount else 0)
      && Spent(t', day) == Spent(t, day)
      && Overrun(t', day) == Overrun(t, day)
  {
    var t' := ReserveTable(t, id, date, amount);
    ColumnInsert(map i | i in t :: SpentOf(t[i], day), map i | i in t' :: SpentOf(t'[i], day), id);
    ColumnInsert(map i | i in t :: ReservedOf(t[i], day), map i | i in t' :: ReservedOf(t'[i], day), id);
    ColumnInsert(map i | i in t :: OverrunOf(t[i], day), map i | i in t' :: OverrunOf(t'[i], day), id);
  }

  /** A change that adds no more to a day than to its overrun keeps the day within the limit plus overrun. */
  lemma RowwiseTotals(t: Table, t': Table, day: string)
    requires t.Keys == t'.Keys
    requires forall id | id in t ::
      SpentOf(t'[id], day) + ReservedOf(t'[id], day) - OverrunOf(t'[id], day)
        <= SpentOf(t[id], day) + ReservedOf(t[id], day) - OverrunOf(t[id], day)
    ensures Committed(t', day) - Overrun(t', day) <= Committed(t, day) - Overrun(t, day)
  {
    NetTotals(t, day);
    NetTotals(t', day);
    SumMonotone(NetColumn(t', day), NetColumn(t, day));
  }

  ghost function NetColumn(t: Table, day: string): map<string, int> {
    map id | id in t :: SpentOf(t[id], day) + ReservedOf(t[id], day) - OverrunOf(t[id], day)
  }

  lemma NetTotals(t: Table, day: string)
    ensures Sum(NetColumn(t, day)) == Committed(t, day) - Overrun(t, day)
  {
    var spent := map id | id in t :: SpentOf(t[id], day);
    var reserved := map id | id in t :: ReservedOf(t[id], day);
    var overrun := map id | id in t :: OverrunOf(t[id], day);
    var both := map id | id in t :: SpentOf(t[id], day) + ReservedOf(t[id], day);
    SumAdd(both, spent, reserved);
    SumAdd(both, NetColumn(t, day), overrun);
  }

  /** The day limit, exactly as the code keeps it: only costs above their own reservation can exceed it. */
  ghost predicate DayBounded(t: Table, limit: nat) {
    forall day :: Committed(t, day) <= limit + Overrun(t, day)
  }

  lemma ReserveKeepsBound(b: Book, id: string, date: string, amount: nat, limit: nat)
    requires b.Some? && DayBounded(b.value, limit)
    ensures DayBounded(ReserveBook(b, id, date, amount, limit).value, limit)
  {
    if ReserveVerdict(b, id, date, amount, limit).Granted? {
      forall day
        ensures Committed(ReserveTable(b.value, id, date, amount), day) <=
          limit + Overrun(ReserveTable(b.value, id, date, amount), day)
      {
        ReserveTotals(b.value, id, date, amount, day);
        OverrunNonnegative(b.value, day);
      }
    }
  }

  lemma OverrunNonnegative(t: Table, day: string)
    ensures Overrun(t, day) >= 0
  {
    var zero := map id | id in t :: 0;
    SumMonotone(zero, map id | id in t :: OverrunOf(t[id], day));
    ZeroSum(zero);
  }

  lemma ZeroSum(m: map<string, int>)
    requires forall k | k in m :: m[k] == 0
    ensures Sum(m) == 0
  {
    SumSupport(map[], m);
  }

  lemma ReconcileKeepsBound(t: Table, costs: map<string, nat>, limit: nat)
    requires WellFormed(t) && DayBounded(t, limit)
    ensures DayBounded(ReconcileTable(t, costs), limit)
  {
    forall day ensures Committed(ReconcileTable(t, costs), day) <= limit + Overrun(ReconcileTable(t, costs), day) {
      RowwiseTotals(t, ReconcileTable(t, costs), day);
    }
  }

  /** Settling one liability is reconciling against that one cost. */
  lemma SettleIsReconcile(t: Table, id: string, cost: nat)
    ensures SettleTable(t, id, cost) == ReconcileTable(t, map[id := cost])
  {
  }

  // ------------------------------------------------------------ convergence

  /** Reconciling twice with the same rows changes nothing the second time. */
  lemma ReconcileIdempotent(t: Table, costs: map<string, nat>)
    ensures ReconcileTable(ReconcileTable(t, costs), costs) == ReconcileTable(t, costs)
  {
  }

  /** Costs that agree wherever both name a liability can be applied in either order. */
  predicate Agree(a: map<string, nat>, b: map<string, nat>) {
    forall id | id in a && id in b :: a[id] == b[id]
  }

  lemma ReconcileCommutes(t: Table, a: map<string, nat>, b: map<string, nat>)
    requires Agree(a, b)
    ensures ReconcileTable(ReconcileTable(t, a), b) == ReconcileTable(ReconcileTable(t, b), a)
    ensures ReconcileTable(ReconcileTable(t, a), b) == ReconcileTable(t, a + b)
  {
  }

  /** A settled liability keeps its row through every transaction of the authority. */
  lemma SettledIsFinal(t: Table, id: string, costs: map<string, nat>, rows: map<string, PaidRow>)
    requires id in t && t[id].settled
    ensures id in ReconcileTable(t, costs) && ReconcileTable(t, costs)[id] == t[id]
    ensures id in ImportTable(t, rows) && ImportTable(t, rows)[id] == t[id]
  {
  }

  // ------------------------------------------------------------ what a caller can tell of a transaction

  /** Both sums of a day start at nothing, and each row adds its cost, if it has one, and its reservation, until it is
      settled, to its own day. */
  lemma TotalsExactly(t: Table, id: string, l: Liability, day: string)
    ensures Spent(map[], day) == 0 && Reserved(map[], day) == 0
    ensures id !in t ==>
      && Spent(t[id := l], day) == Spent(t, day) + (if day == l.date && l.cost.Some? then l.cost.value else 0)
      && Reserved(t[id := l], day) == Reserved(t, day) + (if day == l.date && !l.settled then l.reserved else 0)
  {
    if id !in t {
      var t' := t[id := l];
      ColumnInsert(map i | i in t :: SpentOf(t[i], day), map i | i in t' :: SpentOf(t'[i], day), id);
      ColumnInsert(map i | i in t :: ReservedOf(t[i], day), map i | i in t' :: ReservedOf(t'[i], day), id);
    }
  }

  /** The row, settled at the cost; its day and its reservation stay. */
  predicate RowSettledAt(before: Liability, after: Liability, cost: nat) {
    && after.settled && after.cost == Some(cost)
    && after.date == before.date && after.reserved == before.reserved
  }

  /** Every row named by a cost is settled at it, unless it was settled before; all else stays. */
  predicate SettlesExactly(before: Book, costs: map<string, nat>, after: Book) {
    && (before == None <==> after == None)
    && (before.Some? ==>
          && after.value.Keys == before.value.Keys
          && forall id | id in before.value ::
               if id in costs && !before.value[id].settled
               then RowSettledAt(before.value[id], after.value[id], costs[id])
               else after.value[id] == before.value[id])
  }

  /** Every row that is new is taken over with its cost, if it is settled; all else stays. */
  predicate ImportsExactly(before: Book, rows: map<string, PaidRow>, after: Book) {
    var table := if before.Some? then before.value else map[];
    && after.Some? && after.value.Keys == table.Keys + rows.Keys
    && forall id | id in after.value ::
         if id in table then after.value[id] == table[id]
         else
           var l, row := after.value[id], rows[id];
           && l.date == row.date && l.reserved == row.reserved && l.settled == row.settled
           && l.cost == if row.settled then row.cost else None
  }

  /** A reservation is granted if and only if there is an authority, the day's spending and reservations leave room for
      it, and its id is new. It then is the only new row. */
  ghost predicate ReservesExactly(before: Book, id: string, date: string, amount: nat, limit: nat, verdict: Verdict,
                                  after: Book)
  {
    if before == None then verdict == Unavailable && after == before
    else if Spent(before.value, date) + Reserved(before.value, date) + amount > limit then
      verdict == Exhausted && after == before
    else if id in before.value then verdict == Unavailable && after == before
    else
      && verdict == Granted && after.Some? && after.value.Keys == before.value.Keys + {id}
      && (forall other | other in before.value :: after.value[other] == before.value[other])
      && after.value[id].date == date && after.value[id].reserved == amount
      && after.value[id].cost == None && !after.value[id].settled
  }

  // ------------------------------------------------------------ the object

  class Authority {
    var book: Book

    /** A database that has never been migrated. */
    constructor ()
      ensures book == None
    {
      book := None;
    }

    /** `fault`: SQLite or the file system fails somewhere in the transaction, which rolls back. */
    method Initialize(rows: seq<(string, PaidRow)>, fault: bool) returns (ok: bool)
      requires forall i, j | 0 <= i < j < |rows| :: rows[i].0 != rows[j].0
      modifies this
      ensures ok <==> !fault
      ensures book == if fault then old(book) else ImportBook(old(book), RowMap(rows))
      ensures !fault ==> ImportsExactly(old(book), RowMap(rows), book)
    {
      if fault {
        return false;
      }
      var table: Table := if book.Some? then book.value else map[];
      ghost var start := table;
      for i := 0 to |rows|
        invariant table == ImportTable(start, RowMap(rows[..i]))
      {
        var (id, row) := rows[i];
        TakeNext(rows, i);
        ImportNext(start, rows[..i], id, row);
        if id !in table {
          table := table[id := Liability(row.date, row.reserved, if row.settled then row.cost else None, row.settled)];
        }
      }
      TakeAll(rows);
      book := Some(table);
      ok := true;
    }

    /** Both sums of a day in one scan; `None` when the authority cannot be read. */
    method State(date: string, fault: bool) returns (totals: Option<(int, int)>)
      ensures totals.Some? <==> !fault && book.Some?
      ensures totals.Some? ==> totals.value == (Spent(book.value, date), Reserved(book.value, date))
    {
      if fault || book.None? {
        return None;
      }
      var spent, reserved := Scan(book.value, date);
      totals := Some((spent, reserved));
    }

    method Reserve(id: string, date: string, amount: nat, limit: nat, fault: bool) returns (verdict: Verdict)
      modifies this
      ensures fault ==> verdict == Unavailable && book == old(book)
      ensures !fault ==> verdict == ReserveVerdict(old(book), id, date, amount, limit)
      ensures !fault ==> book == ReserveBook(old(book), id, date, amount, limit)
      ensures !fault ==> ReservesExactly(old(book), id, date, amount, limit, verdict, book)
    {
      if fault || book.None? {
        return Unavailable;
      }
      var spent, reserved := Scan(book.value, date);
      if spent + reserved + amount > limit {
        return Exhausted;
      }
      if id in book.value {
        return Unavailable;
      }
      book := Some(book.value[id := Liability(date, amount, None, false)]);
      verdict := Granted;
    }

    method Settle(id: string, cost: nat, fault: bool) returns (ok: bool)
      modifies this
      ensures ok <==> !fault && old(book).Some?
      ensures book == if fault then old(book) else SettleBook(old(book), id, cost)
      ensures !fault ==> SettlesExactly(old(book), map[id := cost], book)
    {
      if fault || book.None? {
        return false;
      }
      if id in book.value && !book.value[id].settled {
        book := Some(book.value[id := book.value[id].(settled := true, cost := Some(cost))]);
      }
      ok := true;
    }

    method Reconcile(rows: seq<(string, nat)>, fault: bool) returns (ok: bool)
      requires forall i, j | 0 <= i < j < |rows| :: rows[i].0 != rows[j].0
      modifies this
      ensures ok <==> !fault && old(book).Some?
      ensures book == if fault then old(book) else ReconcileBook(old(book), CostMap(rows))
      ensures !fault ==> SettlesExactly(old(book), CostMap(rows), book)
    {
      if fault || book.None? {
        return false;
      }
      var table := book.value;
      ghost var start := table;
      for i := 0 to |rows|
        invariant table == ReconcileTable(start, CostMap(rows[..i]))
      {
        var (id, cost) := rows[i];
        TakeNext(rows, i);
        ReconcileNext(start, rows[..i], id, cost);
        if id in table && !table[id].settled {
          table := table[id := table[id].(settled := true, cost := Some(cost))];
        }
      }
      TakeAll(rows);
      book := Some(table);
      ok := true;
    }
  }

  function RowMap(rows: seq<(string, PaidRow)>): map<string, PaidRow> {
    if rows == [] then map[] else RowMap(rows[..|rows| - 1])[rows[|rows| - 1].0 := rows[|rows| - 1].1]
  }

  function CostMap(rows: seq<(string, nat)>): map<string, nat> {
    if rows == [] then map[] else CostMap(rows[..|rows| - 1])[rows[|rows| - 1].0 := rows[|rows| - 1].1]
  }

  /** One more row of an import. */
  lemma ImportNext(t: Table, rows: seq<(string, PaidRow)>, id: string, row: PaidRow)
    requires forall i | 0 <= i < |rows| :: rows[i].0 != id
    ensures
      var before := ImportTable(t, RowMap(rows));
      ImportTable(t, RowMap(rows + [(id, row)])) == if id in before then before else before[id := Imported(row)]
  {
    RowMapAppend(rows, (id, row));
    ImportMore(t, RowMap(rows), id, row);
  }

  lemma ImportMore(t: Table, rows: map<string, PaidRow>, id: string, row: PaidRow)
    requires id !in rows
    ensures
      var before := ImportTable(t, rows);
      ImportTable(t, rows[id := row]) == if id in before then before else before[id := Imported(row)]
  {
    var before, after := ImportTable(t, rows), ImportTable(t, rows[id := row]);
    assert after.Keys == before.Keys + {id};
    assert forall i | i in before :: after[i] == before[i];
  }

  /** One more row of a reconciliation. */
  lemma ReconcileNext(t: Table, rows: seq<(string, nat)>, id: string, cost: nat)
    requires forall i | 0 <= i < |rows| :: rows[i].0 != id
    ensures
      var before := ReconcileTable(t, CostMap(rows));
      ReconcileTable(t, CostMap(rows + [(id, cost)])) ==
        (if id in before && !before[id].settled then before[id := SettledRow(before[id], cost)] else before)
  {
    CostMapAppend(rows, (id, cost));
  }

  lemma {:induction false} RowMapKeys(rows: seq<(string, PaidRow)>)
    ensures forall id :: id in RowMap(rows) <==> exists i :: 0 <= i < |rows| && rows[i].0 == id
  {
    if rows != [] {
      RowMapKeys(rows[..|rows| - 1]);
      assert rows[|rows| - 1].0 in RowMap(rows);
    }
  }

  lemma {:induction false} CostMapKeys(rows: seq<(string, nat)>)
    ensures forall id :: id in CostMap(rows) <==> exists i :: 0 <= i < |rows| && rows[i].0 == id
  {
    if rows != [] {
      CostMapKeys(rows[..|rows| - 1]);
      assert rows[|rows| - 1].0 in CostMap(rows);
    }
  }

  lemma RowMapAppend(rows: seq<(string, PaidRow)>, row: (string, PaidRow))
    requires forall i | 0 <= i < |rows| :: rows[i].0 != row.0
    ensures RowMap(rows + [row]) == RowMap(rows)[row.0 := row.1]
    ensures row.0 !in RowMap(rows)
  {
    assert (rows + [row])[..|rows|] == rows;
    RowMapKeys(rows);
  }

  lemma CostMapAppend(rows: seq<(string, nat)>, row: (string, nat))
    requires forall i | 0 <= i < |rows| :: rows[i].0 != row.0
    ensures CostMap(rows + [row]) == CostMap(rows)[row.0 := row.1]
    ensures row.0 !in CostMap(rows)
  {
    assert (rows + [row])[..|rows|] == rows;
    CostMapKeys(rows);
  }

  /** One pass over the rows of a day, in any order. */
  method Scan(t: Table, date: string) returns (spent: int, reserved: int)
    ensures spent == Spent(t, date) && reserved == Reserved(t, date)
  {
    spent, reserved := 0, 0;
    var rest := t;
    while rest != map[]
      invariant spent + Spent(rest, date) == Spent(t, date)
      invariant reserved + Reserved(rest, date) == Reserved(t, date)
      decreases |rest|
    {
      var id :| id in rest;
      WithoutRow(rest, id, date);
      spent := spent + SpentOf(rest[id], date);
      reserved := reserved + ReservedOf(rest[id], date);
      rest := rest - {id};
    }
    assert rest == map[];
  }

  lemma WithoutRow(t: Table, id: string, date: string)
    requires id in t
    ensures Spent(t, date) == Spent(t - {id}, date) + SpentOf(t[id], date)
    ensures Reserved(t, date) == Reserved(t - {id}, date) + ReservedOf(t[id], date)
    ensures |t - {id}| < |t|
  {
    var rest := t - {id};
    SumRemove(map i | i in t :: SpentOf(t[i], date), id);
    SumRemove(map i | i in t :: ReservedOf(t[i], date), id);
    assert (map i | i in rest :: SpentOf(rest[i], date)) == (map i | i in t :: SpentOf(t[i], date)) - {id};
    assert (map i | i in rest :: ReservedOf(rest[i], date)) == (map i | i in t :: ReservedOf(t[i], date)) - {id};
    assert rest.Keys == t.Keys - {id};
    assert |t| == |t.Keys| && |rest| == |rest.Keys|;
  }
}
