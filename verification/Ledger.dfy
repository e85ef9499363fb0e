/** The two databases as one transition system: every step is one commit, and a crash or an unavailable
    authority may fall between any two of them. */
module Ledger {
  import opened Basics
  import opened Budget
  import opened Journal

  /** Who holds the journal's write lock. An admission keeps it across the authority's commit, and so does
      the first import. */
  datatype Lock = Free | Admitting(id: string, attempt: Attempt) | Migrating

  /** `settles` and `snapshots` are work in flight: committed costs the authority has not been told yet,
      and settled rows read for a reconciliation that has not been written yet. */
  datatype State = State(db: Database, book: Book, lock: Lock, settles: set<(string, nat)>,
                         snapshots: set<map<string, nat>>)

  datatype Step =
    | ApplyDraft(draft: Draft, expected: Option<int>)
    | AcquireSession(client: string, session: string, selected: string, request: string, clientRequest: Option<string>)
    | ReleaseSession(client: string, session: string, request: string)
    | AdmitIncluded(id: string, admission: Admission, date: string)
    | ReservePaid(id: string, admission: Admission, date: string)
    | CommitAdmission
    | FinishAttempt(id: string, cost: Option<int>, complete: bool, successful: bool)
    | SettleOne(id: string, due: nat)
    | DropSettle(id: string, due: nat)
    | ReadSettled
    | ReconcileAll(costs: map<string, nat>)
    | DropSnapshot(costs: map<string, nat>)
    | ImportLiabilities
    | CommitMigration
    | Abandon
    | Crash

  ghost predicate Enabled(s: State, step: Step) {
    match step
    case ApplyDraft(_, _) => s.lock.Free?
    case AcquireSession(_, _, _, _, _) => s.lock.Free?
    case ReleaseSession(_, _, _) => s.lock.Free?
    case AdmitIncluded(_, a, _) =>
      s.lock.Free? && a.billing.Included? && 0 <= a.reserve && a.policyVersion == s.db.policy.version
    case ReservePaid(id, a, date) =>
      && s.lock.Free? && a.billing.Paid? && 0 <= a.reserve && a.policyVersion == s.db.policy.version
      && ReserveVerdict(s.book, id, date, a.reserve, s.db.policy.limit).Granted?
    case CommitAdmission => s.lock.Admitting?
    case FinishAttempt(_, _, _, _) => s.lock.Free?
    case SettleOne(id, cost) => (id, cost) in s.settles
    case DropSettle(id, cost) => (id, cost) in s.settles
    case ReadSettled => true
    case ReconcileAll(costs) => costs in s.snapshots
    case DropSnapshot(costs) => costs in s.snapshots
    case ImportLiabilities => s.lock.Free? && !s.db.budgetInitialized
    case CommitMigration => s.lock.Migrating?
    case Abandon => !s.lock.Free?
    case Crash => true
  }

  ghost function Next(s: State, step: Step): State
    requires Enabled(s, step)
  {
    match step
    case ApplyDraft(draft, expected) => s.(db := ApplyPolicy(s.db, draft, expected))
    case AcquireSession(client, session, selected, request, clientRequest) =>
      s.(db := Acquire(s.db, client, session, selected, request, clientRequest))
    case ReleaseSession(client, session, request) => s.(db := Release(s.db, client, session, request))
    case AdmitIncluded(id, a, date) => s.(db := Admit(s.db, id, NewAttempt(a, date)))
    case ReservePaid(id, a, date) =>
      s.(book := ReserveBook(s.book, id, date, a.reserve, s.db.policy.limit),
         lock := Admitting(id, NewAttempt(a, date)))
    case CommitAdmission => s.(db := Admit(s.db, s.lock.id, s.lock.attempt), lock := Free)
    case FinishAttempt(id, cost, complete, successful) =>
      s.(db := Finish(s.db, id, cost, complete, successful),
         settles := if ToSettle(s.db, id, cost, complete).Some?
                    then s.settles + {(id, ToSettle(s.db, id, cost, complete).value)} else s.settles)
    case SettleOne(id, cost) => s.(book := SettleBook(s.book, id, cost), settles := s.settles - {(id, cost)})
    case DropSettle(id, cost) => s.(settles := s.settles - {(id, cost)})
    case ReadSettled => s.(snapshots := s.snapshots + {SettledCosts(s.db)})
    case ReconcileAll(costs) => s.(book := ReconcileBook(s.book, costs), snapshots := s.snapshots - {costs})
    case DropSnapshot(costs) => s.(snapshots := s.snapshots - {costs})
    case ImportLiabilities => s.(book := ImportBook(s.book, PaidRows(s.db)), lock := Migrating)
    case CommitMigration => s.(db := s.db.(budgetInitialized := true), lock := Free)
    case Abandon => s.(lock := Free)
    case Crash => s.(lock := Free, settles := {}, snapshots := {})
  }

  ghost predicate IsRun(states: seq<State>, steps: seq<Step>) {
    && |states| == |steps| + 1
    && forall i | 0 <= i < |steps| :: Enabled(states[i], steps[i]) && states[i + 1] == Next(states[i], steps[i])
  }

  // ------------------------------------------------------------ the invariant

  ghost predicate IsPaid(db: Database, id: string) {
    id in db.attempts && db.attempts[id].billing.Paid?
  }

  function LiabilityOf(a: Attempt): Liability {
    Liability(a.date, a.reserved, if a.status.Settled? then a.cost else None, a.status.Settled?)
  }

  /** The liabilities the journal itself implies. */
  function JournalTable(db: Database): Table {
    map id | id in db.attempts && db.attempts[id].billing.Paid? :: LiabilityOf(db.attempts[id])
  }

  /** They are what a first import writes. */
  lemma FirstImport(db: Database)
    ensures ImportTable(map[], PaidRows(db)) == JournalTable(db)
  {
  }

  /** Every paid attempt has a liability with its date and reservation. */
  ghost predicate Covered(db: Database, t: Table) {
    forall id | IsPaid(db, id) ::
      id in t && t[id].date == db.attempts[id].date && t[id].reserved == db.attempts[id].reserved
  }

  ghost predicate SettledAt(db: Database, id: string, cost: nat) {
    SettledPaid(db, id) && db.attempts[id].cost == Some(cost)
  }

  /** Every settled liability is a settled paid attempt with the same cost. */
  ghost predicate Evidenced(db: Database, t: Table) {
    forall id | id in t && t[id].settled :: t[id].cost.Some? && SettledAt(db, id, t[id].cost.value)
  }

  ghost predicate BooksAgree(db: Database, t: Table) {
    Budget.WellFormed(t) && Covered(db, t) && Evidenced(db, t)
  }

  ghost predicate InFlight(s: State) {
    && (forall p | p in s.settles :: SettledAt(s.db, p.0, p.1))
    && (forall m | m in s.snapshots :: forall id | id in m :: SettledAt(s.db, id, m[id]))
  }

  ghost predicate LockConsistent(s: State) {
    match s.lock
    case Free => true
    case Migrating => s.book.Some?
    case Admitting(id, a) =>
      && s.book.Some? && id in s.book.value
      && s.book.value[id].date == a.date && s.book.value[id].reserved == a.reserved
      && a.billing.Paid? && a.status.Admitted? && a.cost.None?
  }

  /** The table the day limit is checked against, or would be after the first import. */
  function EffectiveTable(s: State): Table {
    if s.book.Some? then s.book.value else JournalTable(s.db)
  }

  ghost predicate Inv(s: State) {
    && Journal.WellFormed(s.db)
    && OutboxExact(s.db)
    && s.db.policy.limit == DAY_LIMIT
    && (s.db.budgetInitialized ==> s.book.Some?)
    && (s.book.Some? ==> BooksAgree(s.db, s.book.value))
    && LockConsistent(s)
    && InFlight(s)
    && DayBounded(EffectiveTable(s), DAY_LIMIT)
  }

  /** A service starting on an existing journal that no authority knows yet. */
  ghost predicate Init(s: State) {
    && Journal.WellFormed(s.db) && OutboxExact(s.db) && s.db.policy.limit == DAY_LIMIT
    && !s.db.budgetInitialized && s.book.None? && s.lock.Free? && s.settles == {} && s.snapshots == {}
    && DayBounded(JournalTable(s.db), DAY_LIMIT)
  }

  lemma InitHolds(s: State)
    requires Init(s)
    ensures Inv(s)
  {
  }

  /** A settled cost, once committed, is there for good. */
  ghost predicate KeepsEvidence(db: Database, db': Database) {
    forall id, cost: nat | SettledAt(db, id, cost) :: SettledAt(db', id, cost)
  }

  lemma EvidenceCarriesInFlight(s: State, s': State)
    requires InFlight(s) && KeepsEvidence(s.db, s'.db)
    requires s'.snapshots == s.snapshots
    requires forall p | p in s'.settles :: p in s.settles || SettledAt(s'.db, p.0, p.1)
    ensures InFlight(s')
  {
  }

  lemma EvidenceCarriesBooks(db: Database, db': Database, t: Table)
    requires BooksAgree(db, t) && KeepsEvidence(db, db') && Covered(db', t)
    ensures BooksAgree(db', t)
  {
  }

  /** Steps that leave the attempts and the authority alone. */
  lemma JournalOnlyStep(s: State, db: Database)
    requires Inv(s)
    requires OutboxExact(db) && db.policy.limit == DAY_LIMIT && db.attempts == s.db.attempts
    requires db.budgetInitialized ==> s.book.Some?
    ensures Inv(s.(db := db))
  {
    assert JournalTable(db) == JournalTable(s.db);
    assert KeepsEvidence(s.db, db);
    EvidenceCarriesInFlight(s, s.(db := db));
    if s.book.Some? {
      EvidenceCarriesBooks(s.db, db, s.book.value);
    }
  }

  /** `db'` is `db` with one attempt's row replaced by an outcome the source can write. */
  ghost predicate Finished(db: Database, db': Database, id: string, a: Attempt) {
    && Open(db, id)
    && a.(status := db.attempts[id].status, cost := db.attempts[id].cost) == db.attempts[id]
    && (a.status.Settled? <==> a.cost.Some?)
    && (a.billing.Included? && a.cost.Some? ==> a.cost.value == 0)
    && db'.attempts == db.attempts[id := a]
    && db'.policy == db.policy && db'.budgetInitialized == db.budgetInitialized
  }

  lemma FinishWrites(db: Database, id: string, cost: Option<int>, complete: bool, successful: bool)
    requires Finishable(db, id, cost)
    ensures Finished(db, Finish(db, id, cost, complete, successful), id,
                     FinishedAttempt(db.attempts[id], cost, complete))
  {
  }

  lemma FinishedKeepsEvidence(db: Database, db': Database, id: string, a: Attempt)
    requires Finished(db, db', id, a)
    ensures KeepsEvidence(db, db')
  {
    assert forall i | i in db.attempts && i != id :: db'.attempts[i] == db.attempts[i];
  }

  lemma FinishedKeepsRows(db: Database, db': Database, id: string, a: Attempt)
    requires Journal.WellFormed(db) && Finished(db, db', id, a)
    ensures Journal.WellFormed(db')
    ensures forall t :: Covered(db, t) ==> Covered(db', t)
  {
  }

  /** Finishing a paid attempt changes the journal's liabilities as settling does the authority's. */
  lemma JournalTableAfterFinish(db: Database, db': Database, id: string, a: Attempt)
    requires Journal.WellFormed(db) && Finished(db, db', id, a)
    ensures JournalTable(db') ==
      if a.billing.Paid? && a.cost.Some? then SettleTable(JournalTable(db), id, a.cost.value) else JournalTable(db)
  {
    var before := db.attempts[id];
    assert before.cost.None? && a.billing == before.billing;
    if a.billing.Paid? {
      assert LiabilityOf(a) ==
        if a.cost.Some? then SettledRow(LiabilityOf(before), a.cost.value) else LiabilityOf(before);
    }
  }

  lemma FinishedKeepsBound(db: Database, db': Database, id: string, a: Attempt)
    requires Journal.WellFormed(db) && Finished(db, db', id, a) && DayBounded(JournalTable(db), DAY_LIMIT)
    ensures DayBounded(JournalTable(db'), DAY_LIMIT)
  {
    JournalTableAfterFinish(db, db', id, a);
    if a.billing.Paid? && a.cost.Some? {
      SettleIsReconcile(JournalTable(db), id, a.cost.value);
      ReconcileKeepsBound(JournalTable(db), map[id := a.cost.value], DAY_LIMIT);
    }
  }

  lemma FinishedStep(s: State, db': Database, id: string, a: Attempt, settles: set<(string, nat)>)
    requires Inv(s) && s.lock.Free? && Finished(s.db, db', id, a) && OutboxExact(db')
    requires settles == if a.billing.Paid? && a.cost.Some? then s.settles + {(id, a.cost.value)} else s.settles
    ensures Inv(s.(db := db', settles := settles))
  {
    FinishedKeepsEvidence(s.db, db', id, a);
    FinishedKeepsRows(s.db, db', id, a);
    EvidenceCarriesInFlight(s, s.(db := db', settles := settles));
    if s.book.None? {
      FinishedKeepsBound(s.db, db', id, a);
    } else {
      EvidenceCarriesBooks(s.db, db', s.book.value);
    }
  }

  lemma FinishStep(s: State, id: string, cost: Option<int>, complete: bool, successful: bool)
    requires Inv(s) && s.lock.Free?
    ensures Inv(Next(s, Step.FinishAttempt(id, cost, complete, successful)))
  {
    if Finishable(s.db, id, cost) {
      FinishKeepsOutbox(s.db, id, cost, complete, successful);
      FinishWrites(s.db, id, cost, complete, successful);
      var s' := Next(s, Step.FinishAttempt(id, cost, complete, successful));
      FinishedStep(s, s'.db, id, FinishedAttempt(s.db.attempts[id], cost, complete), s'.settles);
    }
  }

  lemma ReserveStep(s: State, id: string, a: Admission, date: string)
    requires Inv(s) && Enabled(s, ReservePaid(id, a, date))
    ensures Inv(Next(s, ReservePaid(id, a, date)))
  {
    ReserveKeepsBound(s.book, id, date, a.reserve, s.db.policy.limit);
  }

  lemma SettleStep(s: State, costs: map<string, nat>)
    requires Inv(s)
    requires forall id | id in costs :: SettledAt(s.db, id, costs[id])
    ensures Inv(s.(book := ReconcileBook(s.book, costs)))
  {
    if s.book.Some? {
      ReconcileKeepsBound(s.book.value, costs, DAY_LIMIT);
    }
  }

  /** Importing into an authority that already covers the journal changes nothing: an interrupted
      migration can be restarted without losing or overwriting a liability. */
  lemma RestartedImport(db: Database, t: Table)
    requires Covered(db, t)
    ensures ImportTable(t, PaidRows(db)) == t
  {
    assert forall id | id in PaidRows(db) :: IsPaid(db, id) && id in t;
  }

  lemma ImportStep(s: State)
    requires Inv(s) && Enabled(s, ImportLiabilities)
    ensures Inv(Next(s, ImportLiabilities))
    ensures s.book.Some? ==> Next(s, ImportLiabilities).book == s.book
  {
    if s.book.Some? {
      RestartedImport(s.db, s.book.value);
    } else {
      FirstImport(s.db);
    }
  }

  lemma AdmitStep(s: State, id: string, a: Attempt)
    requires Inv(s)
    requires a.status.Admitted? && a.cost.None?
    requires a.billing.Paid? ==>
      s.book.Some? && id in s.book.value && s.book.value[id].date == a.date && s.book.value[id].reserved == a.reserved
    ensures Inv(s.(db := Admit(s.db, id, a), lock := Free))
  {
    AdmitKeepsOutbox(s.db, id, a);
    AdmittedStep(s, Admit(s.db, id, a), id, a);
  }

  lemma AdmittedRows(db: Database, db': Database, id: string, a: Attempt)
    requires Journal.WellFormed(db) && a.status.Admitted? && a.cost.None?
    requires db'.attempts == if id in db.attempts then db.attempts else db.attempts[id := a]
    ensures Journal.WellFormed(db') && KeepsEvidence(db, db')
    ensures a.billing.Included? ==> JournalTable(db') == JournalTable(db)
    ensures forall t: Table ::
      Covered(db, t) && (a.billing.Paid? ==> id in t && t[id].date == a.date && t[id].reserved == a.reserved) ==>
        Covered(db', t)
  {
  }

  lemma AdmittedStep(s: State, db: Database, id: string, a: Attempt)
    requires Inv(s)
    requires a.status.Admitted? && a.cost.None?
    requires a.billing.Paid? ==>
      s.book.Some? && id in s.book.value && s.book.value[id].date == a.date && s.book.value[id].reserved == a.reserved
    requires db.attempts == if id in s.db.attempts then s.db.attempts else s.db.attempts[id := a]
    requires OutboxExact(db) && db.policy == s.db.policy && db.budgetInitialized == s.db.budgetInitialized
    ensures Inv(s.(db := db, lock := Free))
  {
    AdmittedRows(s.db, db, id, a);
    EvidenceCarriesInFlight(s, s.(db := db, lock := Free));
    if s.book.Some? {
      EvidenceCarriesBooks(s.db, db, s.book.value);
    }
  }

  lemma ApplyStep(s: State, draft: Draft, expected: Option<int>)
    requires Inv(s)
    ensures Inv(s.(db := ApplyPolicy(s.db, draft, expected)))
  {
    ApplyKeepsOutbox(s.db, draft, expected);
    JournalOnlyStep(s, ApplyPolicy(s.db, draft, expected));
  }

  /** Every commit keeps the two databases consistent. */
  lemma StepKeepsInv(s: State, step: Step)
    requires Inv(s) && Enabled(s, step)
    ensures Inv(Next(s, step))
  {
    match step
    case ApplyDraft(draft, expected) => ApplyStep(s, draft, expected);
    case AcquireSession(client, session, selected, request, clientRequest) =>
      JournalOnlyStep(s, Acquire(s.db, client, session, selected, request, clientRequest));
    case ReleaseSession(client, session, request) => JournalOnlyStep(s, Release(s.db, client, session, request));
    case AdmitIncluded(id, a, date) => AdmitStep(s, id, NewAttempt(a, date));
    case ReservePaid(id, a, date) => ReserveStep(s, id, a, date);
    case CommitAdmission => AdmitStep(s, s.lock.id, s.lock.attempt);
    case FinishAttempt(id, cost, complete, successful) => FinishStep(s, id, cost, complete, successful);
    case SettleOne(id, cost) =>
      if s.book.Some? {
        SettleIsReconcile(s.book.value, id, cost);
      }
      SettleStep(s, map[id := cost]);
    case ReconcileAll(costs) => SettleStep(s, costs);
    case ImportLiabilities => ImportStep(s);
    case CommitMigration => JournalOnlyStep(s, s.db.(budgetInitialized := true));
    case _ =>
  }

  /** Safety over whole runs, whatever the interleaving and wherever a crash falls. */
  lemma {:induction false} RunKeepsInv(states: seq<State>, steps: seq<Step>)
    requires IsRun(states, steps) && Inv(states[0])
    ensures forall i | 0 <= i < |states| :: Inv(states[i])
  {
    if steps != [] {
      var n := |steps|;
      RunKeepsInv(states[..n], steps[..n - 1]);
      assert states[..n][n - 1] == states[n - 1];
      StepKeepsInv(states[n - 1], steps[n - 1]);
      forall i | 0 <= i < |states| ensures Inv(states[i]) {
        if i < n {
          assert states[..n][i] == states[i];
        }
      }
    }
  }
}
