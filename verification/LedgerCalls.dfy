/** The store's calls are runs of the ledger, wherever they fail. */
module LedgerCalls {
  import opened Basics
  import opened Budget
  import opened Journal
  import opened Ledger
  import Store

  /** The two databases between calls. */
  function Quiet(db: Database, book: Book): State {
    State(db, book, Free, {}, {})
  }

  ghost predicate Reaches(s: State, s': State) {
    exists states, steps :: IsRun(states, steps) && states[0] == s && states[|steps|] == s'
  }

  lemma ReachesNone(s: State)
    ensures Reaches(s, s)
  {
    assert IsRun([s], []);
  }

  lemma ReachesOne(s: State, step: Step)
    requires Enabled(s, step)
    ensures Reaches(s, Next(s, step))
  {
    var states := [s, Next(s, step)];
    assert IsRun(states, [step]);
  }

  lemma ReachesTwo(s: State, first: Step, second: Step)
    requires Enabled(s, first) && Enabled(Next(s, first), second)
    ensures Reaches(s, Next(Next(s, first), second))
  {
    var states, steps := [s, Next(s, first), Next(Next(s, first), second)], [first, second];
    forall i | 0 <= i < |steps| ensures Enabled(states[i], steps[i]) && states[i + 1] == Next(states[i], steps[i]) {
      assert i == 0 || i == 1;
    }
    assert IsRun(states, steps);
  }

  /** Whatever is reached from a consistent pair of databases is consistent. */
  lemma ReachedKeepsInv(s: State, s': State)
    requires Inv(s) && Reaches(s, s')
    ensures Inv(s')
  {
    var states, steps :| IsRun(states, steps) && states[0] == s && states[|steps|] == s';
    RunKeepsInv(states, steps);
  }

  /** Opening a store, cut off wherever it may be. */
  lemma OpenIsRun(db: Database, book: Book, db': Database, book': Book, budgetFault: bool, crashed: bool)
    requires db' == if db.budgetInitialized || budgetFault || crashed then db else db.(budgetInitialized := true)
    requires book' == if db.budgetInitialized || budgetFault then book else ImportBook(book, PaidRows(db))
    ensures Reaches(Quiet(db, book), Quiet(db', book'))
  {
    var s := Quiet(db, book);
    if db.budgetInitialized || budgetFault {
      ReachesNone(s);
    } else {
      ReachesTwo(s, ImportLiabilities, if crashed then Step.Crash else CommitMigration);
    }
  }

  /** An admission call: the reservation is committed before the attempt, and may stay behind alone. */
  lemma AdmitIsRun(db: Database, book: Book, db': Database, book': Book, a: Admission, id: string, date: string,
                   ok: bool, budgetFault: bool)
    requires ok ==> 0 <= a.reserve && a.policyVersion == db.policy.version
    requires db' == if ok then Admit(db, id, NewAttempt(a, date)) else db
    requires book' == if 0 <= a.reserve && a.billing.Paid? && a.policyVersion == db.policy.version && !budgetFault
                      then ReserveBook(book, id, date, a.reserve, db.policy.limit) else book
    requires ok && a.billing.Paid? ==>
      !budgetFault && ReserveVerdict(book, id, date, a.reserve, db.policy.limit).Granted?
    ensures Reaches(Quiet(db, book), Quiet(db', book'))
  {
    var s := Quiet(db, book);
    if 0 <= a.reserve && a.billing.Paid? && a.policyVersion == db.policy.version && !budgetFault
       && ReserveVerdict(book, id, date, a.reserve, db.policy.limit).Granted? {
      ReachesTwo(s, ReservePaid(id, a, date), if ok then CommitAdmission else Abandon);
    } else if ok {
      ReachesOne(s, AdmitIncluded(id, a, date));
    } else {
      ReachesNone(s);
    }
  }

  /** A finish: the journal's commit first, the authority told afterwards or not at all. */
  lemma FinishIsRun(db: Database, book: Book, db': Database, book': Book, id: string, cost: Option<int>, complete: bool,
                    successful: bool, fault: bool, budgetFault: bool)
    requires db' == if fault then db else Finish(db, id, cost, complete, successful)
    requires book' == if fault || budgetFault || ToSettle(db, id, cost, complete).None? then book
                      else SettleBook(book, id, ToSettle(db, id, cost, complete).value)
    ensures Reaches(Quiet(db, book), Quiet(db', book'))
  {
    var s := Quiet(db, book);
    var finish := Step.FinishAttempt(id, cost, complete, successful);
    if fault {
      ReachesNone(s);
    } else if ToSettle(db, id, cost, complete).None? {
      ReachesOne(s, finish);
    } else {
      var due := ToSettle(db, id, cost, complete).value;
      ReachesTwo(s, finish, if budgetFault then DropSettle(id, due) else SettleOne(id, due));
    }
  }

  lemma ReconcileIsRun(db: Database, book: Book, book': Book, budgetFault: bool)
    requires book' == if budgetFault then book else ReconcileBook(book, SettledCosts(db))
    ensures Reaches(Quiet(db, book), Quiet(db, book'))
  {
    var s := Quiet(db, book);
    ReachesTwo(s, ReadSettled, if budgetFault then DropSnapshot(SettledCosts(db)) else ReconcileAll(SettledCosts(db)));
  }

  lemma JournalCallIsRun(db: Database, book: Book, db': Database, step: Step, fault: bool)
    requires step.ApplyDraft? || step.AcquireSession? || step.ReleaseSession?
    requires db' == if fault then db else Next(Quiet(db, book), step).db
    ensures Reaches(Quiet(db, book), Quiet(db', book))
  {
    if fault {
      ReachesNone(Quiet(db, book));
    } else {
      ReachesOne(Quiet(db, book), step);
    }
  }

  // ------------------------------------------------------------ the object's calls

  function View(store: Store.Store): State
    reads store, store.authority
  {
    Quiet(store.db, store.authority.book)
  }

  method Open(db: Database, authority: Budget.Authority, budgetFault: bool, crashed: bool) returns (store: Store.Store)
    modifies authority
    ensures store.authority == authority && fresh(store) && Reaches(Quiet(db, old(authority.book)), View(store))
  {
    store := new Store.Store(db, authority, budgetFault, crashed);
    OpenIsRun(db, old(authority.book), store.db, authority.book, budgetFault, crashed);
  }

  method AdmitOn(store: Store.Store, a: Admission, id: string, date: string, fault: bool, budgetFault: bool)
    returns (r: Result<Attempt, Rejection>)
    modifies store`db, store.authority
    ensures Reaches(old(View(store)), View(store))
  {
    r := store.AdmitAttempt(a, id, date, fault, budgetFault);
    AdmitIsRun(old(store.db), old(store.authority.book), store.db, store.authority.book, a, id, date, r.Ok?,
               budgetFault);
  }

  method FinishOn(store: Store.Store, id: string, cost: Option<int>, complete: bool, successful: bool, fault: bool,
                  budgetFault: bool)
    returns (rejected: bool)
    modifies store`db, store.authority
    ensures Reaches(old(View(store)), View(store))
  {
    rejected := store.FinishAttempt(id, cost, complete, successful, fault, budgetFault);
    FinishIsRun(old(store.db), old(store.authority.book), store.db, store.authority.book, id, cost, complete,
                successful, fault, budgetFault);
  }

  method ReconcileOn(store: Store.Store, budgetFault: bool)
    modifies store.authority
    ensures Reaches(old(View(store)), View(store))
  {
    store.ReconcileBudget(budgetFault);
    ReconcileIsRun(store.db, old(store.authority.book), store.authority.book, budgetFault);
  }

  method ApplyOn(store: Store.Store, draft: Draft, expected: Option<int>, fault: bool)
    returns (r: Result<Policy, Rejection>)
    modifies store`db
    ensures Reaches(old(View(store)), View(store))
  {
    r := store.Apply(draft, expected, fault);
    JournalCallIsRun(old(store.db), store.authority.book, store.db, ApplyDraft(draft, expected), fault);
  }

  method AcquireOn(store: Store.Store, client: string, session: string, selected: string, request: string,
                   clientRequest: Option<string>, fault: bool)
    returns (r: Result<Option<Session>, Rejection>)
    modifies store`db
    ensures Reaches(old(View(store)), View(store))
  {
    r := store.AcquireSession(client, session, selected, request, clientRequest, fault);
    JournalCallIsRun(old(store.db), store.authority.book, store.db,
                     AcquireSession(client, session, selected, request, clientRequest), fault);
  }

  method ReleaseOn(store: Store.Store, client: string, session: string, request: string, fault: bool)
    modifies store`db
    ensures Reaches(old(View(store)), View(store))
  {
    store.ReleaseSession(client, session, request, fault);
    JournalCallIsRun(old(store.db), store.authority.book, store.db, Step.ReleaseSession(client, session, request),
                     fault);
  }
}
