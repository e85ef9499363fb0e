/** The admission store: one journal database beside one budget authority, each committed on its own. */
module Store {
  import opened Basics
  import opened Journal
  import Budget

  class Store {
    var db: Database
    const authority: Budget.Authority

    /** Opening the store migrates an existing journal's liabilities. `budgetFault`: the authority's import
        rolls back. `crashed`: the process ends after that import but before the journal records it. */
    constructor (db0: Database, authority: Budget.Authority, budgetFault: bool, crashed: bool)
      modifies authority
      ensures this.authority == authority
      ensures db == if db0.budgetInitialized || budgetFault || crashed then db0 else db0.(budgetInitialized := true)
      ensures authority.book ==
        if db0.budgetInitialized || budgetFault then old(authority.book)
        else Budget.ImportBook(old(authority.book), PaidRows(db0))
      ensures !db0.budgetInitialized && !budgetFault ==>
        exists rows ::
          && (forall id :: id in rows <==> id in db0.attempts && db0.attempts[id].billing == Paid)
          && (forall id | id in rows :: PaidRowOf(db0.attempts[id], rows[id]))
          && Budget.ImportsExactly(old(authority.book), rows, authority.book)
    {
      PaidRowsExactly(db0);
      db := db0;
      this.authority := authority;
      new;
      if !db.budgetInitialized {
        var rows := ListPaid(PaidRows(db));
        var ok := authority.Initialize(rows, budgetFault);
        if ok && !crashed {
          db := db.(budgetInitialized := true);
        }
      }
    }

    /** `fault` in each method: the journal's own transaction fails and rolls back. */
    method Apply(draft: Draft, expected: Option<int>, fault: bool) returns (r: Result<Policy, Rejection>)
      modifies this`db
      ensures db == if fault then old(db) else ApplyPolicy(old(db), draft, expected)
      ensures !fault ==> AppliedAsTold(old(db), draft, expected, db)
      ensures r.Ok? <==> !fault && Applicable(old(db), draft, expected)
      ensures r.Ok? ==> r.value == db.policy
      ensures !Validated(draft) ==> r == Err(BadRequest)
      ensures !fault && Validated(draft) && r.Err? ==> r == Err(Conflict)
    {
      if draft.limit != 2_000_000 || !draft.sound {
        return Err(BadRequest);
      }
      if fault {
        return Err(Failure);
      }
      if expected.None? || db.policy.version != expected.value {
        return Err(Conflict);
      }
      db :=
        db.(policy := Policy(expected.value + 1, draft.limit),
            outbox := db.outbox + [PolicyApplied(expected.value + 1)]);
      r := Ok(db.policy);
    }

    /** Answers the row as it was, when it still binds the same selection. */
    method AcquireSession(client: string, session: string, selected: string, request: string,
                          clientRequest: Option<string>, fault: bool)
      returns (r: Result<Option<Session>, Rejection>)
      modifies this`db
      ensures db == if fault then old(db) else Acquire(old(db), client, session, selected, request, clientRequest)
      ensures r.Ok? <==> !fault && Acquirable(old(db), client, session, clientRequest)
      ensures r.Ok? <==> !fault && IsNewRequest(old(db), client, session, clientRequest)
      ensures !fault ==> AcquiredAsTold(old(db), client, session, selected, request, clientRequest, db)
      ensures r.Ok? ==>
        (r.value == if (client, session) in old(db).sessions && old(db).sessions[(client, session)].selected == selected
                    then Some(old(db).sessions[(client, session)]) else None)
    {
      AcquireExactly(db, client, session, selected, request, clientRequest);
      if fault {
        return Err(Failure);
      }
      var work := db;
      if clientRequest.Some? && clientRequest.value != "" {
        if (client, clientRequest.value) in work.requests {
          return Err(Conflict);
        }
        work := work.(requests := work.requests[(client, clientRequest.value) := request]);
      }
      var previous := if (client, session) in work.sessions then Some(work.sessions[(client, session)]) else None;
      if previous.Some? && previous.value.pending.Some? {
        // The request row inserted above is rolled back with the rest.
        return Err(Conflict);
      }
      if previous.Some? && previous.value.selected == selected {
        db := work.(sessions := work.sessions[(client, session) := previous.value.(pending := Some(request))]);
        return Ok(previous);
      }
      db := work.(sessions := work.sessions[(client, session) := Session(selected, None, None, Some(request))]);
      r := Ok(None);
    }

    method ReleaseSession(client: string, session: string, request: string, fault: bool)
      modifies this`db
      ensures db == if fault then old(db) else Release(old(db), client, session, request)
      ensures !fault ==> ReleasedAsTold(old(db), client, session, request, db)
    {
      ReleaseExactly(db, client, session, request);
      if !fault && (client, session) in db.sessions {
        var row := db.sessions[(client, session)];
        if row.pending == Some(request) {
          db := db.(sessions := db.sessions[(client, session) := row.(pending := None)]);
        }
      }
    }

    /** The liability is committed first: a failure after it leaves an orphan reservation, never an
        uncovered attempt. */
    method AdmitAttempt(a: Admission, id: string, date: string, fault: bool, budgetFault: bool)
      returns (r: Result<Attempt, Rejection>)
      modifies this`db, authority
      ensures r.Ok? ==>
        && 0 <= a.reserve
        && r.value == NewAttempt(a, date) && RowOf(a, date, r.value)
        && id !in old(db).attempts
        && a.policyVersion == old(db).policy.version
      ensures db == if r.Ok? then Admit(old(db), id, NewAttempt(a, date)) else old(db)
      ensures authority.book ==
        if 0 <= a.reserve && a.billing.Paid? && a.policyVersion == old(db).policy.version && !budgetFault
        then Budget.ReserveBook(old(authority.book), id, date, a.reserve, old(db).policy.limit)
        else old(authority.book)
      ensures r.Ok? && a.billing.Paid? ==>
        !budgetFault && Budget.ReserveVerdict(old(authority.book), id, date, a.reserve, old(db).policy.limit).Granted?
      ensures a.reserve < 0 ==> r == Err(BadRequest)
      ensures 0 <= a.reserve && a.policyVersion != old(db).policy.version ==> r == Err(Conflict)
      ensures 0 <= a.reserve && a.policyVersion == old(db).policy.version ==>
        var verdict := Budget.ReserveVerdict(old(authority.book), id, date, a.reserve, old(db).policy.limit);
        && (r == Err(BudgetSpent) <==> a.billing.Paid? && !budgetFault && verdict.Exhausted?)
        && (r == Err(BudgetDown) <==> a.billing.Paid? && (budgetFault || verdict.Unavailable?))
        && (r == Err(Failure) <==>
              (fault || id in old(db).attempts) && (a.billing.Paid? ==> !budgetFault && verdict.Granted?))
        && (r.Err? ==> r.error in {BudgetSpent, BudgetDown, Failure})
      ensures 0 <= a.reserve && a.billing == Paid && a.policyVersion == old(db).policy.version && !budgetFault ==>
        exists verdict ::
          Budget.ReservesExactly(old(authority.book), id, date, a.reserve, old(db).policy.limit, verdict,
                                 authority.book)
      ensures r == Err(BudgetDown) || r == Err(BudgetSpent) ==> authority.book == old(authority.book)
    {
      if a.reserve < 0 {
        return Err(BadRequest);
      }
      if db.policy.version != a.policyVersion {
        return Err(Conflict);
      }
      if a.billing.Paid? {
        var verdict := authority.Reserve(id, date, a.reserve, db.policy.limit, budgetFault);
        match verdict
        case Unavailable => return Err(BudgetDown);
        case Exhausted => return Err(BudgetSpent);
        case Granted =>
      }
      if fault || id in db.attempts {
        return Err(Failure);
      }
      var record :=
        Attempt(a.requestId, a.client, a.session, a.model, a.account, a.billing, Admitted, date, a.reserve, None,
                a.prices, a.upstream, a.policyVersion, a.created);
      db := db.(attempts := db.attempts[id := record], outbox := db.outbox + [AttemptAdmitted(id)]);
      r := Ok(record);
    }

    /** `budgetFault`: the authority is unavailable, or the process ends, after the journal's commit. */
    method FinishAttempt(id: string, cost: Option<int>, complete: bool, successful: bool, fault: bool,
                         budgetFault: bool)
      returns (rejected: bool)
      modifies this`db, authority
      ensures db == if fault then old(db) else Finish(old(db), id, cost, complete, successful)
      ensures rejected <==> !fault && Open(old(db), id) && !Finishable(old(db), id, cost)
      ensures rejected <==> !fault && Open(old(db), id) && !MayFinish(old(db), id, cost)
      ensures !fault ==> FinishedAsTold(old(db), id, cost, complete, successful, db)
      ensures !fault && !budgetFault ==> forall due | Due(old(db), id, cost, complete, due) ::
        Budget.SettlesExactly(old(authority.book), due, authority.book)
      ensures
        var due := ToSettle(old(db), id, cost, complete);
        authority.book ==
          if fault || budgetFault || due.None? then old(authority.book)
          else Budget.SettleBook(old(authority.book), id, due.value)
    {
      RefusedFinish(db, id, cost, complete, successful);
      FinishExactly(db, id, cost, complete, successful);
      DueExactly(db, id, cost, complete);
      rejected := false;
      if fault || id !in db.attempts || (db.attempts[id].status != Admitted && db.attempts[id].status != Unresolved) {
        return;
      }
      var row := db.attempts[id];
      var charge := if row.billing.Included? then Some(0) else cost;
      if charge.Some? && charge.value < 0 {
        return true;
      }
      var settled := complete && charge.Some?;
      var after :=
        row.(status := if settled then Settled else Unresolved, cost := if settled then Some(charge.value) else None);
      var work := db.(attempts := db.attempts[id := after]);
      if successful && (row.client, row.session) in work.sessions
        && work.sessions[(row.client, row.session)].pending == Some(row.requestId) {
        var binding := work.sessions[(row.client, row.session)];
        var named := binding.(model := Some(row.model), account := Some(row.account));
        work := work.(sessions := work.sessions[(row.client, row.session) := named]);
      }
      db := work.(outbox := work.outbox + [AttemptFinished(id, after.status, after.cost)]);
      if row.billing.Paid? && settled {
        var _ := authority.Settle(id, charge.value, budgetFault);
      }
    }

    method ReconcileBudget(budgetFault: bool)
      modifies authority
      ensures authority.book ==
        if budgetFault then old(authority.book) else Budget.ReconcileBook(old(authority.book), SettledCosts(db))
      ensures !budgetFault ==> Budget.SettlesExactly(old(authority.book), SettledCosts(db), authority.book)
    {
      var rows := ListCosts(SettledCosts(db));
      var _ := authority.Reconcile(rows, budgetFault);
    }
  }

  /** Rows of a table in some order, each once. */
  method ListPaid(m: map<string, Budget.PaidRow>) returns (rows: seq<(string, Budget.PaidRow)>)
    ensures forall i, j | 0 <= i < j < |rows| :: rows[i].0 != rows[j].0
    ensures Budget.RowMap(rows) == m
  {
    rows := [];
    var rest := m;
    while rest != map[]
      invariant Splits(m, rest, Budget.RowMap(rows)) && Once(rows, rest.Keys)
      decreases |rest|
    {
      var id :| id in rest;
      Budget.RowMapAppend(rows, (id, rest[id]));
      OnceNext(rows, rest.Keys, (id, rest[id]));
      MoveOne(m, rest, Budget.RowMap(rows), id);
      rows := rows + [(id, rest[id])];
      rest := rest - {id};
    }
  }

  method ListCosts(m: map<string, nat>) returns (rows: seq<(string, nat)>)
    ensures forall i, j | 0 <= i < j < |rows| :: rows[i].0 != rows[j].0
    ensures Budget.CostMap(rows) == m
  {
    rows := [];
    var rest := m;
    while rest != map[]
      invariant Splits(m, rest, Budget.CostMap(rows)) && Once(rows, rest.Keys)
      decreases |rest|
    {
      var id :| id in rest;
      Budget.CostMapAppend(rows, (id, rest[id]));
      OnceNext(rows, rest.Keys, (id, rest[id]));
      MoveOne(m, rest, Budget.CostMap(rows), id);
      rows := rows + [(id, rest[id])];
      rest := rest - {id};
    }
  }

  /** A table, split into the rows still to list and those listed. */
  ghost predicate Splits<V(!new)>(m: map<string, V>, rest: map<string, V>, listed: map<string, V>) {
    rest.Keys <= m.Keys && rest == (map id | id in rest :: m[id]) && listed == m - rest.Keys
  }

  /** No id is listed twice or listed and still to list. */
  predicate Once<V>(rows: seq<(string, V)>, rest: set<string>) {
    && (forall i, j | 0 <= i < j < |rows| :: rows[i].0 != rows[j].0)
    && (forall i | 0 <= i < |rows| :: rows[i].0 !in rest)
  }

  lemma MoveOne<V(!new)>(m: map<string, V>, rest: map<string, V>, listed: map<string, V>, id: string)
    requires Splits(m, rest, listed) && id in rest
    ensures Splits(m, rest - {id}, listed[id := rest[id]])
    ensures |rest - {id}| < |rest|
  {
    assert (rest - {id}).Keys == rest.Keys - {id};
    assert |rest| == |rest.Keys| && |rest - {id}| == |(rest - {id}).Keys|;
    assert rest[id] == m[id];
  }

  lemma OnceNext<V>(rows: seq<(string, V)>, rest: set<string>, row: (string, V))
    requires Once(rows, rest) && row.0 in rest
    ensures Once(rows + [row], rest - {row.0})
  {
  }
}
