/** The operational journal: policy versions, sessions, client requests, attempts and the event outbox. */
module Journal {
  import opened Basics
  import opened Catalog
  import Budget

  const DAY_LIMIT: nat := 2_000_000

  datatype Billing = Included | Paid

  datatype Status = Admitted | Unresolved | Settled

  datatype Attempt = Attempt(
    requestId: string, client: string, session: string, model: string, account: string, billing: Billing,
    status: Status, date: string, reserved: nat, cost: Option<nat>,
    prices: Option<Prices>, upstream: string, policyVersion: nat, created: int)

  datatype Session = Session(selected: string, model: Option<string>, account: Option<string>, pending: Option<string>)

  datatype Policy = Policy(version: nat, limit: nat)

  /** A policy offered for application; `sound` is the verdict of every other validation rule. */
  datatype Draft = Draft(limit: int, sound: bool)

  datatype Event =
    | PolicyApplied(version: nat)
    | AttemptAdmitted(id: string)
    | AttemptFinished(id: string, status: Status, cost: Option<nat>)

  datatype Database = Database(
    policy: Policy, sessions: map<(string, string), Session>, requests: map<(string, string), string>,
    attempts: map<string, Attempt>, outbox: seq<Event>, budgetInitialized: bool)

  /** HTTP statuses of the source's rejections. */
  datatype Rejection = BadRequest | BudgetSpent | Conflict | BudgetDown | Failure

  // ------------------------------------------------------------ policy

  predicate Validated(draft: Draft) {
    draft.limit == DAY_LIMIT && draft.sound
  }

  predicate Applicable(db: Database, draft: Draft, expected: Option<int>) {
    Validated(draft) && expected == Some(db.policy.version)
  }

  function ApplyPolicy(db: Database, draft: Draft, expected: Option<int>): Database {
    if Applicable(db, draft, expected) then
      var version := db.policy.version + 1;
      db.(policy := Policy(version, draft.limit), outbox := db.outbox + [PolicyApplied(version)])
    else db
  }

  // ------------------------------------------------------------ sessions

  /** An empty client request id counts as none. */
  predicate Named(clientRequest: Option<string>) {
    clientRequest.Some? && clientRequest.value != ""
  }

  predicate Acquirable(db: Database, client: string, session: string, clientRequest: Option<string>) {
    && (Named(clientRequest) ==> (client, clientRequest.value) !in db.requests)
    && ((client, session) in db.sessions ==> db.sessions[(client, session)].pending.None?)
  }

  /** The row a new request finds: the old binding survives only under the same selection. */
  function AcquiredRow(db: Database, client: string, session: string, selected: string, request: string): Session {
    if (client, session) in db.sessions && db.sessions[(client, session)].selected == selected
    then db.sessions[(client, session)].(pending := Some(request))
    else Session(selected, None, None, Some(request))
  }

  function Acquire(db: Database, client: string, session: string, selected: string, request: string,
                   clientRequest: Option<string>): Database
  {
    if Acquirable(db, client, session, clientRequest) then
      db.(requests :=
            if Named(clientRequest) then db.requests[(client, clientRequest.value) := request] else db.requests,
          sessions := db.sessions[(client, session) := AcquiredRow(db, client, session, selected, request)])
    else db
  }

  /** The client has not sent this request before, and the session awaits no other. */
  predicate IsNewRequest(db: Database, client: string, session: string, clientRequest: Option<string>) {
    && (clientRequest.Some? && clientRequest.value != "" ==> (client, clientRequest.value) !in db.requests)
    && ((client, session) in db.sessions ==> db.sessions[(client, session)].pending == None)
  }

  /** What an acquire leaves: it is refused when the client request is known or another request is pending. Otherwise
      the session awaits this request, under this selection; what an earlier request bound survives only under the same
      selection; and a named client request is remembered. */
  predicate AcquiredAsTold(db: Database, client: string, session: string, selected: string, request: string,
                           clientRequest: Option<string>, after: Database)
  {
    var key, named := (client, session), clientRequest.Some? && clientRequest.value != "";
    if !IsNewRequest(db, client, session, clientRequest) then after == db
    else
      && after.sessions.Keys == db.sessions.Keys + {key}
      && (forall other | other in db.sessions && other != key :: after.sessions[other] == db.sessions[other])
      && after.sessions[key].selected == selected && after.sessions[key].pending == Some(request)
      && (if key in db.sessions && db.sessions[key].selected == selected
          then after.sessions[key].model == db.sessions[key].model
               && after.sessions[key].account == db.sessions[key].account
          else after.sessions[key].model == None && after.sessions[key].account == None)
      && (if named then after.requests == db.requests[(client, clientRequest.value) := request]
          else after.requests == db.requests)
      && after.attempts == db.attempts && after.outbox == db.outbox
      && after.policy == db.policy && after.budgetInitialized == db.budgetInitialized
  }

  lemma AcquireExactly(db: Database, client: string, session: string, selected: string, request: string,
                       clientRequest: Option<string>)
    ensures AcquiredAsTold(db, client, session, selected, request, clientRequest,
                           Acquire(db, client, session, selected, request, clientRequest))
    ensures Acquirable(db, client, session, clientRequest) <==> IsNewRequest(db, client, session, clientRequest)
  {
  }

  predicate Holds(db: Database, client: string, session: string, request: string) {
    (client, session) in db.sessions && db.sessions[(client, session)].pending == Some(request)
  }

  function Release(db: Database, client: string, session: string, request: string): Database {
    if Holds(db, client, session, request)
    then db.(sessions := db.sessions[(client, session) := db.sessions[(client, session)].(pending := None)])
    else db
  }

  /** What a release leaves: the session no longer awaits the request, if it did, and nothing else changes. */
  predicate ReleasedAsTold(db: Database, client: string, session: string, request: string, after: Database) {
    var key := (client, session);
    && after.sessions.Keys == db.sessions.Keys
    && (forall other | other in db.sessions && other != key :: after.sessions[other] == db.sessions[other])
    && (key in db.sessions ==>
          && after.sessions[key].selected == db.sessions[key].selected
          && after.sessions[key].model == db.sessions[key].model
          && after.sessions[key].account == db.sessions[key].account
          && after.sessions[key].pending
             == if db.sessions[key].pending == Some(request) then None else db.sessions[key].pending)
    && after.(sessions := db.sessions) == db
  }

  lemma ReleaseExactly(db: Database, client: string, session: string, request: string)
    ensures ReleasedAsTold(db, client, session, request, Release(db, client, session, request))
  {
  }

  // ------------------------------------------------------------ attempts

  datatype Admission = Admission(
    policyVersion: nat, requestId: string, client: string, session: string, model: string, account: string,
    billing: Billing, reserve: int, prices: Option<Prices>, upstream: string, created: int)

  function NewAttempt(a: Admission, date: string): Attempt
    requires 0 <= a.reserve
  {
    Attempt(a.requestId, a.client, a.session, a.model, a.account, a.billing, Admitted, date, a.reserve, None,
            a.prices, a.upstream, a.policyVersion, a.created)
  }

  /** The row of a new attempt is what was asked for, open, with its reservation and without a cost. */
  predicate RowOf(a: Admission, date: string, row: Attempt) {
    && row.requestId == a.requestId && row.client == a.client && row.session == a.session
    && row.model == a.model && row.account == a.account && row.billing == a.billing
    && row.status == Admitted && row.cost == None && row.date == date && row.reserved == a.reserve
    && row.prices == a.prices && row.upstream == a.upstream && row.policyVersion == a.policyVersion
    && row.created == a.created
  }

  /** The insert fails, and its transaction rolls back, when the id is taken. */
  function Admit(db: Database, id: string, attempt: Attempt): Database {
    if id in db.attempts then db
    else db.(attempts := db.attempts[id := attempt], outbox := db.outbox + [AttemptAdmitted(id)])
  }

  predicate Open(db: Database, id: string) {
    id in db.attempts && db.attempts[id].status != Settled
  }

  /** Included quota costs nothing, whatever the caller says. */
  function Charge(a: Attempt, cost: Option<int>): Option<int> {
    if a.billing.Included? then Some(0) else cost
  }

  predicate Finishable(db: Database, id: string, cost: Option<int>) {
    Open(db, id) && (Charge(db.attempts[id], cost).Some? ==> Charge(db.attempts[id], cost).value >= 0)
  }

  function FinishedAttempt(a: Attempt, cost: Option<int>, complete: bool): Attempt
    requires Charge(a, cost).Some? ==> Charge(a, cost).value >= 0
  {
    if complete && Charge(a, cost).Some? then a.(status := Settled, cost := Some(Charge(a, cost).value))
    else a.(status := Unresolved, cost := None)
  }

  /** A successful attempt binds its session, if its request still holds it. */
  function Bound(db: Database, a: Attempt): map<(string, string), Session> {
    if Holds(db, a.client, a.session, a.requestId)
    then db.sessions[(a.client, a.session) :=
           db.sessions[(a.client, a.session)].(model := Some(a.model), account := Some(a.account))]
    else db.sessions
  }

  function Finish(db: Database, id: string, cost: Option<int>, complete: bool, successful: bool): Database {
    if Finishable(db, id, cost) then
      var a := FinishedAttempt(db.attempts[id], cost, complete);
      db.(attempts := db.attempts[id := a],
          sessions := if successful then Bound(db, a) else db.sessions,
          outbox := db.outbox + [AttemptFinished(id, a.status, a.cost)])
    else db
  }

  /** A finish acts on an attempt that is not settled and whose charge is no debt. */
  predicate MayFinish(db: Database, id: string, cost: Option<int>) {
    && id in db.attempts && db.attempts[id].status != Settled
    && (db.attempts[id].billing == Paid && cost.Some? ==> cost.value >= 0)
  }

  /** What a finish leaves of the attempts: this one is settled at its charge, which for an included attempt is nothing,
      if it is complete and the charge is known, and otherwise left unresolved. One event tells of it. */
  lemma FinishedRowsExactly(db: Database, id: string, cost: Option<int>, complete: bool, successful: bool)
    requires MayFinish(db, id, cost)
    ensures
      var a, after := db.attempts[id], Finish(db, id, cost, complete, successful);
      var charge := if a.billing == Included then Some(0) else cost;
      && after.attempts.Keys == db.attempts.Keys
      && (forall other | other in db.attempts && other != id :: after.attempts[other] == db.attempts[other])
      && FinishedRow(a, after.attempts[id], if complete then charge else None)
      && after.outbox == db.outbox + [AttemptFinished(id, after.attempts[id].status, after.attempts[id].cost)]
      && after.policy == db.policy && after.requests == db.requests && after.budgetInitialized == db.budgetInitialized
  {
  }

  /** What a finish leaves of the sessions: a success binds the one whose pending request is the attempt's own. */
  predicate SessionsBound(a: Attempt, successful: bool, before: map<(string, string), Session>,
                          after: map<(string, string), Session>)
  {
    && after.Keys == before.Keys
    && forall key | key in before ::
         if successful && key == (a.client, a.session) && before[key].pending == Some(a.requestId)
         then BoundRow(a, before[key], after[key])
         else after[key] == before[key]
  }

  lemma FinishedSessionsExactly(db: Database, id: string, cost: Option<int>, complete: bool, successful: bool)
    requires MayFinish(db, id, cost)
    ensures SessionsBound(db.attempts[id], successful, db.sessions,
                          Finish(db, id, cost, complete, successful).sessions)
  {
  }

  /** What a finish leaves of the journal: nothing new unless the attempt is open and its cost acceptable. */
  predicate FinishedAsTold(db: Database, id: string, cost: Option<int>, complete: bool, successful: bool,
                           after: Database)
  {
    if !MayFinish(db, id, cost) then after == db
    else
      var a := db.attempts[id];
      var charge := if a.billing == Included then Some(0) else cost;
      && after.attempts.Keys == db.attempts.Keys
      && (forall other | other in db.attempts && other != id :: after.attempts[other] == db.attempts[other])
      && FinishedRow(a, after.attempts[id], if complete then charge else None)
      && SessionsBound(a, successful, db.sessions, after.sessions)
      && after.outbox == db.outbox + [AttemptFinished(id, after.attempts[id].status, after.attempts[id].cost)]
      && after.policy == db.policy && after.requests == db.requests
      && after.budgetInitialized == db.budgetInitialized
  }

  lemma FinishExactly(db: Database, id: string, cost: Option<int>, complete: bool, successful: bool)
    ensures FinishedAsTold(db, id, cost, complete, successful, Finish(db, id, cost, complete, successful))
  {
    RefusedFinish(db, id, cost, complete, successful);
    if MayFinish(db, id, cost) {
      FinishedRowsExactly(db, id, cost, complete, successful);
      FinishedSessionsExactly(db, id, cost, complete, successful);
    }
  }

  /** The cost that a finish settles in the budget: that of a paid attempt, when it is known for good. */
  predicate Due(db: Database, id: string, cost: Option<int>, complete: bool, due: map<string, nat>) {
    if MayFinish(db, id, cost) && db.attempts[id].billing == Paid && complete && cost.Some? then
      due == map[id := cost.value]
    else due == map[]
  }

  lemma DueExactly(db: Database, id: string, cost: Option<int>, complete: bool)
    ensures
      var due := ToSettle(db, id, cost, complete);
      Due(db, id, cost, complete, if due.Some? then map[id := due.value] else map[])
  {
    RefusedFinish(db, id, cost, complete, false);
  }

  /** The policy is replaced by a sound one of the next version, and an event tells of it; or nothing changes. */
  predicate AppliedAsTold(db: Database, draft: Draft, expected: Option<int>, after: Database) {
    if draft.sound && draft.limit == 2_000_000 && expected == Some(db.policy.version) then
      && after.policy.version == db.policy.version + 1 && after.policy.limit == 2_000_000
      && after.outbox == db.outbox + [PolicyApplied(db.policy.version + 1)]
      && after.(policy := db.policy, outbox := db.outbox) == db
    else after == db
  }

  lemma ApplyExactly(db: Database, draft: Draft, expected: Option<int>)
    ensures AppliedAsTold(db, draft, expected, ApplyPolicy(db, draft, expected))
  {
  }

  predicate PaidRowOf(a: Attempt, row: Budget.PaidRow) {
    && row.date == a.date && row.reserved == a.reserved && row.cost == a.cost
    && (row.settled <==> a.status == Settled)
  }

  /** The first import reads every paid attempt, and nothing else. */
  lemma PaidRowsExactly(db: Database)
    ensures forall id :: id in PaidRows(db) <==> id in db.attempts && db.attempts[id].billing == Paid
    ensures forall id | id in PaidRows(db) :: PaidRowOf(db.attempts[id], PaidRows(db)[id])
  {
  }

  /** A reconciliation reads the cost of every settled paid attempt, and nothing else. */
  lemma SettledCostsExactly(db: Database)
    ensures forall id :: id in SettledCosts(db) <==>
      && id in db.attempts && db.attempts[id].billing == Paid && db.attempts[id].status == Settled
      && db.attempts[id].cost != None
    ensures forall id | id in SettledCosts(db) :: Some(SettledCosts(db)[id]) == db.attempts[id].cost
  {
  }

  /** Any other finish changes nothing. */
  lemma RefusedFinish(db: Database, id: string, cost: Option<int>, complete: bool, successful: bool)
    ensures MayFinish(db, id, cost) <==> Finishable(db, id, cost)
    ensures !MayFinish(db, id, cost) ==> Finish(db, id, cost, complete, successful) == db
  {
  }

  /** The attempt's row, settled at a cost or left unresolved without one; nothing else of it changes. */
  predicate FinishedRow(before: Attempt, after: Attempt, cost: Option<int>) {
    && (if cost.Some? then after.status == Settled && after.cost.Some? && after.cost.value == cost.value
        else after.status == Unresolved && after.cost == None)
    && after.requestId == before.requestId && after.client == before.client && after.session == before.session
    && after.model == before.model && after.account == before.account && after.billing == before.billing
    && after.date == before.date && after.reserved == before.reserved && after.prices == before.prices
    && after.upstream == before.upstream && after.policyVersion == before.policyVersion
    && after.created == before.created
  }

  /** The session's row, bound to the attempt's model and account; its selection and pending request stay. */
  predicate BoundRow(a: Attempt, before: Session, after: Session) {
    && after.model == Some(a.model) && after.account == Some(a.account)
    && after.selected == before.selected && after.pending == before.pending
  }

  /** What the budget authority is told once a finish is committed. */
  function ToSettle(db: Database, id: string, cost: Option<int>, complete: bool): Option<nat> {
    if Finishable(db, id, cost) && db.attempts[id].billing.Paid? then
      FinishedAttempt(db.attempts[id], cost, complete).cost
    else None
  }

  // ------------------------------------------------------------ what the budget authority reads

  /** Every paid row, for the first import. */
  function PaidRows(db: Database): map<string, Budget.PaidRow> {
    map id | id in db.attempts && db.attempts[id].billing.Paid? ::
      Budget.PaidRow(db.attempts[id].date, db.attempts[id].reserved, db.attempts[id].cost,
                     db.attempts[id].status.Settled?)
  }

  predicate SettledPaid(db: Database, id: string) {
    id in db.attempts && db.attempts[id].billing.Paid? && db.attempts[id].status.Settled? && db.attempts[id].cost.Some?
  }

  /** Every settled paid cost, for reconciliation. */
  function SettledCosts(db: Database): map<string, nat> {
    map id | id in db.attempts && SettledPaid(db, id) :: db.attempts[id].cost.value
  }

  /** Exactly the settled attempts carry a cost; included ones cost nothing. */
  predicate WellFormed(db: Database) {
    forall id | id in db.attempts ::
      && (db.attempts[id].status.Settled? <==> db.attempts[id].cost.Some?)
      && (db.attempts[id].billing.Included? && db.attempts[id].cost.Some? ==> db.attempts[id].cost.value == 0)
  }

  // ------------------------------------------------------------ the outbox is the journal

  datatype Outcome = Outcome(status: Status, cost: Option<nat>)

  /** The attempts' outcomes as a reader of the event stream sees them. */
  function Replay(events: seq<Event>): map<string, Outcome> {
    if events == [] then map[]
    else
      var before := Replay(events[..|events| - 1]);
      match events[|events| - 1]
      case PolicyApplied(_) => before
      case AttemptAdmitted(id) => before[id := Outcome(Admitted, None)]
      case AttemptFinished(id, status, cost) => before[id := Outcome(status, cost)]
  }

  function OutcomesOf(attempts: map<string, Attempt>): map<string, Outcome> {
    map id | id in attempts :: Outcome(attempts[id].status, attempts[id].cost)
  }

  /** Readers of the event stream see exactly the attempts table. */
  predicate OutboxExact(db: Database) {
    Replay(db.outbox) == OutcomesOf(db.attempts)
  }

  /** Committing the event with the row keeps every reader of the stream exact. */
  lemma AdmitKeepsOutbox(db: Database, id: string, attempt: Attempt)
    requires OutboxExact(db)
    requires attempt.status == Admitted && attempt.cost == None
    ensures OutboxExact(Admit(db, id, attempt))
  {
    if id !in db.attempts {
      ReplayAppend(db.outbox, AttemptAdmitted(id));
      OutcomesUpdate(db.attempts, id, attempt);
    }
  }

  lemma FinishKeepsOutbox(db: Database, id: string, cost: Option<int>, complete: bool, successful: bool)
    requires OutboxExact(db)
    ensures OutboxExact(Finish(db, id, cost, complete, successful))
  {
    if Finishable(db, id, cost) {
      var a := FinishedAttempt(db.attempts[id], cost, complete);
      ReplayAppend(db.outbox, AttemptFinished(id, a.status, a.cost));
      OutcomesUpdate(db.attempts, id, a);
    }
  }

  lemma OutcomesUpdate(attempts: map<string, Attempt>, id: string, a: Attempt)
    ensures OutcomesOf(attempts[id := a]) == OutcomesOf(attempts)[id := Outcome(a.status, a.cost)]
  {
  }

  lemma ApplyKeepsOutbox(db: Database, draft: Draft, expected: Option<int>)
    requires OutboxExact(db)
    ensures OutboxExact(ApplyPolicy(db, draft, expected))
  {
    ReplayAppend(db.outbox, PolicyApplied(db.policy.version + 1));
  }

  lemma ReplayAppend(events: seq<Event>, e: Event)
    ensures Replay(events + [e]) ==
      match e
      case PolicyApplied(_) => Replay(events)
      case AttemptAdmitted(id) => Replay(events)[id := Outcome(Admitted, None)]
      case AttemptFinished(id, status, cost) => Replay(events)[id := Outcome(status, cost)]
  {
    assert (events + [e])[..|events|] == events;
  }
}
