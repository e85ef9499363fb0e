/** Serving one request on the store: its session, its candidate routes in turn, and how each attempt is closed. */
module Requests {
  import opened Basics
  import opened Catalog
  import opened Journal
  import opened Dispatch
  import opened Service
  import opened LedgerCalls
  import opened Server
  import opened JsonValues
  import Ledger
  import Receipts
  import RoutePricing

  /** The state of both databases under an application. */
  function Both(app: Application): Ledger.State
    reads app.store, app.store.authority
  {
    View(app.store)
  }

  /** The journal after an attempt was closed so. */
  function AfterClose(db: Database, bindings: Receipts.Bindings, hop: Hop, a: Attempt, close: Option<Close>): Database {
    if close.None? then db
    else
      var answer := if hop.delivery.Answered? then hop.delivery.answer else None;
      var (cost, complete, successful) := CloseArgs(bindings, hop.id, a, answer, close.value);
      Finish(db, hop.id, cost, complete, successful)
  }

  // ------------------------------------------------------------ what a delivery leaves

  /** The attempt is over at no cost, its sessions are as before. */
  predicate OverAtZero(id: string, a: Attempt, before: Database, after: Database) {
    && after.attempts.Keys == before.attempts.Keys && id in after.attempts
    && FinishedRow(a, after.attempts[id], Some(0)) && after.sessions == before.sessions
  }

  /** The attempt stays open: what it cost is not known. */
  predicate LeftOpen(id: string, a: Attempt, before: Database, after: Database) {
    && after.attempts.Keys == before.attempts.Keys && id in after.attempts
    && FinishedRow(a, after.attempts[id], None) && after.sessions == before.sessions
  }

  /** The attempt is finalized: complete and successful, or neither. */
  ghost predicate Finalizes(bindings: Receipts.Bindings, id: string, a: Attempt, answer: Option<Json>, done: bool,
                            before: Database, after: Database)
  {
    && after.attempts.Keys == before.attempts.Keys && id in after.attempts
    && FinalizedAsTold(bindings, id, a, done, answer, after.attempts[id])
    && SessionsBound(a, done, before.sessions, after.sessions)
  }

  predicate IsForAttempt(hop: Hop, h: Headers) {
    h.version == Some("1") && h.attempt == Some(hop.id) && h.auth == Some(hop.binding.authId)
  }

  predicate MayRetry(status: int) {
    || (401 <= status <= 404) || status == 408 || status == 409 || status == 429
    || status == 500 || (502 <= status <= 504)
  }

  /** What an accepted answer leaves, whose body is read, or forwarded, to its end. */
  ghost predicate BodyAsTold(bindings: Receipts.Bindings, hop: Hop, streaming: bool, a: Attempt, answer: Option<Json>,
                             body: Body, before: Database, after: Database, ended: Option<Reply>)
  {
    match body
    case Interrupted =>
      LeftOpen(hop.id, a, before, after) && ended == Some(if streaming then Delivered else Rejected(502))
    case Malformed => after == before && ended == Some(Failed)
    case ClientGone =>
      && ended == Some(Failed)
      && if streaming then after == before else Finalizes(bindings, hop.id, a, answer, true, before, after)
    case Ended(complete, _) =>
      && ended == Some(Delivered)
      && Finalizes(bindings, hop.id, a, answer, if streaming then complete else true, before, after)
  }

  /** What a delivery leaves of the journal, and how the request ends unless it falls back. */
  ghost predicate DeliveredAsTold(bindings: Receipts.Bindings, hop: Hop, streaming: bool, a: Attempt, before: Database,
                                  after: Database, ended: Option<Reply>)
  {
    match hop.delivery
    case Lost => LeftOpen(hop.id, a, before, after) && ended == Some(Rejected(502))
    case Answered(headers, status, answer, body) =>
      var nothing := Receipts.ReportsNothing(bindings, hop.id, a, answer);
      if !IsForAttempt(hop, headers) then
        if status >= 400 && nothing then OverAtZero(hop.id, a, before, after) && ended == None
        else LeftOpen(hop.id, a, before, after) && ended == Some(Rejected(502))
      else if status >= 400 then
        && (if nothing || a.billing == Included then OverAtZero(hop.id, a, before, after)
            else LeftOpen(hop.id, a, before, after))
        && ended == if MayRetry(status) then None else Some(Rejected(status))
      else BodyAsTold(bindings, hop, streaming, a, answer, body, before, after, ended)
  }

  lemma OpenIsLeft(db: Database, bindings: Receipts.Bindings, hop: Hop, a: Attempt, close: Close)
    requires hop.id in db.attempts && db.attempts[hop.id] == a && a.status != Settled
    requires close.TransportLost? || close.Mismatch? || close.StreamCut?
    ensures LeftOpen(hop.id, a, db, AfterClose(db, bindings, hop, a, Some(close)))
  {
    FinishedRowsExactly(db, hop.id, None, false, false);
    FinishedSessionsExactly(db, hop.id, None, false, false);
  }

  lemma RejectionIsOver(db: Database, bindings: Receipts.Bindings, hop: Hop, a: Attempt, status: int, zero: bool)
    requires hop.id in db.attempts && db.attempts[hop.id] == a && a.status != Settled
    ensures OverAtZero(hop.id, a, db, AfterClose(db, bindings, hop, a, Some(ZeroRejected)))
    ensures
      var after := AfterClose(db, bindings, hop, a, Some(HttpError(status, zero)));
      if zero || a.billing == Included then OverAtZero(hop.id, a, db, after) else LeftOpen(hop.id, a, db, after)
  {
    FinishedRowsExactly(db, hop.id, Some(0), true, false);
    FinishedSessionsExactly(db, hop.id, Some(0), true, false);
    var cost := if zero then Some(0) else None;
    FinishedRowsExactly(db, hop.id, cost, zero || a.billing.Included?, false);
    FinishedSessionsExactly(db, hop.id, cost, zero || a.billing.Included?, false);
  }

  lemma FinalizingIsTold(db: Database, bindings: Receipts.Bindings, hop: Hop, a: Attempt, done: bool,
                         usage: Option<Usage>)
    requires hop.id in db.attempts && db.attempts[hop.id] == a && a.status != Settled && hop.delivery.Answered?
    ensures Finalizes(bindings, hop.id, a, hop.delivery.answer, done, db,
                      AfterClose(db, bindings, hop, a, Some(Finalized(done, done, usage))))
  {
    CloseIsFinalize(db, bindings, hop, a, done, usage);
    FinalizedMeans(db, bindings, hop.id, a, usage, done, done, hop.delivery.answer);
    FinalizeKeepsIds(db, bindings, hop.id, a, usage, done, hop.delivery.answer);
  }

  lemma FinalizeKeepsIds(db: Database, bindings: Receipts.Bindings, id: string, a: Attempt, usage: Option<Usage>,
                         done: bool, answer: Option<Json>)
    ensures AfterFinalize(db, bindings, id, a, usage, done, done, answer, false).attempts.Keys == db.attempts.Keys
  {
  }

  lemma BodyIsTold(db: Database, bindings: Receipts.Bindings, hop: Hop, a: Attempt, streaming: bool)
    requires hop.id in db.attempts && db.attempts[hop.id] == a && a.status != Settled && hop.delivery.Answered?
    ensures
      var (close, ended) := HandedOverClosing(streaming, hop.delivery.body);
      BodyAsTold(bindings, hop, streaming, a, hop.delivery.answer, hop.delivery.body, db,
                 AfterClose(db, bindings, hop, a, close), ended)
  {
    match hop.delivery.body
    case Interrupted => OpenIsLeft(db, bindings, hop, a, if streaming then StreamCut else TransportLost);
    case Malformed =>
    case ClientGone => FinalizingIsTold(db, bindings, hop, a, true, None);
    case Ended(complete, usage) => FinalizingIsTold(db, bindings, hop, a, if streaming then complete else true, usage);
  }

  lemma RetriableExactly(status: int)
    ensures status in RETRIABLE <==> MayRetry(status)
  {
  }

  /** Every delivery leaves what its answer tells. */
  lemma DeliveryIsTold(db: Database, bindings: Receipts.Bindings, hop: Hop, a: Attempt, streaming: bool)
    requires hop.id in db.attempts && db.attempts[hop.id] == a && a.status != Settled
    ensures
      var (close, ended) := Closing(bindings, hop.id, hop.binding.authId, a, streaming, hop.delivery);
      DeliveredAsTold(bindings, hop, streaming, a, db, AfterClose(db, bindings, hop, a, close), ended)
  {
    match hop.delivery
    case Lost => OpenIsLeft(db, bindings, hop, a, TransportLost);
    case Answered(headers, status, answer, body) =>
      Receipts.ZeroExactly(bindings, hop.id, a, answer);
      RetriableExactly(status);
      OpenIsLeft(db, bindings, hop, a, Mismatch);
      RejectionIsOver(db, bindings, hop, a, status, Zero(bindings, hop.id, a, answer));
      BodyIsTold(db, bindings, hop, a, streaming);
  }

  /** An attempt from its delivery to its close. */
  method Deliver(app: Application, r: Request, hop: Hop, a: Attempt, ghost asked: map<string, Asked>)
    returns (close: Option<Close>, ended: Option<Reply>)
    requires hop.id in app.store.db.attempts && app.store.db.attempts[hop.id] == a
    modifies app.store, app.store.authority
    ensures
      var (given, next) := Closing(app.bindings, hop.id, hop.binding.authId, a, Streaming(r), hop.delivery);
      if given.None? || hop.closeFault then close == None && ended == Some(Failed) else close == given && ended == next
    ensures app.store.db == AfterClose(old(app.store.db), app.bindings, hop, a, close)
    ensures hop.closeFault ==> app.store.db == old(app.store.db) && ended == Some(Failed)
    ensures !hop.closeFault && a.status != Settled ==>
      DeliveredAsTold(app.bindings, hop, Truthy(Get(r.body, "stream", Null)), a, old(app.store.db), app.store.db, ended)
    ensures ServedReaches(app.bindings, asked, old(Both(app)), Both(app))
  {
    if a.status != Settled {
      DeliveryIsTold(app.store.db, app.bindings, hop, a, Streaming(r));
    }
    if hop.delivery.Answered? && Managed(hop.id, hop.binding.authId, hop.delivery.headers)
      && hop.delivery.status < 400 {
      close, ended := HandOver(app, r, hop, a, asked);
    } else {
      close, ended := TurnDown(app, r, hop, a, asked);
    }
    if hop.closeFault {
      close, ended := None, Some(Failed);
    }
  }

  /** A call that was lost, or whose answer is not accepted. */
  method TurnDown(app: Application, r: Request, hop: Hop, a: Attempt, ghost asked: map<string, Asked>)
    returns (close: Option<Close>, ended: Option<Reply>)
    requires hop.id in app.store.db.attempts && app.store.db.attempts[hop.id] == a
    requires !HandedOver(hop.id, hop.binding.authId, hop.delivery)
    modifies app.store, app.store.authority
    ensures (close, ended) == Closing(app.bindings, hop.id, hop.binding.authId, a, Streaming(r), hop.delivery)
    ensures app.store.db
         == if hop.closeFault then old(app.store.db) else AfterClose(old(app.store.db), app.bindings, hop, a, close)
    ensures ServedReaches(app.bindings, asked, old(Both(app)), Both(app))
  {
    var cost: Option<int>, complete := None, false;
    match hop.delivery {
      case Lost => close, ended := Some(TransportLost), Some(Rejected(502));
      case Answered(headers, status, answer, _) =>
        var zero := Zero(app.bindings, hop.id, a, answer);
        if Managed(hop.id, hop.binding.authId, headers) {
          cost, complete := if zero then Some(0) else None, zero || a.billing.Included?;
          close := Some(HttpError(status, zero));
          ended := if status in RETRIABLE then None else Some(Rejected(status));
        } else if status >= 400 && zero {
          cost, complete := Some(0), true;
          close, ended := Some(ZeroRejected), None;
        } else {
          close, ended := Some(Mismatch), Some(Rejected(502));
        }
    }
    app.Finish(hop.id, a, cost, complete, false, hop.closeFault, hop.closeBudgetFault,
               Closes(hop.binding.authId, Streaming(r), hop.delivery), asked);
  }

  /** An accepted answer is read, or forwarded, to its end. */
  method HandOver(app: Application, r: Request, hop: Hop, a: Attempt, ghost asked: map<string, Asked>)
    returns (close: Option<Close>, ended: Option<Reply>)
    requires hop.id in app.store.db.attempts && app.store.db.attempts[hop.id] == a
    requires HandedOver(hop.id, hop.binding.authId, hop.delivery)
    modifies app.store, app.store.authority
    ensures (close, ended) == HandedOverClosing(Streaming(r), hop.delivery.body)
    ensures app.store.db
         == if hop.closeFault then old(app.store.db) else AfterClose(old(app.store.db), app.bindings, hop, a, close)
    ensures ServedReaches(app.bindings, asked, old(Both(app)), Both(app))
  {
    ServedNone(app.bindings, asked, Both(app));
    match hop.delivery.body
    case Interrupted =>
      close := Interrupt(app, r, hop, a, asked);
      ended := Some(if Streaming(r) then Delivered else Rejected(502));
    case Malformed => close, ended := None, Some(Failed);
    case ClientGone =>
      close, ended := None, Some(Failed);
      if !Streaming(r) {
        close := FinalizeBody(app, hop, a, true, None, asked);
      }
    case Ended(complete, usage) =>
      close := FinalizeBody(app, hop, a, if Streaming(r) then complete else true, usage, asked);
      ended := Some(Delivered);
  }

  /** The transport, or a streaming client, went away in the middle of the body. */
  method Interrupt(app: Application, r: Request, hop: Hop, a: Attempt, ghost asked: map<string, Asked>)
    returns (close: Option<Close>)
    requires hop.id in app.store.db.attempts && app.store.db.attempts[hop.id] == a
    requires HandedOver(hop.id, hop.binding.authId, hop.delivery) && hop.delivery.body.Interrupted?
    modifies app.store, app.store.authority
    ensures close == Some(if Streaming(r) then StreamCut else TransportLost)
    ensures app.store.db
         == if hop.closeFault then old(app.store.db) else AfterClose(old(app.store.db), app.bindings, hop, a, close)
    ensures ServedReaches(app.bindings, asked, old(Both(app)), Both(app))
  {
    app.Finish(hop.id, a, None, false, false, hop.closeFault, hop.closeBudgetFault,
               Closes(hop.binding.authId, Streaming(r), hop.delivery), asked);
    close := Some(if Streaming(r) then StreamCut else TransportLost);
  }

  method FinalizeBody(app: Application, hop: Hop, a: Attempt, done: bool, usage: Option<Usage>,
                      ghost asked: map<string, Asked>)
    returns (close: Option<Close>)
    requires hop.id in app.store.db.attempts && app.store.db.attempts[hop.id] == a && hop.delivery.Answered?
    modifies app.store, app.store.authority
    ensures close == Some(Finalized(done, done, usage))
    ensures app.store.db
         == if hop.closeFault then old(app.store.db) else AfterClose(old(app.store.db), app.bindings, hop, a, close)
    ensures ServedReaches(app.bindings, asked, old(Both(app)), Both(app))
  {
    CloseIsFinalize(app.store.db, app.bindings, hop, a, done, usage);
    app.Finalize(hop.id, a, usage, done, done, hop.delivery.answer, hop.closeFault, hop.closeBudgetFault, asked);
    close := Some(Finalized(done, done, usage));
  }

  lemma CloseIsFinalize(db: Database, bindings: Receipts.Bindings, hop: Hop, a: Attempt, done: bool,
                        usage: Option<Usage>)
    requires hop.delivery.Answered?
    ensures AfterClose(db, bindings, hop, a, Some(Finalized(done, done, usage)))
         == AfterFinalize(db, bindings, hop.id, a, usage, done, done, hop.delivery.answer, false)
    ensures AfterFinalize(db, bindings, hop.id, a, usage, done, done, hop.delivery.answer, true) == db
  {
  }

  /** How a request ends on a look that is not passed by. */
  function EndOf(bindings: Receipts.Bindings, r: Request, hop: Hop, look: Look): Reply {
    match look
    case Refused(status) => Rejected(status)
    case Raised => Failed
    case Tried(record, close) =>
      var ended := Closing(bindings, hop.id, hop.binding.authId, record, Streaming(r), hop.delivery).1;
      if close.None? || ended.None? then Failed else ended.value
  }

  /** What a look leaves in the journal. */
  function AfterLook(db: Database, bindings: Receipts.Bindings, hop: Hop, look: Look): Database {
    if look.Tried? then AfterClose(Admit(db, hop.id, look.record), bindings, hop, look.record, look.close) else db
  }

  // ------------------------------------------------------------ what a route, and a request, must do

  /** The row of an attempt on this route: everything that its finish and its receipt are judged by later. */
  ghost predicate Admits(r: Request, hop: Hop, row: Attempt) {
    && row.requestId == r.requestId && row.client == r.client && row.session == r.session
    && row.policyVersion == r.version
    && row.model == hop.model.id && row.account == hop.route.accountId && row.prices == hop.route.prices
    && row.billing == (if hop.route.paid then Paid else Included)
    && row.upstream == (if hop.route.canonicalModel.Some? then hop.route.canonicalModel.value
                        else hop.route.upstreamModel)
    && row.status == Admitted && row.cost == None && row.date == hop.date && row.created == hop.created
    && ReservesEnough(r, hop, row.reserved)
  }

  ghost predicate ReservesEnough(r: Request, hop: Hop, reserve: int) {
    if !hop.route.paid then reserve == 0
    else
      && reserve >= 0 && hop.route.prices.Some? && RoutePricing.HasProof(hop.route, hop.binding)
      && forall n | RoutePricing.AsksFor(r.body, r.protocol, hop.model, n) ::
           n >= 1 && RoutePricing.Reserves(reserve, hop.model, hop.route, hop.binding, n)
  }

  ghost predicate IsSendable(r: Request, hop: Hop) {
    RoutePricing.MaySend(r.body, r.protocol, hop.model, hop.route, hop.binding)
  }

  /** A look at a route, told from the request and the route. */
  ghost predicate LookAsTold(r: Request, hop: Hop, look: Look) {
    match look
    case Refused(status) =>
      || (status == 402 && RoutePricing.PriceIsRefused(r.body, r.protocol, hop.model, hop.route, hop.binding))
      || (status == 400 && RoutePricing.BoundIsRefused(r.body, r.protocol, hop.model, hop.route))
      || (IsSendable(r, hop) && hop.headers == Some(status))
      || (IsSendable(r, hop) && hop.headers == None && status in {400, 402, 409, 503})
    case Raised =>
      && !RoutePricing.PriceIsRefused(r.body, r.protocol, hop.model, hop.route, hop.binding)
      && !RoutePricing.BoundIsRefused(r.body, r.protocol, hop.model, hop.route)
      && (IsSendable(r, hop) ==> hop.headers == None)
    case Tried(record, _) => IsSendable(r, hop) && hop.headers == None && Admits(r, hop, record)
  }

  /** What one route leaves, and how the request ends unless the next one is tried. */
  ghost predicate RouteAsTold(bindings: Receipts.Bindings, r: Request, hop: Hop, look: Look, before: Database,
                              after: Database, ended: Option<Reply>)
  {
    LookAsTold(r, hop, look) && Leaves(bindings, r, hop, look, before, after, ended)
  }

  ghost predicate Leaves(bindings: Receipts.Bindings, r: Request, hop: Hop, look: Look, before: Database,
                         after: Database, ended: Option<Reply>)
  {
    match look
    case Refused(status) =>
      && after == before
      && ended == if hop.route.paid && (status == 402 || status == 503) then None else Some(Rejected(status))
    case Raised => after == before && ended == Some(Failed)
    case Tried(record, _) =>
      && hop.id !in before.attempts
      && var admitted := before.(attempts := before.attempts[hop.id := record],
                                 outbox := before.outbox + [AttemptAdmitted(hop.id)]);
         if hop.closeFault then after == admitted && ended == Some(Failed)
         else DeliveredAsTold(bindings, hop, Truthy(Get(r.body, "stream", Null)), record, admitted, after, ended)
  }

  /** The journals a request leaves behind, route by route; every route but the last sends it on to the next. */
  ghost predicate RoutesAsTold(bindings: Receipts.Bindings, r: Request, hops: seq<Hop>, looks: seq<Look>,
                               dbs: seq<Database>, ended: Option<Reply>)
  {
    && |looks| <= |hops| && |dbs| == |looks| + 1
    && forall k: nat | k < |looks| :: RouteAt(bindings, r, hops, looks, dbs, ended, k)
  }

  ghost predicate RouteAt(bindings: Receipts.Bindings, r: Request, hops: seq<Hop>, looks: seq<Look>,
                          dbs: seq<Database>, ended: Option<Reply>, k: nat)
    requires k < |looks| <= |hops| && |dbs| == |looks| + 1
  {
    RouteAsTold(bindings, r, hops[k], looks[k], dbs[k], dbs[k + 1], if k == |looks| - 1 then ended else None)
  }

  /** The whole request: it ends as its last route says, or, when every route sent it on, with the last reason to. */
  ghost predicate RequestAsTold(bindings: Receipts.Bindings, r: Request, hops: seq<Hop>, looks: seq<Look>,
                                before: Database, after: Database, outcome: Reply)
  {
    exists dbs, ended ::
      && RoutesAsTold(bindings, r, hops, looks, dbs, ended)
      && dbs[0] == before && dbs[|looks|] == after
      && (if ended.Some? && looks != [] then outcome == ended.value
          else |looks| == |hops| && outcome == LastReason(looks))
  }

  /** A refused paid route gives its own status, everything else the same one. */
  function LastReason(looks: seq<Look>): Reply {
    if |looks| > 0 && looks[|looks| - 1].Refused? then Rejected(looks[|looks| - 1].status) else Rejected(503)
  }

  lemma LookIsTold(bindings: Receipts.Bindings, r: Request, hop: Hop, look: Look)
    requires Fits(bindings, r, hop, look)
    ensures LookAsTold(r, hop, look)
  {
    RoutePricing.PreparesExactly(r.body, r.protocol, hop.model, hop.route, hop.binding);
    if look.Tried? {
      AdmittedIsTold(r, hop);
    }
  }

  lemma AdmittedIsTold(r: Request, hop: Hop)
    requires AskedOf(r, hop).Prepared().Sent?
    ensures
      var reserve := AskedOf(r, hop).Prepared().reserve;
      Admits(r, hop, NewAttempt(AdmissionOf(r, hop, reserve), hop.date))
  {
    RoutePricing.PreparesExactly(r.body, r.protocol, hop.model, hop.route, hop.binding);
    forall n | RoutePricing.AsksFor(r.body, r.protocol, hop.model, n)
      ensures n >= 1
      ensures hop.route.paid ==>
        RoutePricing.Reserves(AskedOf(r, hop).Prepared().reserve, hop.model, hop.route, hop.binding, n)
    {
      RoutePricing.SentExactly(r.body, r.protocol, hop.model, hop.route, hop.binding, n);
    }
  }

  /** One candidate route: prepare, admit, deliver, close. */
  method TryRoute(app: Application, r: Request, hop: Hop, ghost asked: map<string, Asked>)
    returns (look: Look, ended: Option<Reply>)
    requires hop.id in asked && asked[hop.id] == AskedOf(r, hop)
    modifies app.store, app.store.authority
    ensures Fits(app.bindings, r, hop, look)
    ensures ended.None? <==> PassedBy(app.bindings, hop, look)
    ensures ended.Some? ==> ended.value == EndOf(app.bindings, r, hop, look)
    ensures app.store.db == AfterLook(old(app.store.db), app.bindings, hop, look)
    ensures RouteAsTold(app.bindings, r, hop, look, old(app.store.db), app.store.db, ended)
    ensures ServedReaches(app.bindings, asked, old(Both(app)), Both(app))
  {
    ghost var start := Both(app);
    ServedNone(app.bindings, asked, start);
    var prepared := RoutePricing.Prepare(r.body, r.protocol, hop.model, hop.route, hop.binding);
    match prepared
    case Crashed =>
      LookIsTold(app.bindings, r, hop, Raised);
      return Raised, Some(Failed);
    case Refused(status) =>
      look, ended := Denied(hop, status);
      LookIsTold(app.bindings, r, hop, look);
      return;
    case Sent(_, reserve) =>
      if hop.headers.Some? {
        look, ended := Denied(hop, hop.headers.value);
        LookIsTold(app.bindings, r, hop, look);
        return;
      }
      look, ended := Attempted(app, r, hop, reserve, asked);
      LookIsTold(app.bindings, r, hop, look);
  }

  /** The route of a prepared request, from its admission on. */
  method Attempted(app: Application, r: Request, hop: Hop, reserve: nat, ghost asked: map<string, Asked>)
    returns (look: Look, ended: Option<Reply>)
    requires hop.id in asked && asked[hop.id] == AskedOf(r, hop) && hop.headers.None?
    requires AskedOf(r, hop).Prepared().Sent? && AskedOf(r, hop).Prepared().reserve == reserve
    modifies app.store, app.store.authority
    ensures Fits(app.bindings, r, hop, look)
    ensures ended.None? <==> PassedBy(app.bindings, hop, look)
    ensures ended.Some? ==> ended.value == EndOf(app.bindings, r, hop, look)
    ensures app.store.db == AfterLook(old(app.store.db), app.bindings, hop, look)
    ensures Leaves(app.bindings, r, hop, look, old(app.store.db), app.store.db, ended)
    ensures ServedReaches(app.bindings, asked, old(Both(app)), Both(app))
  {
    ghost var start := Both(app);
    var admission := AdmissionOf(r, hop, reserve);
    var admitted := app.store.AdmitAttempt(admission, hop.id, hop.date, hop.admitFault, hop.admitBudgetFault);
    ghost var middle := Both(app);
    ServedAdmit(app.bindings, asked, start.db, start.book, middle.db, middle.book, admission, hop.id, hop.date,
                admitted.Ok?, hop.admitBudgetFault);
    match admitted {
      case Err(Failure) => return Raised, Some(Failed);
      case Err(rejection) => look, ended := Denied(hop, StatusOf(rejection));
      case Ok(record) =>
        var close;
        close, ended := Deliver(app, r, hop, record, asked);
        ServedCompose(app.bindings, asked, start, middle, Both(app));
        FallsBackExactly(app.bindings, hop.id, hop.binding.authId, record, Streaming(r), hop.delivery);
        look := Tried(record, close);
    }
  }

  function StatusOf(rejection: Rejection): int {
    match rejection
    case BadRequest => 400
    case BudgetSpent => 402
    case Conflict => 409
    case BudgetDown => 503
    case Failure => 500
  }

  /** A refusal before anything was admitted: a paid route is passed over when it is out of budget or unavailable. */
  method Denied(hop: Hop, status: int) returns (look: Look, ended: Option<Reply>)
    ensures look == Look.Refused(status)
    ensures ended == if hop.route.paid && status in {402, 503} then None else Some(Rejected(status))
  {
    look := Look.Refused(status);
    ended := if status in {402, 503} && hop.route.paid then None else Some(Rejected(status));
  }

  /** The answer when every route was passed by: the last reason. */
  function LastError(looks: seq<Look>): int {
    if looks != [] && looks[|looks| - 1].Refused? then looks[|looks| - 1].status else 503
  }

  function AfterLooks(db: Database, bindings: Receipts.Bindings, hops: seq<Hop>, looks: seq<Look>): Database
    requires |looks| <= |hops|
  {
    if looks == [] then db
    else
      var n := |looks| - 1;
      AfterLook(AfterLooks(db, bindings, hops, looks[..n]), bindings, hops[n], looks[n])
  }

  lemma OneMoreLook(db: Database, bindings: Receipts.Bindings, hops: seq<Hop>, looks: seq<Look>, look: Look)
    requires |looks| < |hops|
    ensures AfterLooks(db, bindings, hops, looks + [look])
         == AfterLook(AfterLooks(db, bindings, hops, looks), bindings, hops[|looks|], look)
  {
    assert (looks + [look])[..|looks|] == looks;
  }

  /** The request ends as its last look says, or with the last reason once every route was passed by. */
  predicate EndsWith(bindings: Receipts.Bindings, r: Request, hops: seq<Hop>, looks: seq<Look>, outcome: Reply) {
    && |looks| <= |hops|
    && var n := |looks| - 1;
       if looks == [] || PassedBy(bindings, hops[n], looks[n]) then
         |looks| == |hops| && outcome == Rejected(LastError(looks))
       else outcome == EndOf(bindings, r, hops[n], looks[n])
  }

  lemma EndsWithLast(bindings: Receipts.Bindings, r: Request, hops: seq<Hop>, looks: seq<Look>, look: Look)
    requires |looks| < |hops| && !PassedBy(bindings, hops[|looks|], look)
    ensures EndsWith(bindings, r, hops, looks + [look], EndOf(bindings, r, hops[|looks|], look))
  {
  }

  lemma RoutesNext(bindings: Receipts.Bindings, r: Request, hops: seq<Hop>, looks: seq<Look>, dbs: seq<Database>,
                   look: Look, after: Database, ended: Option<Reply>)
    requires |looks| < |hops| && RoutesAsTold(bindings, r, hops, looks, dbs, None)
    requires RouteAsTold(bindings, r, hops[|looks|], look, dbs[|looks|], after, ended)
    ensures RoutesAsTold(bindings, r, hops, looks + [look], dbs + [after], ended)
  {
    forall k: nat | k < |looks| + 1 ensures RouteAt(bindings, r, hops, looks + [look], dbs + [after], ended, k) {
      assert k < |looks| ==> RouteAt(bindings, r, hops, looks, dbs, None, k);
    }
  }

  lemma RequestIsTold(bindings: Receipts.Bindings, r: Request, hops: seq<Hop>, looks: seq<Look>, dbs: seq<Database>,
                      before: Database, after: Database, ended: Option<Reply>, outcome: Reply)
    requires JournalsAsTold(bindings, r, hops, looks, dbs, before, after, ended)
    requires if ended.Some? && looks != [] then outcome == ended.value
             else |looks| == |hops| && outcome == Rejected(LastError(looks))
    ensures RequestAsTold(bindings, r, hops, looks, before, after, outcome)
  {
  }

  /** The journals of the routes tried so far. */
  ghost predicate JournalsAsTold(bindings: Receipts.Bindings, r: Request, hops: seq<Hop>, looks: seq<Look>,
                                 dbs: seq<Database>, before: Database, after: Database, ended: Option<Reply>)
  {
    RoutesAsTold(bindings, r, hops, looks, dbs, ended) && dbs[0] == before && dbs[|looks|] == after
  }

  lemma LookNext(bindings: Receipts.Bindings, r: Request, hops: seq<Hop>, looks: seq<Look>, dbs: seq<Database>,
                 start: Database, before: Database, look: Look, after: Database, ended: Option<Reply>)
    requires Orderly(bindings, r, hops, looks) && |looks| < |hops|
    requires looks != [] ==> PassedBy(bindings, hops[|looks| - 1], looks[|looks| - 1])
    requires JournalsAsTold(bindings, r, hops, looks, dbs, start, before, None)
    requires before == AfterLooks(start, bindings, hops, looks)
    requires Fits(bindings, r, hops[|looks|], look) && after == AfterLook(before, bindings, hops[|looks|], look)
    requires RouteAsTold(bindings, r, hops[|looks|], look, before, after, ended)
    ensures Orderly(bindings, r, hops, looks + [look])
    ensures JournalsAsTold(bindings, r, hops, looks + [look], dbs + [after], start, after, ended)
    ensures after == AfterLooks(start, bindings, hops, looks + [look])
  {
    OrderlyGrows(bindings, r, hops, looks, look);
    OneMoreLook(start, bindings, hops, looks, look);
    RoutesNext(bindings, r, hops, looks, dbs, look, after, ended);
  }

  /** The dispatch loop over the ordered candidate routes. */
  method TryRoutes(app: Application, r: Request, hops: seq<Hop>, ghost asked: map<string, Asked>)
    returns (looks: seq<Look>, outcome: Reply)
    requires forall k | 0 <= k < |hops| :: hops[k].id in asked && asked[hops[k].id] == AskedOf(r, hops[k])
    modifies app.store, app.store.authority
    ensures Orderly(app.bindings, r, hops, looks)
    ensures EndsWith(app.bindings, r, hops, looks, outcome)
    ensures app.store.db == AfterLooks(old(app.store.db), app.bindings, hops, looks)
    ensures RequestAsTold(app.bindings, r, hops, looks, old(app.store.db), app.store.db, outcome)
    ensures ServedReaches(app.bindings, asked, old(Both(app)), Both(app))
  {
    looks := [];
    ghost var start := Both(app);
    ghost var dbs := [start.db];
    ServedNone(app.bindings, asked, start);
    for n := 0 to |hops|
      invariant |looks| == n && Orderly(app.bindings, r, hops, looks)
      invariant n > 0 ==> PassedBy(app.bindings, hops[n - 1], looks[n - 1])
      invariant app.store.db == AfterLooks(start.db, app.bindings, hops, looks)
      invariant JournalsAsTold(app.bindings, r, hops, looks, dbs, start.db, app.store.db, None)
      invariant ServedReaches(app.bindings, asked, start, Both(app))
    {
      ghost var middle := Both(app);
      var look, ended := TryRoute(app, r, hops[n], asked);
      ServedCompose(app.bindings, asked, start, middle, Both(app));
      LookNext(app.bindings, r, hops, looks, dbs, start.db, middle.db, look, app.store.db, ended);
      dbs := dbs + [app.store.db];
      if ended.Some? {
        EndsWithLast(app.bindings, r, hops, looks, look);
        RequestIsTold(app.bindings, r, hops, looks + [look], dbs, start.db, app.store.db, ended, ended.value);
        return looks + [look], ended.value;
      }
      looks := looks + [look];
    }
    outcome := Rejected(LastError(looks));
    RequestIsTold(app.bindings, r, hops, looks, dbs, start.db, app.store.db, None, outcome);
  }

  /** What a request leaves that got its session: the session is taken, the routes are tried, the session is let go. */
  ghost predicate ServedAsTold(bindings: Receipts.Bindings, r: Request, selected: string, clientRequest: Option<string>,
                               hops: seq<Hop>, looks: seq<Look>, releaseFault: bool, before: Database,
                               after: Database, outcome: Reply)
  {
    exists held, done ::
      && AcquiredAsTold(before, r.client, r.session, selected, r.requestId, clientRequest, held)
      && RequestAsTold(bindings, r, hops, looks, held, done, outcome)
      && if releaseFault then after == done else ReleasedAsTold(done, r.client, r.session, r.requestId, after)
  }

  /** One request, with the session it holds while it lasts. */
  method Serve(app: Application, r: Request, selected: string, clientRequest: Option<string>, hops: seq<Hop>,
               acquireFault: bool, releaseFault: bool, ghost asked: map<string, Asked>)
    returns (looks: seq<Look>, outcome: Reply)
    requires forall k | 0 <= k < |hops| :: hops[k].id in asked && asked[hops[k].id] == AskedOf(r, hops[k])
    modifies app.store, app.store.authority
    ensures Orderly(app.bindings, r, hops, looks)
    ensures acquireFault || !Acquirable(old(app.store.db), r.client, r.session, clientRequest) ==>
      looks == [] && app.store.db == old(app.store.db)
    ensures acquireFault || !IsNewRequest(old(app.store.db), r.client, r.session, clientRequest) ==>
      looks == [] && app.store.db == old(app.store.db)
    ensures !acquireFault && IsNewRequest(old(app.store.db), r.client, r.session, clientRequest) ==>
      ServedAsTold(app.bindings, r, selected, clientRequest, hops, looks, releaseFault, old(app.store.db),
                   app.store.db, outcome)
    ensures !acquireFault && Acquirable(old(app.store.db), r.client, r.session, clientRequest) && !releaseFault ==>
      !Holds(app.store.db, r.client, r.session, r.requestId)
    ensures ServedReaches(app.bindings, asked, old(Both(app)), Both(app))
  {
    ghost var start := Both(app);
    ServedNone(app.bindings, asked, start);
    var acquired := app.store.AcquireSession(r.client, r.session, selected, r.requestId, clientRequest, acquireFault);
    if acquired.Err? {
      return [], if acquired.error.Failure? then Failed else Rejected(StatusOf(acquired.error));
    }
    ghost var held := Both(app);
    ServedAcquire(app.bindings, asked, start.db, start.book, r.client, r.session, selected, r.requestId, clientRequest);
    looks, outcome := TryRoutes(app, r, hops, asked);
    ghost var done := Both(app);
    ServedCompose(app.bindings, asked, start, held, done);
    app.store.ReleaseSession(r.client, r.session, r.requestId, releaseFault);
    ServedRelease(app.bindings, asked, done.db, done.book, r.client, r.session, r.requestId);
    if !releaseFault {
      ServedCompose(app.bindings, asked, start, done, Both(app));
    }
  }
}
