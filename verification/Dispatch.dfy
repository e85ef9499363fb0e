/** One dispatched request: what it asks of each route, how an attempt is closed, and when it may fall back. */
module Dispatch {
  import opened Basics
  import opened JsonValues
  import opened Catalog
  import opened RoutePricing
  import opened Journal
  import opened Receipts

  /** What `dispatch` knows of a request. `version` is the policy it read when it began. */
  datatype Request = Request(
    version: nat, requestId: string, client: string, session: string, protocol: Protocol, body: Dict)

  predicate Streaming(r: Request) {
    Truthy(Get(r.body, "stream", Null))
  }

  /** A request as it is prepared for one route. */
  datatype Asked = Asked(body: Dict, protocol: Protocol, model: Model, route: Route, binding: Binding)
  {
    function Prepared(): Prepared {
      PrepareOf(body, protocol, model, route, binding)
    }
  }

  /** The headers that tie an answer to its attempt. */
  datatype Headers = Headers(version: Option<string>, attempt: Option<string>, auth: Option<string>)

  /** What became of an accepted answer's body. `complete`: a stream saw its successful terminal event. `Malformed`: a
      value in it made the service raise. */
  datatype Body = Interrupted | Malformed | ClientGone | Ended(complete: bool, usage: Option<Usage>)

  /** What the native service did. `answer` is what it says about the attempt if it is asked for a receipt. */
  datatype Delivery = Lost | Answered(headers: Headers, status: int, answer: Option<Json>, body: Body)

  /** One route the request is tried on, and all it meets there: a refusal of the client's headers, a fresh attempt id,
      the clock, failures of either database while admitting and closing, and the delivery. */
  datatype Hop = Hop(
    model: Model, route: Route, binding: Binding, headers: Option<int>, id: string, date: string, created: int,
    admitFault: bool, admitBudgetFault: bool, delivery: Delivery, closeFault: bool, closeBudgetFault: bool)

  function AskedOf(r: Request, hop: Hop): Asked {
    Asked(r.body, r.protocol, hop.model, hop.route, hop.binding)
  }

  /** What the store is asked to admit. */
  function AdmissionOf(r: Request, hop: Hop, reserve: int): Admission {
    Admission(r.version, r.requestId, r.client, r.session, hop.model.id, hop.route.accountId,
              if hop.route.paid then Paid else Included, reserve, hop.route.prices, hop.route.Canonical(), hop.created)
  }

  /** The one call that closes an admitted attempt. */
  datatype Close =
    | ZeroRejected
    | HttpError(status: int, zero: bool)
    | Mismatch
    | TransportLost
    | StreamCut
    | Finalized(complete: bool, successful: bool, usage: Option<Usage>)

  datatype Reply = Delivered | Rejected(status: int) | Failed

  const RETRIABLE: set<int> := {401, 402, 403, 404, 408, 409, 429, 500, 502, 503, 504}

  // ------------------------------------------------------------ what a well-behaved request does

  /** The answer names this very attempt and its account's auth id. */
  predicate Managed(id: string, auth: string, h: Headers) {
    h.version == Some("1") && h.attempt == Some(id) && h.auth == Some(auth)
  }

  /** `receipt_zero` with a receipt read now. */
  predicate Zero(bindings: Bindings, id: string, a: Attempt, answer: Option<Json>) {
    ReceiptZero(a, NativeReceipt(bindings, id, a, answer))
  }

  /** The provider may have accepted the call, or its receipt cannot be trusted. */
  predicate Uncertain(bindings: Bindings, id: string, auth: string, a: Attempt, d: Delivery) {
    || d.Lost?
    || (!Managed(id, auth, d.headers) && !(d.status >= 400 && Zero(bindings, id, a, d.answer)))
  }

  /** The answer was accepted and is being handed to the client. */
  predicate HandedOver(id: string, auth: string, d: Delivery) {
    d.Answered? && Managed(id, auth, d.headers) && d.status < 400
  }

  /** Falling back is safe: nothing was started, or a retriable HTTP status came back. */
  predicate Safe(bindings: Bindings, id: string, auth: string, a: Attempt, d: Delivery) {
    && d.Answered?
    && if Managed(id, auth, d.headers) then d.status in RETRIABLE
       else d.status >= 400 && Zero(bindings, id, a, d.answer)
  }

  // ------------------------------------------------------------ how an attempt is closed

  /** The closing call, if there is one, and the end of the request, unless it falls back. */
  function Closing(bindings: Bindings, id: string, auth: string, a: Attempt, streaming: bool, d: Delivery)
    : (Option<Close>, Option<Reply>)
  {
    match d
    case Lost => (Some(TransportLost), Some(Rejected(502)))
    case Answered(headers, status, answer, body) =>
      var zero := Zero(bindings, id, a, answer);
      if !Managed(id, auth, headers) then
        if status >= 400 && zero then (Some(ZeroRejected), None) else (Some(Mismatch), Some(Rejected(502)))
      else if status >= 400 then
        (Some(HttpError(status, zero)), if status in RETRIABLE then None else Some(Rejected(status)))
      else HandedOverClosing(streaming, body)
  }

  /** The same once the answer is accepted: its body is read, or forwarded, to its end. */
  function HandedOverClosing(streaming: bool, body: Body): (Option<Close>, Option<Reply>) {
    match body
    case Interrupted =>
      if streaming then (Some(StreamCut), Some(Delivered)) else (Some(TransportLost), Some(Rejected(502)))
    case Malformed => (None, Some(Failed))
    case ClientGone => if streaming then (None, Some(Failed)) else (Some(Finalized(true, true, None)), Some(Failed))
    case Ended(complete, usage) =>
      (Some(if streaming then Finalized(complete, complete, usage) else Finalized(true, true, usage)), Some(Delivered))
  }

  /** Cost, completeness and success the closing call gives to the store. */
  function CloseArgs(bindings: Bindings, id: string, a: Attempt, answer: Option<Json>,
                     close: Close): (Option<int>, bool, bool)
  {
    match close
    case ZeroRejected => (Some(0), true, false)
    case HttpError(_, zero) => (if zero then Some(0) else None, zero || a.billing.Included?, false)
    case Mismatch => (None, false, false)
    case TransportLost => (None, false, false)
    case StreamCut => (None, false, false)
    case Finalized(complete, successful, usage) => FinalizeArgs(bindings, id, a, answer, usage, complete, successful)
  }

  function Widen(cost: Option<nat>): Option<int> {
    if cost.Some? then Some(cost.value) else None
  }

  /** What `finalize` gives to the store: for a paid attempt, its receipt decides. */
  function FinalizeArgs(bindings: Bindings, id: string, a: Attempt, answer: Option<Json>, usage: Option<Usage>,
                        complete: bool, successful: bool): (Option<int>, bool, bool)
  {
    if a.billing.Included? then (Widen(CostFor(usage, a.prices)), complete, successful)
    else
      var authoritative := ReceiptUsage(a, NativeReceipt(bindings, id, a, answer));
      if authoritative.None? then (None, false, successful)
      else (Widen(CostFor(authoritative, a.prices)), true, successful)
  }

  /** What `reconcile` gives to the store for an open attempt; nothing without a conclusive receipt. */
  function ReconcileArgs(bindings: Bindings, id: string, a: Attempt,
                         answer: Option<Json>): Option<(Option<int>, bool, bool)>
  {
    var receipt := NativeReceipt(bindings, id, a, answer);
    if ReceiptZero(a, receipt) then Some((Some(0), true, false))
    else if ReceiptUsage(a, receipt).Some? then Some((Widen(CostFor(ReceiptUsage(a, receipt), a.prices)), true, true))
    else None
  }

  /** An attempt falls back exactly where that is safe, and its delivery is never uncertain then. */
  lemma FallsBackExactly(bindings: Bindings, id: string, auth: string, a: Attempt, streaming: bool, d: Delivery)
    ensures Closing(bindings, id, auth, a, streaming, d).1.None? <==> Safe(bindings, id, auth, a, d)
    ensures Uncertain(bindings, id, auth, a, d) ==>
      Closing(bindings, id, auth, a, streaming, d).1 == Some(Rejected(502))
    ensures Uncertain(bindings, id, auth, a, d) || HandedOver(id, auth, d) ==> !Safe(bindings, id, auth, a, d)
    ensures Safe(bindings, id, auth, a, d) ==> Closing(bindings, id, auth, a, streaming, d).0.Some?
  {
  }

  /** Every closing call is one the service may make: it settles a paid attempt only on a receipt that names it. */
  lemma ClosingIsJustified(bindings: Bindings, id: string, auth: string, a: Attempt, streaming: bool, d: Delivery)
    requires Closing(bindings, id, auth, a, streaming, d).0.Some?
    ensures
      var answer := if d.Answered? then d.answer else None;
      var args := CloseArgs(bindings, id, a, answer, Closing(bindings, id, auth, a, streaming, d).0.value);
      Justified(bindings, id, a, args.0, args.1)
  {
    if d.Answered? {
      ZeroIsJustified(bindings, id, a, d.answer);
      var close := Closing(bindings, id, auth, a, streaming, d).0.value;
      if close.Finalized? {
        FinalizeIsJustified(bindings, id, a, d.answer, close.usage, close.complete, close.successful);
      }
    }
  }

  lemma ZeroIsJustified(bindings: Bindings, id: string, a: Attempt, answer: Option<Json>)
    ensures Zero(bindings, id, a, answer) ==> Justified(bindings, id, a, Some(0), true)
  {
    if Zero(bindings, id, a, answer) {
      assert Backs(bindings, id, a, NativeReceipt(bindings, id, a, answer).value, 0);
    }
  }

  lemma PricedIsJustified(bindings: Bindings, id: string, a: Attempt, answer: Option<Json>)
    ensures
      var usage := ReceiptUsage(a, NativeReceipt(bindings, id, a, answer));
      usage.Some? ==> Justified(bindings, id, a, Widen(CostFor(usage, a.prices)), true)
  {
    var receipt := NativeReceipt(bindings, id, a, answer);
    var usage := ReceiptUsage(a, receipt);
    if usage.Some? && CostFor(usage, a.prices).Some? {
      assert Backs(bindings, id, a, receipt.value, CostFor(usage, a.prices).value);
    }
  }

  lemma FinalizeIsJustified(bindings: Bindings, id: string, a: Attempt, answer: Option<Json>, usage: Option<Usage>,
                            complete: bool, successful: bool)
    ensures
      var args := FinalizeArgs(bindings, id, a, answer, usage, complete, successful);
      Justified(bindings, id, a, args.0, args.1)
  {
    PricedIsJustified(bindings, id, a, answer);
  }

  lemma ReconcileIsJustified(bindings: Bindings, id: string, a: Attempt, answer: Option<Json>)
    requires ReconcileArgs(bindings, id, a, answer).Some?
    ensures
      var args := ReconcileArgs(bindings, id, a, answer).value;
      Justified(bindings, id, a, args.0, args.1)
  {
    ZeroIsJustified(bindings, id, a, answer);
    PricedIsJustified(bindings, id, a, answer);
  }

  // ------------------------------------------------------------ a request over its routes

  /** What came of one route: refused before anything was sent, raised, or attempted; `close` is absent when the
      journal failed, a value was malformed, or the client left before anything was handed over. */
  datatype Look = Refused(status: int) | Raised | Tried(record: Attempt, close: Option<Close>)

  /** The statuses with which the store refuses an admission. */
  const STORE_REFUSALS: set<int> := {400, 402, 409, 503}

  /** A look at a route that follows from what the route met. */
  predicate Fits(bindings: Bindings, r: Request, hop: Hop, look: Look) {
    var prepared := AskedOf(r, hop).Prepared();
    match look
    case Refused(status) =>
      if prepared.Refused? then prepared.status == status
      else prepared.Sent? && if hop.headers.Some? then status == hop.headers.value else status in STORE_REFUSALS
    case Raised => !prepared.Refused? && (prepared.Sent? ==> hop.headers.None?)
    case Tried(record, close) =>
      && prepared.Sent? && hop.headers.None?
      && record == NewAttempt(AdmissionOf(r, hop, prepared.reserve), hop.date)
      && (close.Some? ==> close == Closing(bindings, hop.id, hop.binding.authId, record, Streaming(r), hop.delivery).0)
  }

  /** The next route is tried: this one was paid and could not be admitted, or was attempted, closed and safe to
      leave. */
  predicate PassedBy(bindings: Bindings, hop: Hop, look: Look) {
    match look
    case Refused(status) => hop.route.paid && status in {402, 503}
    case Raised => false
    case Tried(record, close) => close.Some? && Safe(bindings, hop.id, hop.binding.authId, record, hop.delivery)
  }

  /** The looks of one request, route by route in order: all but the last were passed by. */
  predicate Orderly(bindings: Bindings, r: Request, hops: seq<Hop>, looks: seq<Look>) {
    && |looks| <= |hops|
    && AllFit(bindings, r, hops, looks)
    && AllPassed(bindings, hops, looks, |looks| - 1)
  }

  predicate AllFit(bindings: Bindings, r: Request, hops: seq<Hop>, looks: seq<Look>)
    requires |looks| <= |hops|
  {
    forall k | 0 <= k < |looks| :: Fits(bindings, r, hops[k], looks[k])
  }

  predicate AllPassed(bindings: Bindings, hops: seq<Hop>, looks: seq<Look>, n: int)
    requires n <= |looks| <= |hops|
  {
    forall k | 0 <= k < n :: PassedBy(bindings, hops[k], looks[k])
  }

  lemma FitGrows(bindings: Bindings, r: Request, hops: seq<Hop>, looks: seq<Look>, look: Look)
    requires |looks| < |hops| && AllFit(bindings, r, hops, looks) && Fits(bindings, r, hops[|looks|], look)
    ensures AllFit(bindings, r, hops, looks + [look])
  {
    assert forall k | 0 <= k < |looks| :: (looks + [look])[k] == looks[k];
  }

  lemma PassedGrows(bindings: Bindings, hops: seq<Hop>, looks: seq<Look>, look: Look)
    requires |looks| < |hops| && AllPassed(bindings, hops, looks, |looks| - 1)
    requires looks != [] ==> PassedBy(bindings, hops[|looks| - 1], looks[|looks| - 1])
    ensures AllPassed(bindings, hops, looks + [look], |looks|)
  {
    assert forall k | 0 <= k < |looks| :: (looks + [look])[k] == looks[k];
  }

  lemma OrderlyGrows(bindings: Bindings, r: Request, hops: seq<Hop>, looks: seq<Look>, look: Look)
    requires Orderly(bindings, r, hops, looks) && |looks| < |hops| && Fits(bindings, r, hops[|looks|], look)
    requires looks != [] ==> PassedBy(bindings, hops[|looks| - 1], looks[|looks| - 1])
    ensures Orderly(bindings, r, hops, looks + [look])
  {
    FitGrows(bindings, r, hops, looks, look);
    PassedGrows(bindings, hops, looks, look);
  }

  /** No attempt of a request follows one whose delivery is uncertain, whose answer was handed over, or that could
      not be closed; and all of them ran under one policy version. */
  lemma NothingAfterUncertain(bindings: Bindings, r: Request, hops: seq<Hop>, looks: seq<Look>, k: nat)
    requires Orderly(bindings, r, hops, looks) && k < |looks| && looks[k].Tried?
    ensures
      var hop, a := hops[k], looks[k].record;
      && (Uncertain(bindings, hop.id, hop.binding.authId, a, hop.delivery) ==> k == |looks| - 1)
      && (HandedOver(hop.id, hop.binding.authId, hop.delivery) ==> k == |looks| - 1)
      && (looks[k].close.None? ==> k == |looks| - 1)
      && a.policyVersion == r.version && a.requestId == r.requestId
  {
    var hop, a := hops[k], looks[k].record;
    FallsBackExactly(bindings, hop.id, hop.binding.authId, a, Streaming(r), hop.delivery);
    assert Fits(bindings, r, hop, looks[k]);
    assert k < |looks| - 1 ==> PassedBy(bindings, hop, looks[k]);
  }

  /** At most one attempt is finalized, let alone successful, and it is the last one admitted. */
  lemma FinalizedIsLast(bindings: Bindings, r: Request, hops: seq<Hop>, looks: seq<Look>, k: nat)
    requires Orderly(bindings, r, hops, looks) && k < |looks| && looks[k].Tried?
    requires looks[k].close.Some? && looks[k].close.value.Finalized?
    ensures k == |looks| - 1
  {
    assert Fits(bindings, r, hops[k], looks[k]);
    NothingAfterUncertain(bindings, r, hops, looks, k);
  }

  /** Before finalizing, the loop settles a paid attempt only at zero, and only on a zero receipt that names the attempt
      and its account's auth id. */
  lemma ClosingNeedsZeroReceipt(bindings: Bindings, r: Request, hops: seq<Hop>, looks: seq<Look>, k: nat)
    requires Orderly(bindings, r, hops, looks) && k < |looks| && looks[k].Tried? && looks[k].close.Some?
    requires hops[k].route.paid && !looks[k].close.value.Finalized?
    ensures
      var hop, a := hops[k], looks[k].record;
      var answer := if hop.delivery.Answered? then hop.delivery.answer else None;
      var (cost, complete, _) := CloseArgs(bindings, hop.id, a, answer, looks[k].close.value);
      complete && cost.Some? ==> (
        && cost == Some(0) && answer.Some? && answer.value.Obj?
        && Names(bindings, hop.id, a, answer.value.fields) && ReceiptZero(a, Some(answer.value.fields)))
  {
    assert Fits(bindings, r, hops[k], looks[k]);
  }
}
