/** Conservative bounds of paid requests: what is sent upstream, what is reserved for it, what it can cost. */
module RoutePricing {
  import opened Basics
  import opened JsonValues
  import opened Catalog

  const MICRO: nat := 1_000_000

  /** Rounds micro-USD per million tokens up to whole micro-USD. */
  function CeilMicro(scaled: nat): nat {
    (scaled + 999_999) / MICRO
  }

  function ScaledCost(u: Usage, p: Prices): nat {
    u.input * p.input + u.output * p.output + u.cacheRead * p.cacheRead + u.cacheWrite * p.cacheWrite
  }

  /** `cost_for`: nothing is known without usage or without prices. */
  function CostFor(usage: Option<Usage>, prices: Option<Prices>): Option<nat> {
    if usage.None? || prices.None? then None
    else Some(CeilMicro(ScaledCost(usage.value, prices.value)))
  }

  function Max(a: nat, b: nat): nat {
    if a < b then b else a
  }

  /** The dearest way to bill one input token. */
  function InputRate(p: Prices): nat {
    Max(p.input, Max(p.cacheRead, p.cacheWrite))
  }

  function ReserveFor(inputBound: nat, output: nat, p: Prices): nat {
    CeilMicro(inputBound * InputRate(p) + output * p.output)
  }

  /** The usage an upstream that honours both token bounds can report. */
  predicate Within(u: Usage, inputBound: nat, output: nat) {
    u.input + u.cacheRead + u.cacheWrite <= inputBound && u.output <= output
  }

  lemma MulMonotone(a: nat, b: nat, c: nat, d: nat)
    requires a <= b && c <= d
    ensures a * c <= b * d
  {
    assert b * d == a * c + a * (d - c) + (b - a) * d;
  }

  lemma CeilMonotone(a: nat, b: nat)
    requires a <= b
    ensures CeilMicro(a) <= CeilMicro(b)
  {
  }

  /** Reservation soundness: usage within the bounds never costs more than was reserved. */
  lemma CostWithinReserve(u: Usage, inputBound: nat, output: nat, p: Prices)
    requires Within(u, inputBound, output)
    ensures CeilMicro(ScaledCost(u, p)) <= ReserveFor(inputBound, output, p)
  {
    var rate := InputRate(p);
    MulMonotone(u.input, u.input, p.input, rate);
    MulMonotone(u.cacheRead, u.cacheRead, p.cacheRead, rate);
    MulMonotone(u.cacheWrite, u.cacheWrite, p.cacheWrite, rate);
    var tokens := u.input + u.cacheRead + u.cacheWrite;
    assert u.input * rate + u.cacheRead * rate + u.cacheWrite * rate == tokens * rate;
    MulMonotone(tokens, inputBound, rate, rate);
    MulMonotone(u.output, output, p.output, p.output);
    CeilMonotone(ScaledCost(u, p), inputBound * rate + output * p.output);
  }

  /** The reservation is no larger than it must be: some usage within the bounds costs exactly that. */
  lemma ReserveIsReached(inputBound: nat, output: nat, p: Prices)
    ensures exists u: Usage ::
      Within(u, inputBound, output) && CeilMicro(ScaledCost(u, p)) == ReserveFor(inputBound, output, p)
  {
    var u :=
      if InputRate(p) == p.input then Usage(inputBound, output, 0, 0)
      else if InputRate(p) == p.cacheRead then Usage(0, output, inputBound, 0)
      else Usage(0, output, 0, inputBound);
    assert Within(u, inputBound, output);
    assert ScaledCost(u, p) == inputBound * InputRate(p) + output * p.output;
  }

  // ------------------------------------------------------------ preparing a request

  const EXTERNAL_TYPES :=
    {"image_url", "input_image", "input_audio", "audio", "image", "document", "file", "input_file",
    "computer", "web_search", "web_search_preview", "file_search", "code_interpreter"}

  datatype Check = Pass | Refuse | Crash

  /** Attachments and hosted services have no known price. A list or object as `type` cannot be looked up and raises.
      Values are looked at in turn until one decides. The keys of an object have no order here: of an attachment under
      one key and a value that raises under another, the attachment decides. */
  function Content(body: Json): Check {
    match body
    case Obj(fields) =>
      if "type" in fields && (fields["type"].Arr? || fields["type"].Obj?) then Crash
      else if "type" in fields && fields["type"].Str? && fields["type"].s in EXTERNAL_TYPES then Refuse
      else if "source" in fields && fields["source"].Obj? then Refuse
      else if exists k | k in fields :: Content(fields[k]).Refuse? then Refuse
      else if exists k | k in fields :: Content(fields[k]).Crash? then Crash
      else Pass
    case Arr(items) => ContentItems(items)
    case _ => Pass
  }

  function ContentItems(items: seq<Json>): Check {
    if items == [] then Pass
    else if Content(items[0]) != Pass then Content(items[0])
    else ContentItems(items[1..])
  }

  /** The value is the body or sits somewhere inside it. */
  ghost predicate Occurs(v: Json, body: Json) {
    || v == body
    || (body.Obj? && exists k | k in body.fields :: Occurs(v, body.fields[k]))
    || (body.Arr? && exists i | 0 <= i < |body.items| :: Occurs(v, body.items[i]))
  }

  predicate Attachment(v: Json) {
    && v.Obj?
    && (|| ("type" in v.fields && v.fields["type"].Str? && v.fields["type"].s in EXTERNAL_TYPES)
        || ("source" in v.fields && v.fields["source"].Obj?))
  }

  predicate Unhashable(v: Json) {
    v.Obj? && "type" in v.fields && (v.fields["type"].Arr? || v.fields["type"].Obj?)
  }

  ghost predicate Clean(body: Json) {
    forall v | Occurs(v, body) :: !Attachment(v) && !Unhashable(v)
  }

  lemma CleanObject(fields: Dict)
    ensures Clean(Obj(fields)) <==>
      !Attachment(Obj(fields)) && !Unhashable(Obj(fields)) && forall k | k in fields :: Clean(fields[k])
  {
    assert Occurs(Obj(fields), Obj(fields));
    forall k, v | k in fields && Occurs(v, fields[k]) ensures Occurs(v, Obj(fields)) {
    }
  }

  lemma CleanArray(items: seq<Json>)
    ensures Clean(Arr(items)) <==> forall i | 0 <= i < |items| :: Clean(items[i])
  {
    forall i, v | 0 <= i < |items| && Occurs(v, items[i]) ensures Occurs(v, Arr(items)) {
    }
  }

  /** Nothing stands in the way of a price if and only if no value anywhere in the body is an attachment or has a type
      that cannot be looked up. */
  lemma {:induction false} ContentPassesExactly(body: Json)
    ensures Content(body) == Pass <==> Clean(body)
  {
    match body
    case Obj(fields) =>
      CleanObject(fields);
      forall k | k in fields ensures Content(fields[k]) == Pass <==> Clean(fields[k]) {
        ContentPassesExactly(fields[k]);
      }
    case Arr(items) =>
      CleanArray(items);
      ItemsPassExactly(items);
    case _ =>
  }

  lemma {:induction false} ItemsPassExactly(items: seq<Json>)
    ensures ContentItems(items) == Pass <==> forall i | 0 <= i < |items| :: Clean(items[i])
  {
    if items != [] {
      ContentPassesExactly(items[0]);
      ItemsPassExactly(items[1..]);
      assert forall i | 0 < i < |items| :: items[i] == items[1..][i - 1];
    }
  }

  /** An attachment refuses, a type that cannot be looked up raises; one of them is there if neither passes. */
  lemma {:induction false} ContentReasons(body: Json)
    ensures Content(body).Refuse? ==> exists v :: Occurs(v, body) && Attachment(v)
    ensures Content(body).Crash? ==> exists v :: Occurs(v, body) && Unhashable(v)
  {
    match body
    case Obj(fields) =>
      assert Occurs(body, body);
      if k :| k in fields && Content(fields[k]) == Content(body) && Content(body) != Pass {
        ContentReasons(fields[k]);
        forall v | Occurs(v, fields[k]) ensures Occurs(v, body) {
        }
      }
    case Arr(items) => ItemsReasons(items);
    case _ =>
  }

  lemma {:induction false} ItemsReasons(items: seq<Json>)
    ensures ContentItems(items).Refuse? ==> exists i, v :: 0 <= i < |items| && Occurs(v, items[i]) && Attachment(v)
    ensures ContentItems(items).Crash? ==> exists i, v :: 0 <= i < |items| && Occurs(v, items[i]) && Unhashable(v)
  {
    if items != [] {
      ContentReasons(items[0]);
      ItemsReasons(items[1..]);
      assert forall i | 0 < i < |items| :: items[i] == items[1..][i - 1];
    }
  }

  const UNBOUNDED_KEYS := {"previous_response_id", "conversation", "background", "audio", "prediction"}

  predicate UnboundedContext(body: Dict) {
    exists k | k in UNBOUNDED_KEYS :: Truthy(Get(body, k, Null))
  }

  predicate PricedToolType(v: Json) {
    v == Str("function") || v == Str("custom")
  }

  /** Python iterates the tools in order; an item that is no object raises. */
  function CheckItems(items: seq<Json>): Check {
    if items == [] then Pass
    else if !items[0].Obj? then Crash
    else if !PricedToolType(Get(items[0].fields, "type", Str("function"))) then Refuse
    else CheckItems(items[1..])
  }

  function CheckTools(tools: Json): Check {
    match tools
    case Arr(items) => CheckItems(items)
    case Str(s) => if s == "" then Pass else Crash
    case Obj(fields) => if fields == map[] then Pass else Crash
    case _ => Crash
  }

  datatype Prepared = Sent(body: Dict, reserve: nat) | Refused(status: nat) | Crashed

  function OutputKey(protocol: Protocol): string {
    match protocol
    case Chat => "max_completion_tokens"
    case Responses => "max_output_tokens"
    case Messages => "max_tokens"
  }

  /** The first reason, in source order, why a paid request has no price. */
  function PaidRefusal(body: Dict, route: Route): Option<Prepared> {
    if route.prices.None? || route.priceVersion == "" || route.priceEvidence == "" then Some(Refused(402))
    else if UnboundedContext(body) || Content(Obj(body)).Refuse? then Some(Refused(402))
    else if Content(Obj(body)).Crash? then Some(Crashed)
    else if Get(body, "service_tier", Str("default")) !in {Null, Str("auto"), Str("default")} then Some(Refused(402))
    else match CheckTools(Get(body, "tools", Arr([])))
      case Pass => None
      case Refuse => Some(Refused(402))
      case Crash => Some(Crashed)
  }

  function Requested(body: Dict, protocol: Protocol, model: Model): Json {
    Get(body, OutputKey(protocol), Get(body, "max_tokens", Int(model.outputLimit)))
  }

  function Clamp(requested: int, model: Model): nat
    requires 1 <= requested
  {
    if requested <= model.outputLimit then requested else model.outputLimit
  }

  function ProofFor(route: Route, binding: Binding): Proof {
    if route.Canonical() in binding.verifiedInputLimits then binding.verifiedInputLimits[route.Canonical()]
    else Proof(Null, "")
  }

  predicate Verified(proof: Proof) {
    IntFrom(proof.tokens, 1) && proof.evidence != ""
  }

  /** The upstream context bound a paid reservation is computed from. */
  function InputBound(model: Model, route: Route, binding: Binding): nat
    requires Verified(ProofFor(route, binding))
  {
    Max(model.inputLimit, ProofFor(route, binding).tokens.i)
  }

  /** The priced baseline tier replaces an automatic one. */
  function Tiered(body: Dict): Dict {
    if "service_tier" in body then body["service_tier" := Str("default")] else body
  }

  /** The body with its output bound; chat loses the legacy key of that bound. */
  function Bounded(body: Dict, protocol: Protocol, output: nat): Dict {
    var bounded := body[OutputKey(protocol) := Int(output)];
    if protocol.Chat? then bounded - {"max_tokens"} else bounded
  }

  predicate Streams(body: Dict, protocol: Protocol) {
    protocol.Chat? && Truthy(Get(body, "stream", Null))
  }

  /** Streaming chat must report its usage. */
  function AskedForUsage(body: Dict): Dict
    requires Get(body, "stream_options", Obj(map[])).Obj?
  {
    body["stream_options" := Obj(Get(body, "stream_options", Obj(map[])).fields["include_usage" := Bool(true)])]
  }

  predicate SingleOutput(body: Dict) {
    Get(body, "n", Int(1)) == Int(1) && EqualsOne(Get(body, "best_of", Int(1)))
  }

  /** `prepare`, branch by branch. */
  function PrepareOf(body: Dict, protocol: Protocol, model: Model, route: Route, binding: Binding): Prepared {
    var named := body["model" := Str(route.upstreamModel)];
    if route.paid && PaidRefusal(named, route).Some? then PaidRefusal(named, route).value
    else BoundOutput(if route.paid then Tiered(named) else named, protocol, model, route, binding)
  }

  function BoundOutput(body: Dict, protocol: Protocol, model: Model, route: Route, binding: Binding): Prepared
    requires route.paid ==> route.prices.Some?
  {
    if !IntFrom(Requested(body, protocol, model), 1) then Refused(400)
    else
      var output := Clamp(Requested(body, protocol, model).i, model);
      var bounded := Bounded(body, protocol, output);
      if Streams(bounded, protocol) && !Get(bounded, "stream_options", Obj(map[])).Obj? then Crashed
      else
        var sent := if Streams(bounded, protocol) then AskedForUsage(bounded) else bounded;
        if !SingleOutput(sent) then Refused(400)
        else if route.paid && !Verified(ProofFor(route, binding)) then Refused(402)
        else Sent(sent,
                  if route.paid then ReserveFor(InputBound(model, route, binding), output, route.prices.value) else 0)
  }

  /** The paid checks of `prepare`, in order; the service tier is pinned between the last two. */
  method CheckPaid(named: Dict, route: Route) returns (body: Dict, refusal: Option<Prepared>)
    ensures refusal == PaidRefusal(named, route)
    ensures refusal.None? ==> body == Tiered(named)
  {
    body := named;
    if route.prices.None? || route.priceVersion == "" || route.priceEvidence == "" {
      return body, Some(Refused(402));
    }
    if UnboundedContext(body) {
      return body, Some(Refused(402));
    }
    var content := Content(Obj(body));
    if content != Pass {
      return body, Some(if content == Refuse then Refused(402) else Crashed);
    }
    if Get(body, "service_tier", Str("default")) !in {Null, Str("auto"), Str("default")} {
      return body, Some(Refused(402));
    }
    var tools := CheckTools(Get(body, "tools", Arr([])));
    if "service_tier" in body {
      body := body["service_tier" := Str("default")];
    }
    refusal := if tools == Pass then None else Some(if tools == Refuse then Refused(402) else Crashed);
  }

  // ------------------------------------------------------------ what a caller can tell before preparing

  /** The request asks for `n` output tokens, under its protocol's key or else the legacy one; without either it asks
      for all the model can give. */
  predicate AsksFor(body: Dict, protocol: Protocol, model: Model, n: int) {
    if protocol.Chat? && "max_completion_tokens" in body then body["max_completion_tokens"] == Int(n)
    else if protocol.Responses? && "max_output_tokens" in body then body["max_output_tokens"] == Int(n)
    else if "max_tokens" in body then body["max_tokens"] == Int(n)
    else n == model.outputLimit
  }

  ghost predicate AsksEnough(body: Dict, protocol: Protocol, model: Model) {
    exists n | AsksFor(body, protocol, model, n) :: n >= 1
  }

  predicate IsPriced(route: Route) {
    route.prices.Some? && route.priceVersion != "" && route.priceEvidence != ""
  }

  predicate IsBounded(body: Dict) {
    && ("previous_response_id" in body ==> !Truthy(body["previous_response_id"]))
    && ("conversation" in body ==> !Truthy(body["conversation"]))
    && ("background" in body ==> !Truthy(body["background"]))
    && ("audio" in body ==> !Truthy(body["audio"]))
    && ("prediction" in body ==> !Truthy(body["prediction"]))
  }

  predicate HasStandardTier(body: Dict) {
    "service_tier" in body ==>
      body["service_tier"] == Null || body["service_tier"] == Str("auto") || body["service_tier"] == Str("default")
  }

  predicate IsPlainTool(tool: Json) {
    && tool.Obj?
    && ("type" in tool.fields ==> tool.fields["type"] == Str("function") || tool.fields["type"] == Str("custom"))
  }

  /** All tools are functions or custom; an empty text or object counts as no tools. */
  predicate HasPlainTools(body: Dict) {
    "tools" in body ==>
      || body["tools"] == Str("") || body["tools"] == Obj(map[])
      || (body["tools"].Arr? && forall i | 0 <= i < |body["tools"].items| :: IsPlainTool(body["tools"].items[i]))
  }

  /** A tool of another type comes before anything that is no tool at all. */
  predicate HasHostedTool(body: Dict) {
    && "tools" in body && body["tools"].Arr?
    && exists i | 0 <= i < |body["tools"].items| ::
         && body["tools"].items[i].Obj? && !IsPlainTool(body["tools"].items[i])
         && forall j | 0 <= j < i :: IsPlainTool(body["tools"].items[j])
  }

  predicate HasProof(route: Route, binding: Binding) {
    var canonical := if route.canonicalModel.Some? then route.canonicalModel.value else route.upstreamModel;
    && canonical in binding.verifiedInputLimits
    && binding.verifiedInputLimits[canonical].tokens.Int? && binding.verifiedInputLimits[canonical].tokens.i > 0
    && binding.verifiedInputLimits[canonical].evidence != ""
  }

  predicate AsksForOne(body: Dict) {
    && ("n" in body ==> body["n"] == Int(1))
    && ("best_of" in body ==>
          body["best_of"] == Int(1) || body["best_of"] == Bool(true) || body["best_of"] == Real(1.0))
  }

  predicate IsStreamed(body: Dict, protocol: Protocol) {
    protocol.Chat? && "stream" in body && Truthy(body["stream"])
  }

  predicate StreamsWell(body: Dict, protocol: Protocol) {
    IsStreamed(body, protocol) && "stream_options" in body ==> body["stream_options"].Obj?
  }

  /** The model named in the body is the upstream's. */
  function Addressed(body: Dict, route: Route): Json {
    Obj(body["model" := Str(route.upstreamModel)])
  }

  ghost predicate PaidIsClear(body: Dict, route: Route) {
    route.paid ==>
      && IsPriced(route) && IsBounded(body) && Clean(Addressed(body, route)) && HasStandardTier(body)
      && HasPlainTools(body)
  }

  /** A request may be sent. */
  ghost predicate MaySend(body: Dict, protocol: Protocol, model: Model, route: Route, binding: Binding) {
    && PaidIsClear(body, route) && (route.paid ==> HasProof(route, binding))
    && AsksEnough(body, protocol, model) && StreamsWell(body, protocol) && AsksForOne(body)
  }

  /** Its price is refused: 402 in the source. */
  ghost predicate PriceIsRefused(body: Dict, protocol: Protocol, model: Model, route: Route, binding: Binding) {
    && route.paid
    && (|| !IsPriced(route) || !IsBounded(body) || Content(Addressed(body, route)).Refuse?
        || (Clean(Addressed(body, route)) && !HasStandardTier(body))
        || (Clean(Addressed(body, route)) && HasStandardTier(body) && HasHostedTool(body))
        || (&& PaidIsClear(body, route) && AsksEnough(body, protocol, model) && StreamsWell(body, protocol)
            && AsksForOne(body) && !HasProof(route, binding)))
  }

  /** Its bounds are refused: 400 in the source. */
  ghost predicate BoundIsRefused(body: Dict, protocol: Protocol, model: Model, route: Route) {
    && PaidIsClear(body, route)
    && (!AsksEnough(body, protocol, model) || (StreamsWell(body, protocol) && !AsksForOne(body)))
  }

  /** What is sent, key by key. */
  ghost predicate Carries(sent: Dict, body: Dict, protocol: Protocol, model: Model, route: Route, n: int) {
    var limit := if n <= model.outputLimit then n else model.outputLimit;
    && (forall k | k !in {"model", "service_tier", "max_tokens", "max_completion_tokens", "max_output_tokens",
                          "stream_options"} :: (k in sent <==> k in body) && (k in body ==> sent[k] == body[k]))
    && "model" in sent && sent["model"] == Str(route.upstreamModel)
    && ("service_tier" in sent <==> "service_tier" in body)
    && ("service_tier" in body ==> sent["service_tier"] == if route.paid then Str("default") else body["service_tier"])
    && CarriesBound(sent, body, "max_completion_tokens", if protocol.Chat? then Some(limit) else None)
    && CarriesBound(sent, body, "max_output_tokens", if protocol.Responses? then Some(limit) else None)
    && (if protocol.Chat? then "max_tokens" !in sent
        else CarriesBound(sent, body, "max_tokens", if protocol.Messages? then Some(limit) else None))
    && (if IsStreamed(body, protocol) then CarriesUsage(sent, body)
        else ("stream_options" in sent <==> "stream_options" in body)
             && ("stream_options" in body ==> sent["stream_options"] == body["stream_options"]))
  }

  predicate CarriesBound(sent: Dict, body: Dict, key: string, limit: Option<int>) {
    if limit.Some? then key in sent && sent[key] == Int(limit.value)
    else (key in sent <==> key in body) && (key in body ==> sent[key] == body[key])
  }

  /** A streamed chat asks for its usage, beside the options it has. */
  ghost predicate CarriesUsage(sent: Dict, body: Dict) {
    && "stream_options" in sent && sent["stream_options"].Obj?
    && var options := sent["stream_options"].fields;
       && "include_usage" in options && options["include_usage"] == Bool(true)
       && forall k | k != "include_usage" ::
            if "stream_options" in body && body["stream_options"].Obj? && k in body["stream_options"].fields
            then k in options && options[k] == body["stream_options"].fields[k]
            else k !in options
  }

  /** The reservation: the larger of the model's limit and the verified one at the dearest input price, and the output
      bound at its own, in whole micro-USD rounded up. */
  predicate Reserves(reserve: nat, model: Model, route: Route, binding: Binding, n: int)
    requires HasProof(route, binding) && route.prices.Some? && n >= 1
  {
    var canonical := if route.canonicalModel.Some? then route.canonicalModel.value else route.upstreamModel;
    var verified := binding.verifiedInputLimits[canonical].tokens.i;
    var input := if verified > model.inputLimit then verified else model.inputLimit;
    var output := if n <= model.outputLimit then n else model.outputLimit;
    var p := route.prices.value;
    && (forall rate | rate in {p.input, p.cacheRead, p.cacheWrite} ::
          reserve >= (input * rate + output * p.output + 999_999) / 1_000_000)
    && (exists rate | rate in {p.input, p.cacheRead, p.cacheWrite} ::
          reserve == (input * rate + output * p.output + 999_999) / 1_000_000)
  }

  predicate HostedAt(items: seq<Json>, i: int) {
    0 <= i < |items| && items[i].Obj? && !IsPlainTool(items[i]) && forall j | 0 <= j < i :: IsPlainTool(items[j])
  }

  lemma {:induction false} ItemsMean(items: seq<Json>)
    ensures CheckItems(items) == Pass <==> forall i | 0 <= i < |items| :: IsPlainTool(items[i])
    ensures CheckItems(items) == Refuse <==>
      exists i | 0 <= i < |items| ::
        items[i].Obj? && !IsPlainTool(items[i]) && forall j | 0 <= j < i :: IsPlainTool(items[j])
  {
    if items != [] {
      var rest := items[1..];
      ItemsMean(rest);
      assert forall i | 0 < i < |items| :: items[i] == rest[i - 1];
      if IsPlainTool(items[0]) {
        if i :| HostedAt(rest, i) {
          assert items[i + 1].Obj? && !IsPlainTool(items[i + 1]);
          assert forall j | 0 <= j < i + 1 :: IsPlainTool(items[j]);
        }
        if i :| HostedAt(items, i) {
          assert rest[i - 1].Obj? && !IsPlainTool(rest[i - 1]);
          assert forall j | 0 <= j < i - 1 :: IsPlainTool(rest[j]);
        }
      }
    }
  }

  lemma ToolsMean(body: Dict)
    ensures CheckTools(Get(body, "tools", Arr([]))) == Pass <==> HasPlainTools(body)
    ensures CheckTools(Get(body, "tools", Arr([]))) == Refuse <==> HasHostedTool(body)
  {
    ItemsMean([]);
    if "tools" in body && body["tools"].Arr? {
      ItemsMean(body["tools"].items);
    }
  }

  lemma UnboundedMeans(body: Dict)
    ensures UnboundedContext(body) <==> !IsBounded(body)
  {
    assert forall k | k in ["previous_response_id", "conversation", "background", "audio", "prediction"] ::
      k in UNBOUNDED_KEYS;
  }

  lemma PaidMeans(body: Dict, route: Route)
    requires route.paid
    ensures
      var refusal := PaidRefusal(body["model" := Str(route.upstreamModel)], route);
      && (refusal.None? <==> PaidIsClear(body, route))
      && (refusal == Some(Refused(402)) <==>
            || !IsPriced(route) || !IsBounded(body) || Content(Addressed(body, route)).Refuse?
            || (Clean(Addressed(body, route)) && !HasStandardTier(body))
            || (Clean(Addressed(body, route)) && HasStandardTier(body) && HasHostedTool(body)))
      && (refusal.Some? ==> refusal.value in {Refused(402), Crashed})
  {
    var named := body["model" := Str(route.upstreamModel)];
    UnboundedMeans(named);
    ToolsMean(named);
    ContentPassesExactly(Obj(named));
    assert IsBounded(named) <==> IsBounded(body);
    assert HasPlainTools(named) <==> HasPlainTools(body);
    assert HasHostedTool(named) <==> HasHostedTool(body);
  }

  /** What is asked for is read before anything but the model and the tier is edited. */
  lemma RequestedMeans(body: Dict, protocol: Protocol, model: Model, n: int)
    ensures Requested(body, protocol, model) == Int(n) <==> AsksFor(body, protocol, model, n)
  {
  }

  lemma AskedMeans(body: Dict, protocol: Protocol, model: Model)
    ensures IntFrom(Requested(body, protocol, model), 1) <==> AsksEnough(body, protocol, model)
    ensures IntFrom(Requested(body, protocol, model), 1) ==>
      AsksFor(body, protocol, model, Requested(body, protocol, model).i)
  {
    if IntFrom(Requested(body, protocol, model), 1) {
      RequestedMeans(body, protocol, model, Requested(body, protocol, model).i);
    }
    forall n | AsksFor(body, protocol, model, n) ensures Requested(body, protocol, model) == Int(n) {
      RequestedMeans(body, protocol, model, n);
    }
  }

  lemma SameAsking(body: Dict, edited: Dict, protocol: Protocol, model: Model)
    requires forall k | k !in {"model", "service_tier"} ::
      (k in edited <==> k in body) && (k in body ==> edited[k] == body[k])
    ensures Requested(edited, protocol, model) == Requested(body, protocol, model)
    ensures AsksForOne(edited) <==> AsksForOne(body)
    ensures StreamsWell(edited, protocol) <==> StreamsWell(body, protocol)
    ensures IsStreamed(edited, protocol) <==> IsStreamed(body, protocol)
  {
  }

  /** How the part of `prepare` after the paid checks ends. */
  lemma BoundsMean(body: Dict, protocol: Protocol, model: Model, route: Route, binding: Binding)
    requires route.paid ==> route.prices.Some?
    ensures
      var out := BoundOutput(body, protocol, model, route, binding);
      var asks, streams, one := AsksEnough(body, protocol, model), StreamsWell(body, protocol), AsksForOne(body);
      && (out == Refused(400) <==> !asks || (streams && !one))
      && (out == Crashed <==> asks && !streams)
      && (out == Refused(402) <==> asks && streams && one && route.paid && !HasProof(route, binding))
      && (out.Refused? ==> out.status in {400, 402})
  {
    AskedMeans(body, protocol, model);
    if IntFrom(Requested(body, protocol, model), 1) {
      var output := Clamp(Requested(body, protocol, model).i, model);
      BoundedMeans(body, protocol, output);
    }
  }

  /** The output bound touches neither the stream nor the number of outputs. */
  lemma BoundedMeans(body: Dict, protocol: Protocol, output: nat)
    ensures
      var bounded := Bounded(body, protocol, output);
      && (Streams(bounded, protocol) <==> IsStreamed(body, protocol))
      && (StreamsWell(body, protocol) <==>
            !Streams(bounded, protocol) || Get(bounded, "stream_options", Obj(map[])).Obj?)
      && (SingleOutput(bounded) <==> AsksForOne(body))
      && (Get(bounded, "stream_options", Obj(map[])).Obj? ==>
            (SingleOutput(AskedForUsage(bounded)) <==> AsksForOne(body)))
  {
  }

  /** When a request is sent, and with which status it is refused, told from its body, its route and the binding. */
  lemma PreparesExactly(body: Dict, protocol: Protocol, model: Model, route: Route, binding: Binding)
    ensures
      var out := PrepareOf(body, protocol, model, route, binding);
      && (out.Sent? <==> MaySend(body, protocol, model, route, binding))
      && (out == Refused(402) <==> PriceIsRefused(body, protocol, model, route, binding))
      && (out == Refused(400) <==> BoundIsRefused(body, protocol, model, route))
      && (out.Refused? ==> out.status in {400, 402})
  {
    var named := body["model" := Str(route.upstreamModel)];
    if route.paid {
      PaidMeans(body, route);
    }
    if !route.paid || PaidRefusal(named, route).None? {
      var edited := if route.paid then Tiered(named) else named;
      SameAsking(body, edited, protocol, model);
      AskedMeans(body, protocol, model);
      AskedMeans(edited, protocol, model);
      BoundsMean(edited, protocol, model, route, binding);
    }
  }

  /** What is sent and reserved, told from the number asked for. */
  lemma SentExactly(body: Dict, protocol: Protocol, model: Model, route: Route, binding: Binding, n: int)
    requires PrepareOf(body, protocol, model, route, binding).Sent? && AsksFor(body, protocol, model, n)
    ensures n >= 1 && (route.paid ==> HasProof(route, binding) && route.prices.Some?)
    ensures
      var sent := PrepareOf(body, protocol, model, route, binding);
      && Carries(sent.body, body, protocol, model, route, n)
      && if route.paid then Reserves(sent.reserve, model, route, binding, n) else sent.reserve == 0
  {
    PreparesExactly(body, protocol, model, route, binding);
    SentIs(body, protocol, model, route, binding, n);
    BoundIsCarried(body, protocol, model, route, n);
    if route.paid {
      ReserveMeans(model, route, binding, n);
    }
  }

  function Edited(body: Dict, route: Route): Dict {
    var named := body["model" := Str(route.upstreamModel)];
    if route.paid then Tiered(named) else named
  }

  function Outgoing(body: Dict, protocol: Protocol, output: nat): Dict
    requires IsStreamed(body, protocol) ==> Get(body, "stream_options", Obj(map[])).Obj?
  {
    var bounded := Bounded(body, protocol, output);
    if Streams(bounded, protocol) then AskedForUsage(bounded) else bounded
  }

  lemma SentIs(body: Dict, protocol: Protocol, model: Model, route: Route, binding: Binding, n: int)
    requires PrepareOf(body, protocol, model, route, binding).Sent? && AsksFor(body, protocol, model, n) && n >= 1
    requires StreamsWell(body, protocol)
    ensures route.paid ==> Verified(ProofFor(route, binding)) && route.prices.Some?
    ensures PrepareOf(body, protocol, model, route, binding) ==
      Sent(Outgoing(Edited(body, route), protocol, Clamp(n, model)),
           if route.paid then ReserveFor(InputBound(model, route, binding), Clamp(n, model), route.prices.value) else 0)
  {
    SameAsking(body, Edited(body, route), protocol, model);
    RequestedMeans(body, protocol, model, n);
  }

  lemma RateFits(input: nat, output: nat, p: Prices, rate: nat)
    requires rate <= InputRate(p)
    ensures ReserveFor(input, output, p) >= (input * rate + output * p.output + 999_999) / 1_000_000
  {
    MulMonotone(input, input, rate, InputRate(p));
    CeilMonotone(input * rate + output * p.output, input * InputRate(p) + output * p.output);
  }

  lemma DearestRate(p: Prices)
    ensures p.input <= InputRate(p) && p.cacheRead <= InputRate(p) && p.cacheWrite <= InputRate(p)
    ensures InputRate(p) in {p.input, p.cacheRead, p.cacheWrite}
  {
  }

  lemma ReserveMeans(model: Model, route: Route, binding: Binding, n: int)
    requires HasProof(route, binding) && route.prices.Some? && n >= 1
    ensures Verified(ProofFor(route, binding))
    ensures Reserves(ReserveFor(InputBound(model, route, binding), Clamp(n, model), route.prices.value), model, route,
                     binding, n)
  {
    var p, input, output := route.prices.value, InputBound(model, route, binding), Clamp(n, model);
    DearestRate(p);
    RateFits(input, output, p, p.input);
    RateFits(input, output, p, p.cacheRead);
    RateFits(input, output, p, p.cacheWrite);
  }

  lemma EditedKeys(body: Dict, route: Route)
    ensures
      var edited := Edited(body, route);
      && (forall k | k !in {"model", "service_tier"} ::
            (k in edited <==> k in body) && (k in body ==> edited[k] == body[k]))
      && "model" in edited && edited["model"] == Str(route.upstreamModel)
      && ("service_tier" in edited <==> "service_tier" in body)
      && ("service_tier" in body ==>
            edited["service_tier"] == if route.paid then Str("default") else body["service_tier"])
  {
  }

  lemma BoundedKeys(body: Dict, protocol: Protocol, output: nat)
    ensures
      var bounded := Bounded(body, protocol, output);
      && (forall k | k !in {"max_tokens", "max_completion_tokens", "max_output_tokens"} ::
            (k in bounded <==> k in body) && (k in body ==> bounded[k] == body[k]))
      && CarriesBound(bounded, body, "max_completion_tokens", if protocol.Chat? then Some(output) else None)
      && CarriesBound(bounded, body, "max_output_tokens", if protocol.Responses? then Some(output) else None)
      && (if protocol.Chat? then "max_tokens" !in bounded
          else CarriesBound(bounded, body, "max_tokens", if protocol.Messages? then Some(output) else None))
  {
  }

  lemma AskedKeys(body: Dict)
    requires Get(body, "stream_options", Obj(map[])).Obj?
    ensures
      var asked := AskedForUsage(body);
      && (forall k | k != "stream_options" :: (k in asked <==> k in body) && (k in body ==> asked[k] == body[k]))
      && CarriesUsage(asked, body)
  {
  }

  lemma BoundIsCarried(body: Dict, protocol: Protocol, model: Model, route: Route, n: int)
    requires n >= 1 && StreamsWell(body, protocol)
    ensures IsStreamed(Edited(body, route), protocol) ==>
      Get(Edited(body, route), "stream_options", Obj(map[])).Obj?
    ensures Carries(Outgoing(Edited(body, route), protocol, Clamp(n, model)), body, protocol, model, route, n)
  {
    var edited := Edited(body, route);
    var bounded := Bounded(edited, protocol, Clamp(n, model));
    EditedKeys(body, route);
    BoundedKeys(edited, protocol, Clamp(n, model));
    if Streams(bounded, protocol) {
      AskedKeys(bounded);
    }
    KeysCarry(body, edited, bounded, Outgoing(edited, protocol, Clamp(n, model)), protocol, model, route, n);
  }

  /** Three edits, each touching only its own keys. */
  lemma KeysCarry(body: Dict, edited: Dict, bounded: Dict, sent: Dict, protocol: Protocol, model: Model, route: Route,
                  n: int)
    requires forall k | k !in {"model", "service_tier"} ::
      (k in edited <==> k in body) && (k in body ==> edited[k] == body[k])
    requires "model" in edited && edited["model"] == Str(route.upstreamModel)
    requires "service_tier" in edited <==> "service_tier" in body
    requires "service_tier" in body ==>
      edited["service_tier"] == if route.paid then Str("default") else body["service_tier"]
    requires forall k | k !in {"max_tokens", "max_completion_tokens", "max_output_tokens"} ::
      (k in bounded <==> k in edited) && (k in edited ==> bounded[k] == edited[k])
    requires
      var limit := if n <= model.outputLimit then n else model.outputLimit;
      && CarriesBound(bounded, edited, "max_completion_tokens", if protocol.Chat? then Some(limit) else None)
      && CarriesBound(bounded, edited, "max_output_tokens", if protocol.Responses? then Some(limit) else None)
      && (if protocol.Chat? then "max_tokens" !in bounded
          else CarriesBound(bounded, edited, "max_tokens", if protocol.Messages? then Some(limit) else None))
    requires forall k | k != "stream_options" ::
      (k in sent <==> k in bounded) && (k in bounded ==> sent[k] == bounded[k])
    requires if IsStreamed(body, protocol) then CarriesUsage(sent, bounded) else sent == bounded
    ensures Carries(sent, body, protocol, model, route, n)
  {
    assert "stream_options" in bounded <==> "stream_options" in body;
    assert "stream_options" in body ==> bounded["stream_options"] == body["stream_options"];
    if IsStreamed(body, protocol) {
      assert CarriesUsage(sent, body);
    }
  }

  /** Everything a caller can tell of a prepared request from the request itself, its route and its binding. */
  ghost predicate AsTold(out: Prepared, body: Dict, protocol: Protocol, model: Model, route: Route, binding: Binding) {
    && (out.Sent? <==> MaySend(body, protocol, model, route, binding))
    && (out == Refused(402) <==> PriceIsRefused(body, protocol, model, route, binding))
    && (out == Refused(400) <==> BoundIsRefused(body, protocol, model, route))
    && (out.Refused? ==> out.status == 400 || out.status == 402)
    && (out.Sent? ==> forall n | AsksFor(body, protocol, model, n) ::
          SentAsTold(out.body, out.reserve, body, protocol, model, route, binding, n))
  }

  ghost predicate SentAsTold(sent: Dict, reserve: nat, body: Dict, protocol: Protocol, model: Model, route: Route,
                             binding: Binding, n: int)
  {
    && n >= 1 && Carries(sent, body, protocol, model, route, n)
    && if route.paid then
         HasProof(route, binding) && route.prices.Some? && Reserves(reserve, model, route, binding, n)
       else reserve == 0
  }

  lemma PreparedAsTold(body: Dict, protocol: Protocol, model: Model, route: Route, binding: Binding)
    ensures AsTold(PrepareOf(body, protocol, model, route, binding), body, protocol, model, route, binding)
  {
    PreparesExactly(body, protocol, model, route, binding);
    var out := PrepareOf(body, protocol, model, route, binding);
    forall n | out.Sent? && AsksFor(body, protocol, model, n)
      ensures SentAsTold(out.body, out.reserve, body, protocol, model, route, binding, n)
    {
      SentExactly(body, protocol, model, route, binding, n);
    }
  }

  /** The source's own order: a copied body edited step by step. */
  method Prepare(body: Dict, protocol: Protocol, model: Model, route: Route, binding: Binding) returns (out: Prepared)
    ensures out == PrepareOf(body, protocol, model, route, binding)
    ensures AsTold(out, body, protocol, model, route, binding)
  {
    PreparedAsTold(body, protocol, model, route, binding);
    var result := body["model" := Str(route.upstreamModel)];
    if route.paid {
      var refusal;
      result, refusal := CheckPaid(result, route);
      if refusal.Some? {
        return refusal.value;
      }
    }
    var requested := Requested(result, protocol, model);
    if !IntFrom(requested, 1) {
      return Refused(400);
    }
    var output := if requested.i <= model.outputLimit then requested.i else model.outputLimit;
    result := result[OutputKey(protocol) := Int(output)];
    if protocol.Chat? {
      result := result - {"max_tokens"};
      if Truthy(Get(result, "stream", Null)) {
        var options := Get(result, "stream_options", Obj(map[]));
        if !options.Obj? {
          return Crashed;
        }
        result := result["stream_options" := Obj(options.fields["include_usage" := Bool(true)])];
      }
    }
    if Get(result, "n", Int(1)) != Int(1) || !EqualsOne(Get(result, "best_of", Int(1))) {
      return Refused(400);
    }
    var reserve := 0;
    if route.paid {
      var proof := ProofFor(route, binding);
      if !Verified(proof) {
        return Refused(402);
      }
      reserve := ReserveFor(Max(model.inputLimit, proof.tokens.i), output, route.prices.value);
    }
    return Sent(result, reserve);
  }

  /** What a request that may be sent guarantees: an enforceable output bound upstream, a priced baseline
      tier, and a reservation that covers every usage within the verified context and that output bound. */
  lemma PreparedIsCovered(body: Dict, protocol: Protocol, model: Model, route: Route, binding: Binding, u: Usage)
    requires model.outputLimit > 0
    requires PrepareOf(body, protocol, model, route, binding).Sent?
    ensures
      var sent := PrepareOf(body, protocol, model, route, binding);
      && OutputKey(protocol) in sent.body
      && IntFrom(sent.body[OutputKey(protocol)], 1)
      && sent.body[OutputKey(protocol)].i <= model.outputLimit
      && (route.paid ==>
        && route.prices.Some?
        && Get(sent.body, "service_tier", Str("default")) == Str("default")
        && CheckTools(Get(sent.body, "tools", Arr([]))) == Pass
        && Verified(ProofFor(route, binding))
        && (Within(u, InputBound(model, route, binding), sent.body[OutputKey(protocol)].i) ==>
              CostFor(Some(u), route.prices).Some? && CostFor(Some(u), route.prices).value <= sent.reserve))
      && (!route.paid ==> sent.reserve == 0)
  {
    var sent := PrepareOf(body, protocol, model, route, binding);
    if route.paid {
      var output := sent.body[OutputKey(protocol)].i;
      assert CheckTools(Get(body["model" := Str(route.upstreamModel)], "tools", Arr([]))) == Pass;
      if Within(u, InputBound(model, route, binding), output) {
        CostWithinReserve(u, InputBound(model, route, binding), output, route.prices.value);
      }
    }
  }

  /** No paid request with an attachment anywhere in it is ever sent. */
  lemma PaidHasNoAttachment(body: Dict, protocol: Protocol, model: Model, route: Route, binding: Binding, v: Json)
    requires route.paid && PrepareOf(body, protocol, model, route, binding).Sent?
    requires Occurs(v, Obj(body["model" := Str(route.upstreamModel)]))
    ensures !Attachment(v) && !Unhashable(v)
  {
    ContentPassesExactly(Obj(body["model" := Str(route.upstreamModel)]));
  }

  /** Preparing edits only the fields named here; chat loses its legacy output key. */
  lemma PreparedKeepsTheRest(body: Dict, protocol: Protocol, model: Model, route: Route, binding: Binding, key: string)
    requires PrepareOf(body, protocol, model, route, binding).Sent?
    requires key !in {"model", "service_tier", "max_tokens", "stream_options", OutputKey(protocol)}
    ensures
      var sent := PrepareOf(body, protocol, model, route, binding).body;
      (key in sent <==> key in body) && (key in body ==> sent[key] == body[key])
  {
  }
}
