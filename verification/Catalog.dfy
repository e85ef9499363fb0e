/** The policy and the private runtime bindings, as far as routing reads them. */
module Catalog {
  import opened Basics
  import opened JsonValues

  datatype Protocol = Chat | Responses | Messages

  /** Prices are integer micro-USD per million tokens. */
  datatype Prices = Prices(input: nat, output: nat, cacheRead: nat, cacheWrite: nat)

  datatype Usage = Usage(input: nat, output: nat, cacheRead: nat, cacheWrite: nat)

  /** An absent price version or evidence is the empty string. */
  datatype Route = Route(
    accountId: string, upstreamModel: string, canonicalModel: Option<string>, paid: bool,
    prices: Option<Prices>, priceVersion: string, priceEvidence: string,
    allowedClients: Option<set<string>>)
  {
    function Canonical(): string {
      if canonicalModel.Some? then canonicalModel.value else upstreamModel
    }
  }

  datatype ModelStatus = Approved | Hidden | Denied

  /** Policy validation demands positive token limits of every model that routes. */
  datatype Model = Model(
    id: string, status: ModelStatus, capabilities: set<Protocol>,
    inputLimit: nat, outputLimit: nat, routes: seq<Route>)

  /** A verified upstream context bound; `tokens` is whatever the runtime file holds. */
  datatype Proof = Proof(tokens: Json, evidence: string)

  /** A quota observation whose fields all decoded; times are seconds. */
  datatype Quota = Unreadable | Quota(observedAt: real, resetAt: real, maxAge: real, remaining: real)

  /** The private binding of an account; an empty `authId` is an unbound account. */
  datatype Binding = Binding(
    authId: string, nativeSupported: Option<bool>, headersClients: Option<set<string>>,
    metered: bool, quota: Quota, verifiedInputLimits: map<string, Proof>)
}
