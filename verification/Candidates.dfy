/** Which routes may serve a request, and in what order they are tried. */
module Candidates {
  import opened Basics
  import opened JsonValues
  import opened Catalog
  import opened RoutePricing

  /** The row a session had before this request. */
  datatype Previous = Previous(model: Option<string>, account: Option<string>)

  /** Everything `candidates` reads, for an enrolled client and a selection inside its subset. */
  datatype Context = Context(
    clientId: string, clientModels: set<string>, models: map<string, Model>, enabled: set<string>,
    bindings: map<string, Binding>, previous: Option<Previous>, protocol: Protocol, now: real,
    cheapest: bool, body: Dict)

  // ------------------------------------------------------------ quota

  /** Ranks of a quota: known and usable, unknown, exhausted. */
  datatype QuotaRank = QuotaRank(rank: int, pressure: real, remaining: real)

  const UNKNOWN := QuotaRank(1, 0.0, 0.0)
  const EXHAUSTED := QuotaRank(3, 0.0, 0.0)

  function QuotaOrder(quota: Quota, now: real): QuotaRank {
    match quota
    case Unreadable => UNKNOWN
    case Quota(observedAt, resetAt, maxAge, remaining) =>
      if !(0.0 <= now - observedAt <= maxAge) || !(0.0 <= remaining <= 1.0) then UNKNOWN
      else if remaining == 0.0 && resetAt > now then EXHAUSTED
      else if resetAt <= now then UNKNOWN
      else
        var seconds := if resetAt - now < 1.0 then 1.0 else resetAt - now;
        QuotaRank(0, -(remaining / seconds), -remaining)
  }

  /** Exhausted means: freshly observed empty, with the reset still ahead. */
  lemma ExhaustedExactly(quota: Quota, now: real)
    ensures QuotaOrder(quota, now).rank == 3 <==>
      quota.Quota? && 0.0 <= now - quota.observedAt <= quota.maxAge && quota.remaining == 0.0 && quota.resetAt > now
  {
  }

  // ------------------------------------------------------------ eligibility

  predicate Bound(c: Context, mid: string) {
    c.previous.Some? && c.previous.value.model == Some(mid)
  }

  /** A hidden model serves only the session bound to it; a denied one serves nobody. */
  predicate ModelServes(c: Context, mid: string) {
    && mid in c.models && mid in c.clientModels && c.protocol in c.models[mid].capabilities
    && !c.models[mid].status.Denied?
    && (c.models[mid].status.Hidden? ==> Bound(c, mid))
  }

  predicate RouteServes(c: Context, route: Route) {
    && (route.allowedClients.Some? ==> c.clientId in route.allowedClients.value)
    && route.accountId in c.enabled && route.accountId in c.bindings
    && var binding := c.bindings[route.accountId];
       && binding.authId != "" && binding.nativeSupported != Some(false)
       && (binding.headersClients.Some? ==> c.clientId in binding.headersClients.value)
       && QuotaOrder(binding.quota, c.now).rank != 3
       && (route.paid && !binding.metered ==> QuotaOrder(binding.quota, c.now).rank != 1)
  }

  predicate Eligible(c: Context, mids: seq<string>, p: nat, r: nat) {
    && p < |mids| && ModelServes(c, mids[p])
    && r < |c.models[mids[p]].routes| && RouteServes(c, c.models[mids[p]].routes[r])
  }

  // ------------------------------------------------------------ order

  /** A price rank; `None` is infinity. */
  datatype Key = Key(sticky: int, paid: int, price: Option<nat>, position: nat, affinity: int, quota: QuotaRank)

  /** A route in the list, with the place it was collected at. */
  datatype Entry = Entry(key: Key, index: nat, model: Model, route: Route, binding: Binding)

  /** The cheapest role prepares every paid route to compare reservations, and what preparing raises ends it all. */
  predicate Raises(c: Context, mids: seq<string>, p: nat, r: nat)
    requires Eligible(c, mids, p, r)
  {
    var model := c.models[mids[p]];
    var route := model.routes[r];
    c.cheapest && route.paid && PrepareOf(c.body, c.protocol, model, route, c.bindings[route.accountId]).Crashed?
  }

  /** The cheapest role compares reservations; a route that is refused comes last. */
  function PriceOrder(c: Context, model: Model, route: Route, binding: Binding): Option<nat> {
    if c.cheapest && route.paid then
      match PrepareOf(c.body, c.protocol, model, route, binding)
      case Sent(_, reserve) => Some(reserve)
      case _ => None
    else Some(0)
  }

  function EntryAt(c: Context, mids: seq<string>, p: nat, r: nat): Entry
    requires Eligible(c, mids, p, r)
  {
    var model := c.models[mids[p]];
    var route := model.routes[r];
    var binding := c.bindings[route.accountId];
    var bound := Bound(c, mids[p]);
    Entry(Key(if bound then 0 else 1, if route.paid then 1 else 0, PriceOrder(c, model, route, binding), p,
              if bound && c.previous.value.account == Some(route.accountId) then 0 else 1,
              QuotaOrder(binding.quota, c.now)),
          r, model, route, binding)
  }

  predicate PriceLess(a: Option<nat>, b: Option<nat>) {
    a.Some? && (b.None? || a.value < b.value)
  }

  /** Lexicographic order of the sort key. */
  predicate KeyLess(a: Key, b: Key) {
    if a.sticky != b.sticky then a.sticky < b.sticky
    else if a.paid != b.paid then a.paid < b.paid
    else if a.price != b.price then PriceLess(a.price, b.price)
    else if a.position != b.position then a.position < b.position
    else if a.affinity != b.affinity then a.affinity < b.affinity
    else if a.quota.rank != b.quota.rank then a.quota.rank < b.quota.rank
    else if a.quota.pressure != b.quota.pressure then a.quota.pressure < b.quota.pressure
    else a.quota.remaining < b.quota.remaining
  }

  /** Ties keep the order of collection, which inside one model is the order of its routes. */
  predicate Before(a: Entry, b: Entry) {
    KeyLess(a.key, b.key) || (a.key == b.key && a.index < b.index)
  }

  lemma KeyTotal(a: Key, b: Key)
    ensures KeyLess(a, b) || KeyLess(b, a) || a == b
    ensures !(KeyLess(a, b) && KeyLess(b, a)) && !KeyLess(a, a)
  {
  }

  lemma KeyTransitive(a: Key, b: Key, c: Key)
    requires KeyLess(a, b) && KeyLess(b, c)
    ensures KeyLess(a, c)
  {
  }

  lemma BeforeTransitive(a: Entry, b: Entry, c: Entry)
    requires Before(a, b) && Before(b, c)
    ensures Before(a, c)
  {
    if KeyLess(a.key, b.key) && KeyLess(b.key, c.key) {
      KeyTransitive(a.key, b.key, c.key);
    }
  }

  predicate Sorted(entries: seq<Entry>) {
    forall i, j | 0 <= i < j < |entries| :: Before(entries[i], entries[j])
  }

  /** The list holds exactly the eligible routes of the first `p` models and the first `r` routes of the next. */
  ghost predicate HoldsExactly(c: Context, mids: seq<string>, entries: seq<Entry>, p: nat, r: nat) {
    && (forall e | e in entries :: IsEntry(c, mids, e, p, r))
    && (forall q: nat, s: nat | Eligible(c, mids, q, s) && Reached(q, s, p, r) :: EntryAt(c, mids, q, s) in entries)
  }

  predicate Reached(q: nat, s: nat, p: nat, r: nat) {
    q < p || (q == p && s < r)
  }

  ghost predicate IsEntry(c: Context, mids: seq<string>, e: Entry, p: nat, r: nat) {
    && Eligible(c, mids, e.key.position, e.index) && Reached(e.key.position, e.index, p, r)
    && e == EntryAt(c, mids, e.key.position, e.index)
  }

  /** The answer: every eligible route once, sorted, ties in order of collection. */
  ghost predicate Answer(c: Context, mids: seq<string>, entries: seq<Entry>) {
    HoldsExactly(c, mids, entries, |mids|, 0) && Sorted(entries)
  }

  // ------------------------------------------------------------ what a caller can tell before

  /** Observed not too long ago, as a fraction. */
  predicate IsFresh(quota: Quota, now: real) {
    && quota.Quota? && 0.0 <= now - quota.observedAt && now - quota.observedAt <= quota.maxAge
    && 0.0 <= quota.remaining && quota.remaining <= 1.0
  }

  /** Something is left, and the next reset is still ahead. */
  predicate IsUsable(quota: Quota, now: real) {
    IsFresh(quota, now) && quota.remaining != 0.0 && quota.resetAt > now
  }

  predicate IsEmpty(quota: Quota, now: real) {
    IsFresh(quota, now) && quota.remaining == 0.0 && quota.resetAt > now
  }

  predicate IsBoundTo(c: Context, mid: string) {
    c.previous.Some? && c.previous.value.model.Some? && c.previous.value.model.value == mid
  }

  predicate MayServeModel(c: Context, mid: string) {
    && mid in c.models && mid in c.clientModels && c.protocol in c.models[mid].capabilities
    && (c.models[mid].status == Approved || (c.models[mid].status == Hidden && IsBoundTo(c, mid)))
  }

  predicate MayServeRoute(c: Context, route: Route) {
    && (route.allowedClients == None || c.clientId in route.allowedClients.value)
    && route.accountId in c.enabled && route.accountId in c.bindings
    && var b := c.bindings[route.accountId];
       && b.authId != "" && (b.nativeSupported.Some? ==> b.nativeSupported.value)
       && (b.headersClients == None || c.clientId in b.headersClients.value)
       && !IsEmpty(b.quota, c.now)
       && (route.paid ==> b.metered || IsUsable(b.quota, c.now))
  }

  /** Route `r` of the model at place `p` may be tried. */
  predicate MayServe(c: Context, mids: seq<string>, p: nat, r: nat) {
    && p < |mids| && MayServeModel(c, mids[p])
    && r < |c.models[mids[p]].routes| && MayServeRoute(c, c.models[mids[p]].routes[r])
  }

  /** A usable quota comes before an unknown one; then the one with more left for each second until its reset, and then
      the one with more left at all. */
  predicate QuotaFirst(a: Quota, b: Quota, now: real) {
    IsUsable(a, now) && (IsUsable(b, now) ==>
      var inA := if a.resetAt - now < 1.0 then 1.0 else a.resetAt - now;
      var inB := if b.resetAt - now < 1.0 then 1.0 else b.resetAt - now;
      || a.remaining / inA > b.remaining / inB
      || (a.remaining / inA == b.remaining / inB && a.remaining > b.remaining))
  }

  /** What the cheapest role compares: the reservation, if the route can be reserved. */
  ghost predicate ComparesAt(c: Context, model: Model, route: Route, binding: Binding, price: Option<nat>) {
    if !c.cheapest || !route.paid then price == Some(0)
    else if !MaySend(c.body, c.protocol, model, route, binding) then price == None
    else price.Some? && forall n | AsksFor(c.body, c.protocol, model, n) && n >= 1 ::
      Reserves(price.value, model, route, binding, n)
  }

  /** One candidate comes before another: the bound model's routes first, then included before paid ones, then by
      reservation, by the place of the model, by the session's account, by quota, and by the place of the route. */
  predicate Precedes(c: Context, mids: seq<string>, p: nat, r: nat, price: Option<nat>, p': nat, r': nat,
                     price': Option<nat>)
    requires MayServe(c, mids, p, r) && MayServe(c, mids, p', r')
  {
    var a, b := c.models[mids[p]].routes[r], c.models[mids[p']].routes[r'];
    var quotaA, quotaB := c.bindings[a.accountId].quota, c.bindings[b.accountId].quota;
    var own := IsBoundTo(c, mids[p]) && c.previous.value.account == Some(a.accountId);
    var own' := IsBoundTo(c, mids[p']) && c.previous.value.account == Some(b.accountId);
    if IsBoundTo(c, mids[p]) != IsBoundTo(c, mids[p']) then IsBoundTo(c, mids[p])
    else if a.paid != b.paid then b.paid
    else if price != price' then price.Some? && (price' == None || price.value < price'.value)
    else if p != p' then p < p'
    else if own != own' then own
    else QuotaFirst(quotaA, quotaB, c.now) || (!QuotaFirst(quotaB, quotaA, c.now) && r < r')
  }

  lemma QuotaExactly(quota: Quota, now: real)
    ensures QuotaOrder(quota, now).rank == 0 <==> IsUsable(quota, now)
    ensures QuotaOrder(quota, now).rank == 3 <==> IsEmpty(quota, now)
    ensures QuotaOrder(quota, now).rank == 0 || QuotaOrder(quota, now).rank == 1 || QuotaOrder(quota, now).rank == 3
  {
  }

  lemma EligibleExactly(c: Context, mids: seq<string>, p: nat, r: nat)
    ensures Eligible(c, mids, p, r) <==> MayServe(c, mids, p, r)
  {
    if p < |mids| && ModelServes(c, mids[p]) && r < |c.models[mids[p]].routes| {
      RouteExactly(c, c.models[mids[p]].routes[r]);
    }
  }

  lemma RouteExactly(c: Context, route: Route)
    ensures RouteServes(c, route) <==> MayServeRoute(c, route)
  {
    if route.accountId in c.bindings {
      QuotaExactly(c.bindings[route.accountId].quota, c.now);
    }
  }

  lemma PriceExactly(c: Context, model: Model, route: Route, binding: Binding)
    ensures ComparesAt(c, model, route, binding, PriceOrder(c, model, route, binding))
  {
    var out := PrepareOf(c.body, c.protocol, model, route, binding);
    PreparesExactly(c.body, c.protocol, model, route, binding);
    if out.Sent? && route.paid {
      forall n | AsksFor(c.body, c.protocol, model, n) ensures Reserves(out.reserve, model, route, binding, n) {
        SentExactly(c.body, c.protocol, model, route, binding, n);
      }
    }
  }

  lemma QuotaFirstExactly(a: Quota, b: Quota, now: real)
    requires QuotaOrder(a, now).rank != 3 && QuotaOrder(b, now).rank != 3
    ensures
      var x, y := QuotaOrder(a, now), QuotaOrder(b, now);
      QuotaFirst(a, b, now) <==>
        || x.rank < y.rank
        || (x.rank == y.rank && (x.pressure < y.pressure || (x.pressure == y.pressure && x.remaining < y.remaining)))
  {
    QuotaExactly(a, now);
    QuotaExactly(b, now);
  }

  /** The sort key puts one candidate before another exactly when it comes before it. */
  lemma BeforeExactly(c: Context, mids: seq<string>, p: nat, r: nat, p': nat, r': nat)
    requires Eligible(c, mids, p, r) && Eligible(c, mids, p', r')
    requires MayServe(c, mids, p, r) && MayServe(c, mids, p', r')
    ensures
      var a, b := EntryAt(c, mids, p, r), EntryAt(c, mids, p', r');
      Before(a, b) <==> Precedes(c, mids, p, r, a.key.price, p', r', b.key.price)
  {
    var a, b := EntryAt(c, mids, p, r), EntryAt(c, mids, p', r');
    QuotaFirstExactly(a.binding.quota, b.binding.quota, c.now);
    QuotaFirstExactly(b.binding.quota, a.binding.quota, c.now);
  }

  /** The entry is the candidate at its place. */
  ghost predicate IsCandidate(c: Context, mids: seq<string>, e: Entry) {
    && MayServe(c, mids, e.key.position, e.index)
    && e.model == c.models[mids[e.key.position]] && e.route == e.model.routes[e.index]
    && e.binding == c.bindings[e.route.accountId]
    && ComparesAt(c, e.model, e.route, e.binding, e.key.price)
  }

  predicate HasPlace(entries: seq<Entry>, p: nat, r: nat) {
    exists k | 0 <= k < |entries| :: entries[k].key.position == p && entries[k].index == r
  }

  /** The list has every route that may be tried, each at its place, in the order in which they are tried. */
  ghost predicate RankedAsTold(c: Context, mids: seq<string>, entries: seq<Entry>) {
    && (forall k | 0 <= k < |entries| :: IsCandidate(c, mids, entries[k]))
    && (forall p: nat, r: nat | MayServe(c, mids, p, r) :: HasPlace(entries, p, r))
    && forall i, j | 0 <= i < j < |entries| ::
         && IsCandidate(c, mids, entries[i]) && IsCandidate(c, mids, entries[j])
         && Precedes(c, mids, entries[i].key.position, entries[i].index, entries[i].key.price,
                     entries[j].key.position, entries[j].index, entries[j].key.price)
  }

  /** Comparing this candidate's reservation raises: it can neither be sent nor is it refused. */
  ghost predicate StopsAt(c: Context, mids: seq<string>, p: nat, r: nat) {
    && MayServe(c, mids, p, r) && c.cheapest
    && var model := c.models[mids[p]];
       var route := model.routes[r];
       && route.paid && !MaySend(c.body, c.protocol, model, route, c.bindings[route.accountId])
       && !PriceIsRefused(c.body, c.protocol, model, route, c.bindings[route.accountId])
       && !BoundIsRefused(c.body, c.protocol, model, route)
  }

  lemma StopsExactly(c: Context, mids: seq<string>, p: nat, r: nat)
    ensures Eligible(c, mids, p, r) && Raises(c, mids, p, r) <==> StopsAt(c, mids, p, r)
  {
    EligibleExactly(c, mids, p, r);
    if Eligible(c, mids, p, r) {
      var route := c.models[mids[p]].routes[r];
      PreparesExactly(c.body, c.protocol, c.models[mids[p]], route, c.bindings[route.accountId]);
    }
  }

  lemma EntryIsCandidate(c: Context, mids: seq<string>, e: Entry)
    requires IsEntry(c, mids, e, |mids|, 0)
    ensures IsCandidate(c, mids, e)
  {
    EligibleExactly(c, mids, e.key.position, e.index);
    PriceExactly(c, e.model, e.route, e.binding);
  }

  /** The answer is the list told from the routes themselves. */
  lemma AnswerIsRanked(c: Context, mids: seq<string>, entries: seq<Entry>)
    requires Answer(c, mids, entries)
    ensures RankedAsTold(c, mids, entries)
  {
    forall k | 0 <= k < |entries| ensures IsCandidate(c, mids, entries[k]) {
      assert IsEntry(c, mids, entries[k], |mids|, 0);
      EntryIsCandidate(c, mids, entries[k]);
    }
    forall p: nat, r: nat | MayServe(c, mids, p, r) ensures HasPlace(entries, p, r) {
      EligibleExactly(c, mids, p, r);
      assert Reached(p, r, |mids|, 0);
      assert EntryAt(c, mids, p, r) in entries;
    }
    forall i, j | 0 <= i < j < |entries|
      ensures IsCandidate(c, mids, entries[i]) && IsCandidate(c, mids, entries[j])
      ensures Precedes(c, mids, entries[i].key.position, entries[i].index, entries[i].key.price,
                       entries[j].key.position, entries[j].index, entries[j].key.price)
    {
      assert IsEntry(c, mids, entries[i], |mids|, 0) && IsEntry(c, mids, entries[j], |mids|, 0);
      assert Before(entries[i], entries[j]);
      BeforeExactly(c, mids, entries[i].key.position, entries[i].index, entries[j].key.position, entries[j].index);
    }
  }

  // ------------------------------------------------------------ the loops

  /** Places one entry into a sorted list. */
  method Place(entries: seq<Entry>, e: Entry) returns (longer: seq<Entry>)
    requires Sorted(entries)
    requires forall d | d in entries :: Before(d, e) || Before(e, d)
    ensures Sorted(longer)
    ensures forall d :: d in longer <==> d in entries || d == e
  {
    var n := |entries|;
    while n > 0 && !Before(entries[n - 1], e)
      invariant 0 <= n <= |entries|
      invariant forall k | n <= k < |entries| :: Before(e, entries[k])
    {
      n := n - 1;
      assert entries[n] in entries;
    }
    longer := entries[..n] + [e] + entries[n..];
    PlacedIsSorted(entries, n, e);
    PlacedMembers(entries, n, e);
  }

  lemma PlacedIsSorted(entries: seq<Entry>, n: nat, e: Entry)
    requires Sorted(entries) && n <= |entries|
    requires n > 0 ==> Before(entries[n - 1], e)
    requires forall k | n <= k < |entries| :: Before(e, entries[k])
    ensures Sorted(entries[..n] + [e] + entries[n..])
  {
    var longer := entries[..n] + [e] + entries[n..];
    forall i, j | 0 <= i < j < |longer| ensures Before(longer[i], longer[j]) {
      if j == n && i < n - 1 {
        BeforeTransitive(entries[i], entries[n - 1], e);
      }
    }
  }

  lemma PlacedMembers(entries: seq<Entry>, n: nat, e: Entry)
    requires n <= |entries|
    ensures forall d :: d in entries[..n] + [e] + entries[n..] <==> d in entries || d == e
  {
    assert entries == entries[..n] + entries[n..];
  }

  /** Stable sort of distinctly placed entries. */
  method SortEntries(entries: seq<Entry>) returns (sorted: seq<Entry>)
    requires forall i, j | 0 <= i < j < |entries| :: Before(entries[i], entries[j]) || Before(entries[j], entries[i])
    ensures Sorted(sorted)
    ensures forall e :: e in sorted <==> e in entries
  {
    sorted := [];
    for k := 0 to |entries|
      invariant Sorted(sorted)
      invariant forall e :: e in sorted <==> e in entries[..k]
    {
      assert entries[..k + 1] == entries[..k] + [entries[k]];
      sorted := Place(sorted, entries[k]);
    }
    assert entries[..|entries|] == entries;
  }

  /** The bound model, at its first place, moves to the front; all others keep their order. */
  ghost predicate BoundFirst(mids: seq<string>, previous: Option<Previous>, ordered: seq<string>) {
    if previous.Some? && previous.value.model.Some? && previous.value.model.value in mids then
      var bound := previous.value.model.value;
      exists k | 0 <= k < |mids| ::
        mids[k] == bound && bound !in mids[..k] && ordered == [bound] + (mids[..k] + mids[k + 1..])
    else ordered == mids
  }

  /** The order in which models are considered: the bound one first. */
  method OrderModels(mids: seq<string>, previous: Option<Previous>) returns (ordered: seq<string>)
    ensures BoundFirst(mids, previous, ordered)
  {
    ordered := mids;
    if previous.Some? && previous.value.model.Some? {
      var bound := previous.value.model.value;
      var k := 0;
      while k < |mids| && mids[k] != bound
        invariant 0 <= k <= |mids|
        invariant bound !in mids[..k]
      {
        k := k + 1;
      }
      if k < |mids| {
        ordered := [bound] + (mids[..k] + mids[k + 1..]);
        assert mids[k] == bound;
      }
    }
  }

  /** Two entries of different places are ordered one way or the other. */
  lemma PlacesDiffer(c: Context, mids: seq<string>, a: Entry, b: Entry, p: nat, r: nat)
    requires IsEntry(c, mids, a, p, r) && IsEntry(c, mids, b, p, r)
    requires a.key.position != b.key.position || a.index != b.index
    ensures Before(a, b) || Before(b, a)
  {
    KeyTotal(a.key, b.key);
  }

  /** The nested loops. `raised`: preparing some eligible route raised. */
  method Collect(c: Context, mids: seq<string>) returns (entries: seq<Entry>, raised: bool)
    requires forall mid | mid in mids :: mid in c.models
    ensures raised <==> exists p: nat, r: nat :: Eligible(c, mids, p, r) && Raises(c, mids, p, r)
    ensures !raised ==> HoldsExactly(c, mids, entries, |mids|, 0) && InPlace(entries)
  {
    entries, raised := [], false;
    for p := 0 to |mids|
      invariant HoldsExactly(c, mids, entries, p, 0) && InPlace(entries) && NoneRaised(c, mids, p, 0)
    {
      if !ModelServes(c, mids[p]) {
        continue;
      }
      var model := c.models[mids[p]];
      for r := 0 to |model.routes|
        invariant HoldsExactly(c, mids, entries, p, r) && InPlace(entries) && NoneRaised(c, mids, p, r)
      {
        var route := model.routes[r];
        if RouteServes(c, route) {
          assert Eligible(c, mids, p, r);
          if c.cheapest && route.paid
            && PrepareOf(c.body, c.protocol, model, route, c.bindings[route.accountId]).Crashed? {
            assert Raises(c, mids, p, r);
            return [], true;
          }
          CollectOne(c, mids, entries, p, r);
          InPlaceGrows(c, mids, entries, p, r);
          entries := entries + [EntryAt(c, mids, p, r)];
        }
      }
    }
    forall p: nat, r: nat | Eligible(c, mids, p, r) ensures !Raises(c, mids, p, r) {
      assert Reached(p, r, |mids|, 0);
    }
  }

  /** Entries stand in the order in which they were collected. */
  predicate InPlace(entries: seq<Entry>) {
    forall i, j | 0 <= i < j < |entries| ::
      Reached(entries[i].key.position, entries[i].index, entries[j].key.position, entries[j].index)
  }

  ghost predicate NoneRaised(c: Context, mids: seq<string>, p: nat, r: nat) {
    forall q: nat, s: nat | Eligible(c, mids, q, s) && Reached(q, s, p, r) :: !Raises(c, mids, q, s)
  }

  lemma InPlaceGrows(c: Context, mids: seq<string>, entries: seq<Entry>, p: nat, r: nat)
    requires HoldsExactly(c, mids, entries, p, r) && Eligible(c, mids, p, r) && InPlace(entries)
    ensures InPlace(entries + [EntryAt(c, mids, p, r)])
  {
    assert forall i | 0 <= i < |entries| :: entries[i] in entries && IsEntry(c, mids, entries[i], p, r);
  }

  lemma CollectOne(c: Context, mids: seq<string>, entries: seq<Entry>, p: nat, r: nat)
    requires HoldsExactly(c, mids, entries, p, r) && Eligible(c, mids, p, r)
    ensures HoldsExactly(c, mids, entries + [EntryAt(c, mids, p, r)], p, r + 1)
  {
    var longer := entries + [EntryAt(c, mids, p, r)];
    assert longer[|entries|] == EntryAt(c, mids, p, r);
    forall e | e in longer ensures IsEntry(c, mids, e, p, r + 1) {
      if e in entries {
        assert IsEntry(c, mids, e, p, r);
      }
    }
    forall q: nat, s: nat | Eligible(c, mids, q, s) && Reached(q, s, p, r + 1)
      ensures EntryAt(c, mids, q, s) in longer
    {
      if Reached(q, s, p, r) {
        assert EntryAt(c, mids, q, s) in entries;
      }
    }
  }

  datatype Failure = NoRoute | Raised

  /** Orders the models, collects every eligible route and sorts. */
  method RoutesFor(c: Context, mids: seq<string>) returns (ordered: seq<string>, routes: Result<seq<Entry>, Failure>)
    requires forall mid | mid in mids :: mid in c.models
    ensures BoundFirst(mids, c.previous, ordered)
    ensures routes == Err(Raised) <==> exists p: nat, r: nat :: Eligible(c, ordered, p, r) && Raises(c, ordered, p, r)
    ensures routes == Err(NoRoute) <==> forall p: nat, r: nat :: !Eligible(c, ordered, p, r)
    ensures routes == Err(NoRoute) <==> forall p: nat, r: nat :: !MayServe(c, ordered, p, r)
    ensures routes == Err(Raised) <==> exists p: nat, r: nat :: StopsAt(c, ordered, p, r)
    ensures routes.Ok? ==> RankedAsTold(c, ordered, routes.value)
    ensures routes.Ok? ==> Answer(c, ordered, routes.value) && routes.value != []
  {
    ordered := OrderModels(mids, c.previous);
    forall mid | mid in ordered ensures mid in c.models {
      assert mid in mids;
    }
    forall p: nat, r: nat ensures Eligible(c, ordered, p, r) <==> MayServe(c, ordered, p, r) {
      EligibleExactly(c, ordered, p, r);
    }
    forall p: nat, r: nat ensures Eligible(c, ordered, p, r) && Raises(c, ordered, p, r) <==> StopsAt(c, ordered, p, r)
    {
      StopsExactly(c, ordered, p, r);
    }
    var collected, raised := Collect(c, ordered);
    if raised {
      return ordered, Err(Raised);
    }
    forall i, j | 0 <= i < j < |collected|
      ensures Before(collected[i], collected[j]) || Before(collected[j], collected[i])
    {
      assert collected[i] in collected && collected[j] in collected;
      PlacesDiffer(c, ordered, collected[i], collected[j], |ordered|, 0);
    }
    forall p: nat, r: nat | Eligible(c, ordered, p, r) ensures EntryAt(c, ordered, p, r) in collected {
      assert Reached(p, r, |ordered|, 0);
    }
    if collected == [] {
      return ordered, Err(NoRoute);
    }
    assert collected[0] in collected && IsEntry(c, ordered, collected[0], |ordered|, 0);
    var sorted := SortEntries(collected);
    assert collected[0] in sorted;
    routes := Result.Ok(sorted);
    AnswerIsRanked(c, ordered, sorted);
  }

  // ------------------------------------------------------------ what the order means

  /** The answer is unique: eligibility and the key with its tie-break determine the whole list. */
  lemma {:induction false} AnswerIsUnique(a: seq<Entry>, b: seq<Entry>)
    requires Sorted(a) && Sorted(b) && (forall e :: e in a <==> e in b)
    ensures a == b
  {
    if a == [] {
      FirstIsMember(b);
    } else {
      assert a[0] in b && b != [];
      assert b[0] in a;
      if a[0] != b[0] {
        var i :| 0 <= i < |b| && b[i] == a[0];
        var j :| 0 <= j < |a| && a[j] == b[0];
        assert Before(b[0], b[i]) && Before(a[0], a[j]);
        KeyTotal(a[0].key, b[0].key);
      }
      var rest, rest' := a[1..], b[1..];
      forall e ensures e in rest <==> e in rest' {
        TailMembership(a, e);
        TailMembership(b, e);
      }
      AnswerIsUnique(rest, rest');
    }
  }

  lemma FirstIsMember(a: seq<Entry>)
    ensures a == [] || a[0] in a
  {
  }

  lemma TailMembership(a: seq<Entry>, e: Entry)
    requires Sorted(a) && a != []
    ensures e in a[1..] <==> e in a && e != a[0]
  {
    if e in a[1..] {
      var k :| 0 <= k < |a[1..]| && a[1..][k] == e;
      assert a[k + 1] == e;
      assert Before(a[0], a[k + 1]);
      KeyTotal(a[0].key, e.key);
    }
    if e in a && e != a[0] {
      var k :| 0 <= k < |a| && a[k] == e;
      assert a[1..][k - 1] == e;
    }
  }

  predicate OfBoundModel(c: Context, mids: seq<string>, e: Entry) {
    e.key.position < |mids| && Bound(c, mids[e.key.position])
  }

  /** Routes of the bound model come first; and among those, as among the rest, every included route comes
      before every paid one. */
  lemma IncludedBeforePaid(c: Context, mids: seq<string>, entries: seq<Entry>, i: nat, j: nat)
    requires Answer(c, mids, entries) && i < j < |entries|
    ensures OfBoundModel(c, mids, entries[j]) ==> OfBoundModel(c, mids, entries[i])
    ensures OfBoundModel(c, mids, entries[i]) == OfBoundModel(c, mids, entries[j]) ==>
      (entries[i].route.paid ==> entries[j].route.paid)
  {
    assert IsEntry(c, mids, entries[i], |mids|, 0) && IsEntry(c, mids, entries[j], |mids|, 0);
    assert Before(entries[i], entries[j]);
  }

  /** Nothing forbidden is ever a candidate: no model that is denied, outside the client's models, without the protocol,
      or hidden outside its bound session; no account that is disabled, unbound, known not to be supported, exhausted,
      or out of scope for the client. */
  lemma NothingForbidden(c: Context, mids: seq<string>, entries: seq<Entry>, e: Entry)
    requires Answer(c, mids, entries) && e in entries
    ensures e.key.position < |mids| && mids[e.key.position] in c.models && e.model == c.models[mids[e.key.position]]
    ensures mids[e.key.position] in c.clientModels && c.protocol in e.model.capabilities
    ensures !e.model.status.Denied? && (e.model.status.Hidden? ==> OfBoundModel(c, mids, e))
    ensures e.route in e.model.routes
    ensures e.route.accountId in c.enabled && e.route.accountId in c.bindings
    ensures e.binding == c.bindings[e.route.accountId] && e.binding.authId != ""
    ensures e.binding.nativeSupported != Some(false)
    ensures e.route.allowedClients.Some? ==> c.clientId in e.route.allowedClients.value
    ensures e.binding.headersClients.Some? ==> c.clientId in e.binding.headersClients.value
    ensures QuotaOrder(e.binding.quota, c.now) != EXHAUSTED
    ensures e.route.paid ==> e.binding.metered || QuotaOrder(e.binding.quota, c.now).rank == 0
  {
    assert IsEntry(c, mids, e, |mids|, 0);
  }
}
