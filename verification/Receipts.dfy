/** Native receipts: what counts as evidence that a paid attempt cost nothing, or exactly so much. */
module Receipts {
  import opened Basics
  import opened JsonValues
  import opened Catalog
  import opened RoutePricing
  import opened Journal

  /** The auth id each configured account is bound to; an empty one is no binding. */
  type Bindings = map<string, string>

  /** Whether the answer names this very attempt and the auth id of its account. */
  predicate Names(bindings: Bindings, id: string, a: Attempt, data: Dict) {
    && a.account in bindings && bindings[a.account] != ""
    && Get(data, "attempt_id", Null) == Str(id)
    && Get(data, "auth_id", Null) == Str(bindings[a.account])
  }

  /** `native_receipt`; an answer is absent when the read failed, was refused or was not JSON. */
  function NativeReceipt(bindings: Bindings, id: string, a: Attempt, answer: Option<Json>): Option<Dict> {
    if answer.Some? && answer.value.Obj? && Names(bindings, id, a, answer.value.fields) then Some(answer.value.fields)
    else None
  }

  /** A rejection before anything was started or billed. */
  predicate ReceiptZero(a: Attempt, receipt: Option<Dict>) {
    && receipt.Some?
    && Get(receipt.value, "terminal", Null) == Bool(true)
    && Get(receipt.value, "failed", Null) == Bool(true)
    && Get(receipt.value, "billable_zero", Null) == Bool(true)
    && Get(receipt.value, "started", Null) == Bool(false)
    && (if Get(receipt.value, "model", Null).Null? then Get(receipt.value, "accepted", Null) == Bool(false)
        else a.upstream != "" && Get(receipt.value, "model", Null) == Str(a.upstream))
  }

  /** Complete normalized usage of a finished call on the admitted model. */
  function ReceiptUsage(a: Attempt, receipt: Option<Dict>): Option<Usage> {
    if receipt.None? || !Truthy(Get(receipt.value, "terminal", Null))
      || !Truthy(Get(receipt.value, "usage_complete", Null))
       || Truthy(Get(receipt.value, "failed", Null)) then None
    else if a.upstream == "" || Get(receipt.value, "model", Null) != Str(a.upstream) then None
    else
      var usage := Get(receipt.value, "usage", Null);
      if !usage.Obj? then None
      else
        var input := Get(usage.fields, "input_tokens", Null);
        var output := Get(usage.fields, "output_tokens", Null);
        var read := Get(usage.fields, "cache_read_tokens", Null);
        var write := Get(usage.fields, "cache_write_tokens", Null);
        if IntFrom(input, 0) && IntFrom(output, 0) && IntFrom(read, 0) && IntFrom(write, 0)
        then Some(Usage(input.i, output.i, read.i, write.i)) else None
  }

  /** The two ways a paid attempt's cost can be known. */
  predicate Backs(bindings: Bindings, id: string, a: Attempt, receipt: Dict, cost: nat) {
    && Names(bindings, id, a, receipt)
    && (|| (cost == 0 && ReceiptZero(a, Some(receipt)))
        || (ReceiptUsage(a, Some(receipt)).Some? && CostFor(ReceiptUsage(a, Some(receipt)), a.prices) == Some(cost)))
  }

  /** A finish the server may ask for: it settles a paid attempt only on a receipt. */
  ghost predicate Justified(bindings: Bindings, id: string, a: Attempt, cost: Option<int>, complete: bool) {
    a.billing.Paid? && complete && cost.Some? ==>
      cost.value >= 0 && exists receipt: Dict :: Backs(bindings, id, a, receipt, cost.value)
  }

  /** No receipt can say both that nothing was billed and how much was. */
  lemma ReceiptsNeverDisagree(bindings: Bindings, id: string, a: Attempt, receipt: Dict)
    requires Names(bindings, id, a, receipt)
    ensures !(ReceiptZero(a, Some(receipt)) && ReceiptUsage(a, Some(receipt)).Some?)
    ensures forall c: nat, d: nat :: Backs(bindings, id, a, receipt, c) && Backs(bindings, id, a, receipt, d) ==> c == d
  {
  }

  // ------------------------------------------------------------ what a receipt has to say

  /** The answer is about this attempt, as it was dispatched to its account. */
  predicate IsAbout(bindings: Bindings, id: string, a: Attempt, answer: Option<Json>) {
    && answer.Some? && answer.value.Obj?
    && a.account in bindings && bindings[a.account] != ""
    && Says(answer.value.fields, "attempt_id", Str(id))
    && Says(answer.value.fields, "auth_id", Str(bindings[a.account]))
  }

  /** The answer is a receipt of a call that ended well on the admitted model and used so many tokens: fresh input,
      output, read from the cache, written to the cache. */
  predicate Reports(bindings: Bindings, id: string, a: Attempt, answer: Option<Json>, i: nat, o: nat, r: nat, w: nat) {
    && IsAbout(bindings, id, a, answer)
    && var data := answer.value.fields;
       && Affirms(data, "terminal") && Affirms(data, "usage_complete") && !Affirms(data, "failed")
       && a.upstream != "" && Says(data, "model", Str(a.upstream))
       && "usage" in data && data["usage"].Obj?
       && Says(data["usage"].fields, "input_tokens", Int(i))
       && Says(data["usage"].fields, "output_tokens", Int(o))
       && Says(data["usage"].fields, "cache_read_tokens", Int(r))
       && Says(data["usage"].fields, "cache_write_tokens", Int(w))
  }

  /** The answer is a receipt of a call that was rejected before it started, and billed nothing; it names the admitted
      model, or none if nothing was accepted. */
  predicate ReportsNothing(bindings: Bindings, id: string, a: Attempt, answer: Option<Json>) {
    && IsAbout(bindings, id, a, answer)
    && var data := answer.value.fields;
       && Says(data, "terminal", Bool(true)) && Says(data, "failed", Bool(true))
       && Says(data, "billable_zero", Bool(true)) && Says(data, "started", Bool(false))
       && if "model" !in data || data["model"] == Null then Says(data, "accepted", Bool(false))
          else a.upstream != "" && data["model"] == Str(a.upstream)
  }

  /** What so many tokens cost in whole micro-USD, rounded up. */
  function Bill(p: Prices, i: nat, o: nat, r: nat, w: nat): nat {
    (i * p.input + o * p.output + r * p.cacheRead + w * p.cacheWrite + 999_999) / 1_000_000
  }

  lemma AboutExactly(bindings: Bindings, id: string, a: Attempt, answer: Option<Json>)
    ensures NativeReceipt(bindings, id, a, answer) ==
      if IsAbout(bindings, id, a, answer) then Some(answer.value.fields) else None
  {
  }

  /** A usage is authoritative if and only if a receipt reports it. */
  lemma UsageExactly(bindings: Bindings, id: string, a: Attempt, answer: Option<Json>, u: Usage)
    ensures ReceiptUsage(a, NativeReceipt(bindings, id, a, answer)) == Some(u) <==>
      Reports(bindings, id, a, answer, u.input, u.output, u.cacheRead, u.cacheWrite)
  {
    AboutExactly(bindings, id, a, answer);
  }

  lemma ZeroExactly(bindings: Bindings, id: string, a: Attempt, answer: Option<Json>)
    ensures ReceiptZero(a, NativeReceipt(bindings, id, a, answer)) <==> ReportsNothing(bindings, id, a, answer)
  {
    AboutExactly(bindings, id, a, answer);
  }

  lemma CostIsBill(u: Usage, p: Prices)
    ensures CostFor(Some(u), Some(p)) == Some(Bill(p, u.input, u.output, u.cacheRead, u.cacheWrite))
  {
  }

  ghost predicate ReportsUsage(bindings: Bindings, id: string, a: Attempt, answer: Option<Json>) {
    exists i: nat, o: nat, r: nat, w: nat :: Reports(bindings, id, a, answer, i, o, r, w)
  }

  /** The cost an answer proves, if it proves one: that of the usage it reports, at the prices frozen at admission. */
  ghost predicate ProvesCost(bindings: Bindings, id: string, a: Attempt, answer: Option<Json>, cost: Option<nat>) {
    && (forall i: nat, o: nat, r: nat, w: nat | Reports(bindings, id, a, answer, i, o, r, w) && a.prices.Some? ::
          cost == Some(Bill(a.prices.value, i, o, r, w)))
    && (!ReportsUsage(bindings, id, a, answer) || a.prices.None? ==> cost == None)
  }

  lemma CostIsProved(bindings: Bindings, id: string, a: Attempt, answer: Option<Json>)
    ensures ProvesCost(bindings, id, a, answer,
                       CostFor(ReceiptUsage(a, NativeReceipt(bindings, id, a, answer)), a.prices))
    ensures ReceiptUsage(a, NativeReceipt(bindings, id, a, answer)).Some? <==> ReportsUsage(bindings, id, a, answer)
  {
    var usage := ReceiptUsage(a, NativeReceipt(bindings, id, a, answer));
    forall i: nat, o: nat, r: nat, w: nat | Reports(bindings, id, a, answer, i, o, r, w)
      ensures usage == Some(Usage(i, o, r, w))
    {
      UsageExactly(bindings, id, a, answer, Usage(i, o, r, w));
    }
    if usage.Some? {
      UsageExactly(bindings, id, a, answer, usage.value);
      if a.prices.Some? {
        CostIsBill(usage.value, a.prices.value);
      }
    }
  }
}
