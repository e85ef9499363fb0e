/** The service's own settlements: finalizing a dispatched attempt and the periodic reconciliation. */
module Server {
  import opened Basics
  import opened JsonValues
  import opened Catalog
  import opened RoutePricing
  import opened Journal
  import opened Receipts
  import opened Dispatch
  import opened Service
  import Budget
  import Store
  import opened Ledger
  import LedgerCalls

  /** How one call may change one attempt's row: not at all, to unresolved, or to a justified settlement. */
  ghost predicate Progress(bindings: Bindings, id: string, before: Attempt, after: Attempt) {
    || after == before
    || (&& before.status != Settled
        && after.(status := before.status, cost := before.cost) == before
        && (|| (after.status.Unresolved? && after.cost.None?)
            || (&& after.status.Settled? && after.cost.Some?
                && (before.billing.Paid? ==>
                      exists receipt: Dict :: Backs(bindings, id, before, receipt, after.cost.value)))))
  }

  /** Every attempt made progress or stayed; none appeared or vanished. */
  ghost predicate AllProgress(bindings: Bindings, before: Database, after: Database) {
    && before.attempts.Keys == after.attempts.Keys
    && forall id | id in before.attempts :: Progress(bindings, id, before.attempts[id], after.attempts[id])
  }

  lemma FinishIsProgress(bindings: Bindings, db: Database, id: string, cost: Option<int>, complete: bool,
                         successful: bool)
    requires id in db.attempts ==> Justified(bindings, id, db.attempts[id], cost, complete)
    ensures AllProgress(bindings, db, Finish(db, id, cost, complete, successful))
  {
    if Finishable(db, id, cost) {
      var a := FinishedAttempt(db.attempts[id], cost, complete);
      assert Finish(db, id, cost, complete, successful).attempts == db.attempts[id := a];
    }
  }

  lemma ProgressComposes(bindings: Bindings, a: Database, b: Database, c: Database)
    requires AllProgress(bindings, a, b) && AllProgress(bindings, b, c)
    ensures AllProgress(bindings, a, c)
  {
    forall id | id in a.attempts ensures Progress(bindings, id, a.attempts[id], c.attempts[id]) {
      assert Progress(bindings, id, a.attempts[id], b.attempts[id]);
      assert Progress(bindings, id, b.attempts[id], c.attempts[id]);
      ProgressOfOne(bindings, id, a.attempts[id], b.attempts[id], c.attempts[id]);
    }
  }

  lemma ProgressOfOne(bindings: Bindings, id: string, a: Attempt, b: Attempt, c: Attempt)
    requires Progress(bindings, id, a, b) && Progress(bindings, id, b, c)
    ensures Progress(bindings, id, a, c)
  {
    if a != b && b != c {
      forall receipt: Dict, cost: nat
        ensures Backs(bindings, id, b, receipt, cost) == Backs(bindings, id, a, receipt, cost)
      {
      }
    }
  }

  class Application {
    const store: Store.Store
    const bindings: Bindings

    constructor (store: Store.Store, bindings: Bindings)
      ensures this.store == store && this.bindings == bindings
    {
      this.store := store;
      this.bindings := bindings;
    }

    /** A finish call of one of the service's code paths. The caller's record `a` may be older than the row. */
    method Finish(id: string, a: Attempt, cost: Option<int>, complete: bool, successful: bool, fault: bool,
                  budgetFault: bool, ghost act: Act, ghost asked: map<string, Asked>)
      requires id in store.db.attempts ==> SameAdmission(a, store.db.attempts[id])
      requires FinishOf(bindings, id, a, act) == Some((cost, complete, successful))
      modifies store, store.authority
      ensures store.db == if fault then old(store.db) else Journal.Finish(old(store.db), id, cost, complete, successful)
      ensures AllProgress(bindings, old(store.db), store.db)
      ensures ServedReaches(bindings, asked, old(LedgerCalls.View(store)), LedgerCalls.View(store))
    {
      if id in store.db.attempts {
        FinishOfSame(bindings, id, a, store.db.attempts[id], act);
        ActIsJustified(bindings, id, store.db.attempts[id], act);
      }
      FinishIsProgress(bindings, store.db, id, cost, complete, successful);
      ghost var db, book := store.db, store.authority.book;
      var _ := store.FinishAttempt(id, cost, complete, successful, fault, budgetFault);
      ServedFinish(bindings, asked, db, book, store.db, store.authority.book, id, cost, complete, successful, fault,
                   budgetFault, act);
    }

    /** Included routes are charged nothing; a paid one is settled only by an authoritative receipt, at the prices
        frozen at admission, and otherwise left open with its reservation. */
    method Finalize(id: string, a: Attempt, usage: Option<Usage>, complete: bool, successful: bool,
                    answer: Option<Json>, fault: bool, budgetFault: bool, ghost asked: map<string, Asked>)
      requires id in store.db.attempts ==> SameAdmission(a, store.db.attempts[id])
      modifies store, store.authority
      ensures store.db == AfterFinalize(old(store.db), bindings, id, a, usage, complete, successful, answer, fault)
      ensures AllProgress(bindings, old(store.db), store.db)
      ensures ServedReaches(bindings, asked, old(LedgerCalls.View(store)), LedgerCalls.View(store))
      ensures !fault && Open(old(store.db), id) ==>
        id in store.db.attempts && FinalRow(bindings, id, a, complete, answer, store.db.attempts[id])
      ensures !fault && Open(old(store.db), id) ==>
        && FinalizedAsTold(bindings, id, a, complete, answer, store.db.attempts[id])
        && SessionsBound(old(store.db).attempts[id], successful, old(store.db).sessions, store.db.sessions)
    {
      ghost var before := store.db;
      var cost, done := Pricing(id, a, usage, complete, answer);
      Finish(id, a, cost, done, successful, fault, budgetFault, Finalizes(answer, usage, complete, successful), asked);
      FinalizeMeans(before, bindings, id, a, usage, complete, successful, answer);
      FinalizedMeans(before, bindings, id, a, usage, complete, successful, answer);
    }

    /** The cost of a finished call and whether it is known for good. */
    method Pricing(id: string, a: Attempt, usage: Option<Usage>, complete: bool, answer: Option<Json>)
      returns (cost: Option<int>, done: bool)
      ensures forall successful ::
        FinalizeArgs(bindings, id, a, answer, usage, complete, successful) == (cost, done, successful)
    {
      cost, done := Widen(CostFor(usage, a.prices)), complete;
      if a.billing.Paid? {
        var authoritative := ReceiptUsage(a, NativeReceipt(bindings, id, a, answer));
        cost, done := Widen(CostFor(authoritative, a.prices)), authoritative.Some?;
      }
    }

    /** At most `limit` open attempts, the newest first. */
    method Unresolved(limit: nat) returns (ids: seq<string>)
      ensures |ids| <= limit && NewestFirst(store.db, ids)
      ensures forall id | Open(store.db, id) && id !in ids ::
        |ids| == limit && forall k | 0 <= k < |ids| ::
          store.db.attempts[id].created <= store.db.attempts[ids[k]].created
    {
      ids := [];
      var rest := set id | id in store.db.attempts && Open(store.db, id);
      while rest != {} && |ids| < limit
        invariant |ids| <= limit && NewestFirst(store.db, ids)
        invariant forall id | id in rest :: Open(store.db, id) && id !in ids
        invariant forall id | Open(store.db, id) :: id in rest || id in ids
        invariant forall id, k | id in rest && 0 <= k < |ids| ::
          store.db.attempts[id].created <= store.db.attempts[ids[k]].created
        decreases rest
      {
        var id := Newest(store.db, rest);
        ids := ids + [id];
        rest := rest - {id};
      }
    }

    /** Settles an attempt and lets go of its session, as two transactions; a failure of the first raises before the
        second. */
    method Conclude(id: string, a: Attempt, cost: Option<int>, successful: bool, fault: bool, releaseFault: bool,
                    budgetFault: bool, ghost act: Act, ghost asked: map<string, Asked>)
      requires id in store.db.attempts && SameAdmission(a, store.db.attempts[id])
      requires FinishOf(bindings, id, a, act) == Some((cost, true, successful))
      modifies store, store.authority
      ensures store.db == Concluding(old(store.db), id, a, cost, successful, fault, releaseFault)
      ensures ServedReaches(bindings, asked, old(LedgerCalls.View(store)), LedgerCalls.View(store))
    {
      ghost var start := LedgerCalls.View(store);
      Finish(id, a, cost, true, successful, fault, budgetFault, act, asked);
      if !fault {
        ghost var finished := LedgerCalls.View(store);
        store.ReleaseSession(a.client, a.session, a.requestId, releaseFault);
        ServedRelease(bindings, asked, finished.db, finished.book, a.client, a.session, a.requestId);
        if !releaseFault {
          ServedCompose(bindings, asked, start, finished, LedgerCalls.View(store));
        }
      }
    }

    /** One attempt of a maintenance pass, as listed in `a`; in the meantime others may have finished it. */
    method ReconcileOne(id: string, a: Attempt, answer: Option<Json>, fault: bool, releaseFault: bool,
                        budgetFault: bool, ghost asked: map<string, Asked>)
      returns (raised: bool)
      requires id in store.db.attempts && Progress(bindings, id, a, store.db.attempts[id])
      modifies store, store.authority
      ensures AllProgress(bindings, old(store.db), store.db)
      ensures ServedReaches(bindings, asked, old(LedgerCalls.View(store)), LedgerCalls.View(store))
      ensures id in store.db.attempts
      ensures !raised ==> Maintained(bindings, id, a, answer, old(store.db).attempts[id], store.db.attempts[id])
      ensures Conclusive(bindings, id, a, answer) || (!raised && store.db == old(store.db))
      ensures raised ==> fault || releaseFault
      ensures OnlyReleases(old(store.db), store.db, a)
      ensures !raised ==> MaintainedAsTold(bindings, id, a, answer, old(store.db), store.db)
    {
      ghost var before := store.db;
      var conclusive, cost, successful := Verdict(id, a, answer);
      ZeroExactly(bindings, id, a, answer);
      CostIsProved(bindings, id, a, answer);
      if !conclusive {
        ServedNone(bindings, asked, LedgerCalls.View(store));
        return false;
      }
      ReconciledRow(bindings, before, id, a, answer, cost, successful, fault, releaseFault);
      ReconciledAsTold(bindings, before, id, a, answer, cost, successful);
      Conclude(id, a, cost, successful, fault, releaseFault, budgetFault, Reconciles(answer), asked);
      raised := fault || releaseFault;
    }

    /** What the native service's answer means for an open attempt. */
    method Verdict(id: string, a: Attempt, answer: Option<Json>)
      returns (conclusive: bool, cost: Option<int>, successful: bool)
      ensures conclusive <==> Conclusive(bindings, id, a, answer)
      ensures ReconcileArgs(bindings, id, a, answer) == if conclusive then Some((cost, true, successful)) else None
    {
      var receipt := NativeReceipt(bindings, id, a, answer);
      if receipt.None? {
        return false, None, false;
      }
      if ReceiptZero(a, receipt) {
        return true, Some(0), false;
      }
      var usage := ReceiptUsage(a, receipt);
      conclusive, cost, successful := usage.Some?, Widen(CostFor(usage, a.prices)), true;
    }

    /** One maintenance pass over the newest open attempts. `answers` is what the native service says about each
        attempt, `faults` which of the pass's transactions fail; a failure ends the pass. Progress is only ever made on
        receipts, a session loses its pending request only to a conclusive receipt for an attempt of that very request,
        and a pass that gets through settles every listed attempt whose cost its receipt proves. */
    method Reconcile(answers: string -> Option<Json>, faults: string -> bool, releaseFaults: string -> bool,
                     budgetFaults: string -> bool, bookFault: bool, ghost asked: map<string, Asked>)
      returns (ids: seq<string>, raised: bool)
      modifies store, store.authority
      ensures AllProgress(bindings, old(store.db), store.db)
      ensures ReleasesOnlyConcluded(bindings, old(store.db), store.db, answers)
      ensures ServedReaches(bindings, asked, old(LedgerCalls.View(store)), LedgerCalls.View(store))
      ensures |ids| <= 100 && NewestFirst(old(store.db), ids)
      ensures forall id | Open(old(store.db), id) && id !in ids :: |ids| == 100
      ensures !raised ==> ListedSettled(bindings, old(store.db), store.db, answers, ids)
      ensures PassAsTold(bindings, old(store.db), store.db, answers, ids, raised)
    {
      ghost var first := LedgerCalls.View(store);
      store.ReconcileBudget(bookFault);
      ServedReconcile(bindings, asked, first.db, first.book, store.authority.book, bookFault);
      ids := Unresolved(100);
      raised := false;
      var listed := store.db.attempts;
      ghost var start := store.db;
      for n := 0 to |ids|
        invariant !raised && AllProgress(bindings, start, store.db)
        invariant ReleasesOnlyConcluded(bindings, start, store.db, answers)
        invariant ServedReaches(bindings, asked, first, LedgerCalls.View(store))
        invariant ListedSettled(bindings, start, store.db, answers, ids[..n])
      {
        var id := ids[n];
        assert Open(start, id) && Progress(bindings, id, start.attempts[id], store.db.attempts[id]);
        ghost var before := LedgerCalls.View(store);
        raised := ReconcileOne(id, listed[id], answers(id), faults(id), releaseFaults(id), budgetFaults(id), asked);
        ServedCompose(bindings, asked, first, before, LedgerCalls.View(store));
        PassStep(bindings, start, before.db, store.db, answers, ids[..n], id, raised);
        if raised {
          PassIsTold(bindings, start, store.db, answers, ids, true);
          return;
        }
        TakeNext(ids, n);
      }
      TakeAll(ids);
      PassIsTold(bindings, start, store.db, answers, ids, false);
    }
  }

  /** Distinct open attempts, newest first. */
  predicate NewestFirst(db: Database, ids: seq<string>) {
    && (forall k | 0 <= k < |ids| :: Open(db, ids[k]))
    && (forall i, j | 0 <= i < j < |ids| ::
          ids[i] != ids[j] && db.attempts[ids[j]].created <= db.attempts[ids[i]].created)
  }

  method Newest(db: Database, ids: set<string>) returns (newest: string)
    requires ids != {} && forall id | id in ids :: id in db.attempts
    ensures newest in ids && forall id | id in ids :: db.attempts[id].created <= db.attempts[newest].created
  {
    newest :| newest in ids;
    var rest := ids - {newest};
    while rest != {}
      invariant newest in ids && rest <= ids
      invariant forall id | id in ids - rest :: db.attempts[id].created <= db.attempts[newest].created
      decreases rest
    {
      var id :| id in rest;
      rest := rest - {id};
      if db.attempts[id].created > db.attempts[newest].created {
        newest := id;
      }
    }
  }

  /** The journal after `finalize`. */
  function AfterFinalize(db: Database, bindings: Bindings, id: string, a: Attempt, usage: Option<Usage>, complete: bool,
                         successful: bool, answer: Option<Json>, fault: bool): Database
  {
    var (cost, done, bound) := FinalizeArgs(bindings, id, a, answer, usage, complete, successful);
    if fault then db else Finish(db, id, cost, done, bound)
  }

  /** A paid attempt is settled exactly when its receipt has a price, an included one when it is complete. */
  predicate FinalRow(bindings: Bindings, id: string, a: Attempt, complete: bool, answer: Option<Json>, after: Attempt) {
    if a.billing.Paid? then
      var due := CostFor(ReceiptUsage(a, NativeReceipt(bindings, id, a, answer)), a.prices);
      after.cost == due && (after.status.Settled? <==> due.Some?)
    else after.cost == (if complete then Some(0) else None) && (after.status.Settled? <==> complete)
  }

  /** The same, told from what the answer says: a paid attempt is settled at the bill of the usage it reports, or left
      open. */
  ghost predicate FinalizedAsTold(bindings: Bindings, id: string, a: Attempt, complete: bool, answer: Option<Json>,
                                  after: Attempt)
  {
    if a.billing == Paid then
      && ProvesCost(bindings, id, a, answer, after.cost)
      && (if after.cost.Some? then after.status == Settled else after.status == Unresolved)
    else if complete then after.status == Settled && after.cost == Some(0)
    else after.status == Unresolved && after.cost == None
  }

  /** What one maintained attempt leaves, told from what the answer says. If it reports that nothing was billed, or a
      usage, an open attempt is finished, and its session lets go of the request. A reported usage also binds the
      session, as a successful call does. Otherwise nothing changes. */
  ghost predicate MaintainedAsTold(bindings: Bindings, id: string, a: Attempt, answer: Option<Json>, before: Database,
                                   after: Database)
  {
    var nothing, used := ReportsNothing(bindings, id, a, answer), ReportsUsage(bindings, id, a, answer);
    && id in before.attempts && id in after.attempts
    && if !nothing && !used then after == before
       else
         && (before.attempts[id].status == Settled ==> after.attempts[id] == before.attempts[id])
         && (before.attempts[id].status != Settled ==>
               && (a.billing == Included || nothing ==>
                     after.attempts[id].status == Settled && after.attempts[id].cost == Some(0))
               && (a.billing == Paid && !nothing ==>
                     && ProvesCost(bindings, id, a, answer, after.attempts[id].cost)
                     && after.attempts[id].status == if after.attempts[id].cost.Some? then Settled else Unresolved))
         && after.sessions.Keys == before.sessions.Keys
         && forall key | key in before.sessions ::
              if key == (a.client, a.session) && before.sessions[key].pending == Some(a.requestId)
              then Concludes(a, !nothing && before.attempts[id].status != Settled,
                             before.sessions[key], after.sessions[key])
              else after.sessions[key] == before.sessions[key]
  }

  /** A session's row once its own request is over. */
  predicate Concludes(a: Attempt, binds: bool, before: Session, after: Session) {
    && after.pending == None && after.selected == before.selected
    && after.model == (if binds then Some(a.model) else before.model)
    && after.account == (if binds then Some(a.account) else before.account)
  }

  lemma ReconciledAsTold(bindings: Bindings, db: Database, id: string, a: Attempt, answer: Option<Json>,
                         cost: Option<int>, successful: bool)
    requires id in db.attempts && SameAdmission(a, db.attempts[id])
    requires ReconcileArgs(bindings, id, a, answer) == Some((cost, true, successful))
    ensures MaintainedAsTold(bindings, id, a, answer, db, Concluding(db, id, a, cost, successful, false, false))
  {
    ZeroExactly(bindings, id, a, answer);
    CostIsProved(bindings, id, a, answer);
    RefusedFinish(db, id, cost, true, successful);
    if MayFinish(db, id, cost) {
      FinishedRowsExactly(db, id, cost, true, successful);
      FinishedSessionsExactly(db, id, cost, true, successful);
    }
    var finished := Finish(db, id, cost, true, successful);
    ReleaseExactly(finished, a.client, a.session, a.requestId);
  }

  lemma FinalizeMeans(db: Database, bindings: Bindings, id: string, a: Attempt, usage: Option<Usage>, complete: bool,
                      successful: bool, answer: Option<Json>)
    requires Open(db, id) ==> SameAdmission(a, db.attempts[id])
    ensures Open(db, id) ==>
      var after := AfterFinalize(db, bindings, id, a, usage, complete, successful, answer, false);
      id in after.attempts && FinalRow(bindings, id, a, complete, answer, after.attempts[id])
  {
    if Open(db, id) {
      var (cost, done, bound) := FinalizeArgs(bindings, id, a, answer, usage, complete, successful);
      assert Finishable(db, id, cost);
      FinishWrites(db, id, cost, done, bound);
      FinalRowIs(bindings, id, a, usage, complete, successful, answer, db.attempts[id]);
    }
  }

  lemma FinalizedMeans(db: Database, bindings: Bindings, id: string, a: Attempt, usage: Option<Usage>, complete: bool,
                       successful: bool, answer: Option<Json>)
    requires Open(db, id) ==> SameAdmission(a, db.attempts[id])
    ensures Open(db, id) ==>
      var after := AfterFinalize(db, bindings, id, a, usage, complete, successful, answer, false);
      && id in after.attempts && FinalizedAsTold(bindings, id, a, complete, answer, after.attempts[id])
      && SessionsBound(db.attempts[id], successful, db.sessions, after.sessions)
  {
    if Open(db, id) {
      var (cost, done, bound) := FinalizeArgs(bindings, id, a, answer, usage, complete, successful);
      CostIsProved(bindings, id, a, answer);
      assert MayFinish(db, id, cost);
      FinishedSessionsExactly(db, id, cost, done, bound);
      FinishedRowsExactly(db, id, cost, done, bound);
    }
  }

  lemma FinalRowIs(bindings: Bindings, id: string, a: Attempt, usage: Option<Usage>, complete: bool, successful: bool,
                   answer: Option<Json>, row: Attempt)
    requires SameAdmission(a, row)
    ensures
      var (cost, done, _) := FinalizeArgs(bindings, id, a, answer, usage, complete, successful);
      (cost.Some? ==> 0 <= cost.value) && FinalRow(bindings, id, a, complete, answer, FinishedAttempt(row, cost, done))
  {
  }

  /** What a pass that gets through leaves of an attempt: settled if the answer proves its cost. */
  predicate Maintained(bindings: Bindings, id: string, a: Attempt, answer: Option<Json>, before: Attempt,
                       after: Attempt)
  {
    var known := KnownCost(bindings, id, a, answer);
    && (known.Some? ==> after.status.Settled?)
    && (before.status != Settled && known.Some? ==> after.cost == if a.billing.Paid? then known else Some(0))
  }

  /** All that one maintained attempt changes. */
  lemma ReconciledRow(bindings: Bindings, db: Database, id: string, a: Attempt, answer: Option<Json>, cost: Option<int>,
                      successful: bool, fault: bool, releaseFault: bool)
    requires id in db.attempts && Progress(bindings, id, a, db.attempts[id])
    requires ReconcileArgs(bindings, id, a, answer) == Some((cost, true, successful))
    ensures SameAdmission(a, db.attempts[id])
    ensures
      var after := Concluding(db, id, a, cost, successful, fault, releaseFault);
      && AllProgress(bindings, db, after) && OnlyReleases(db, after, a)
      && (!fault ==> Maintained(bindings, id, a, answer, db.attempts[id], after.attempts[id]))
  {
    var row := db.attempts[id];
    ActsOnRow(bindings, id, a, row, Reconciles(answer));
    ConcludingIsProgress(bindings, db, id, a, cost, successful, fault, releaseFault);
    if !fault {
      RefusedFinish(db, id, cost, true, successful);
      RowIsMaintained(bindings, id, a, answer, row, cost, successful);
    }
  }

  lemma RowIsMaintained(bindings: Bindings, id: string, a: Attempt, answer: Option<Json>, row: Attempt,
                        cost: Option<int>, successful: bool)
    requires SameAdmission(a, row) && ReconcileArgs(bindings, id, a, answer) == Some((cost, true, successful))
    ensures Charge(row, cost).Some? ==> Charge(row, cost).value >= 0
    ensures row.status == Settled ==> Maintained(bindings, id, a, answer, row, row)
    ensures Maintained(bindings, id, a, answer, row, FinishedAttempt(row, cost, true))
  {
  }

  lemma ActsOnRow(bindings: Bindings, id: string, a: Attempt, row: Attempt, act: Act)
    requires Progress(bindings, id, a, row)
    ensures SameAdmission(a, row)
    ensures FinishOf(bindings, id, a, act).Some? ==>
      Justified(bindings, id, row, FinishOf(bindings, id, a, act).value.0, FinishOf(bindings, id, a, act).value.1)
  {
    FinishOfSame(bindings, id, a, row, act);
    if FinishOf(bindings, id, row, act).Some? {
      ActIsJustified(bindings, id, row, act);
    }
  }

  /** Every listed attempt whose cost its receipt proves is settled. */
  ghost predicate ListedSettled(bindings: Bindings, start: Database, db: Database, answers: string -> Option<Json>,
                                ids: seq<string>)
  {
    forall k | 0 <= k < |ids| ::
      && ids[k] in start.attempts && ids[k] in db.attempts
      && (KnownCost(bindings, ids[k], start.attempts[ids[k]], answers(ids[k])).Some? ==>
            db.attempts[ids[k]].status.Settled?)
  }

  /** One attempt of a pass. */
  lemma PassStep(bindings: Bindings, start: Database, before: Database, after: Database,
                 answers: string -> Option<Json>, ids: seq<string>, id: string, raised: bool)
    requires AllProgress(bindings, start, before) && AllProgress(bindings, before, after) && id in start.attempts
    requires ReleasesOnlyConcluded(bindings, start, before, answers)
    requires ListedSettled(bindings, start, before, answers, ids)
    requires OnlyReleases(before, after, start.attempts[id])
    requires Conclusive(bindings, id, start.attempts[id], answers(id)) || after == before
    requires !raised ==>
      Maintained(bindings, id, start.attempts[id], answers(id), before.attempts[id], after.attempts[id])
    ensures AllProgress(bindings, start, after) && ReleasesOnlyConcluded(bindings, start, after, answers)
    ensures !raised ==> ListedSettled(bindings, start, after, answers, ids + [id])
  {
    assert Progress(bindings, id, start.attempts[id], before.attempts[id]);
    SameEvidence(bindings, id, start.attempts[id], before.attempts[id], answers(id));
    ProgressComposes(bindings, start, before, after);
    ReleasesCompose(bindings, start, before, after, id, answers);
    SettledStaySettled(bindings, before, after);
  }

  lemma SettledStaySettled(bindings: Bindings, before: Database, after: Database)
    requires AllProgress(bindings, before, after)
    ensures forall id | id in before.attempts && before.attempts[id].status.Settled? ::
      after.attempts[id].status.Settled?
  {
    forall id | id in before.attempts && before.attempts[id].status.Settled?
      ensures after.attempts[id].status.Settled?
    {
      assert Progress(bindings, id, before.attempts[id], after.attempts[id]);
    }
  }

  function Concluding(db: Database, id: string, a: Attempt, cost: Option<int>, successful: bool, fault: bool,
                      releaseFault: bool): Database
  {
    if fault then db
    else
      var finished := Finish(db, id, cost, true, successful);
      if releaseFault then finished else Release(finished, a.client, a.session, a.requestId)
  }

  lemma ConcludingIsProgress(bindings: Bindings, db: Database, id: string, a: Attempt, cost: Option<int>,
                             successful: bool, fault: bool, releaseFault: bool)
    requires id in db.attempts && Progress(bindings, id, a, db.attempts[id])
    requires Justified(bindings, id, db.attempts[id], cost, true)
    ensures
      var after := Concluding(db, id, a, cost, successful, fault, releaseFault);
      && AllProgress(bindings, db, after)
      && OnlyReleases(db, after, a)
      && (!fault && Finishable(db, id, cost) ==> after.attempts[id] == FinishedAttempt(db.attempts[id], cost, true))
  {
    var finished := if fault then db else Finish(db, id, cost, true, successful);
    if !fault {
      FinishIsProgress(bindings, db, id, cost, true, successful);
      FinishKeepsPending(db, id, cost, true, successful);
      if Finishable(db, id, cost) {
        FinishWrites(db, id, cost, true, successful);
      }
    }
    ReleaseTouchesOne(db, finished, a);
  }

  lemma ReleaseTouchesOne(db: Database, finished: Database, a: Attempt)
    requires finished.sessions.Keys == db.sessions.Keys
    requires forall key | key in db.sessions :: finished.sessions[key].pending == db.sessions[key].pending
    ensures OnlyReleases(db, finished, a)
    ensures OnlyReleases(db, Release(finished, a.client, a.session, a.requestId), a)
    ensures Release(finished, a.client, a.session, a.requestId).attempts == finished.attempts
  {
  }

  /** What an answer proves about an attempt's cost. */
  function KnownCost(bindings: Bindings, id: string, a: Attempt, answer: Option<Json>): Option<nat> {
    var receipt := NativeReceipt(bindings, id, a, answer);
    if ReceiptZero(a, receipt) then Some(0) else CostFor(ReceiptUsage(a, receipt), a.prices)
  }

  /** An answer that ends the attempt's call one way or the other. */
  predicate Conclusive(bindings: Bindings, id: string, a: Attempt, answer: Option<Json>) {
    var receipt := NativeReceipt(bindings, id, a, answer);
    ReceiptZero(a, receipt) || ReceiptUsage(a, receipt).Some?
  }

  /** The answer reports that nothing was billed, or a usage. */
  ghost predicate ReportsEither(bindings: Bindings, id: string, a: Attempt, answer: Option<Json>) {
    ReportsNothing(bindings, id, a, answer) || ReportsUsage(bindings, id, a, answer)
  }

  /** What a pass does, told from the answers: a request is let go only when an answer reports on one of its attempts,
      and a pass that gets through has settled every listed attempt whose answer reports nothing billed or, with prices,
      a usage. */
  ghost predicate PassAsTold(bindings: Bindings, before: Database, after: Database, answers: string -> Option<Json>,
                             ids: seq<string>, raised: bool)
  {
    && before.sessions.Keys == after.sessions.Keys
    && (forall key | key in before.sessions && after.sessions[key].pending != before.sessions[key].pending ::
          && after.sessions[key].pending == None && before.sessions[key].pending.Some?
          && exists id | id in before.attempts ::
               && before.attempts[id].requestId == before.sessions[key].pending.value
               && ReportsEither(bindings, id, before.attempts[id], answers(id)))
    && (!raised ==> forall k | 0 <= k < |ids| ::
          && ids[k] in before.attempts && ids[k] in after.attempts
          && (Proves(bindings, ids[k], before.attempts[ids[k]], answers(ids[k])) ==>
                after.attempts[ids[k]].status == Settled))
  }

  ghost predicate Proves(bindings: Bindings, id: string, a: Attempt, answer: Option<Json>) {
    ReportsNothing(bindings, id, a, answer) || (ReportsUsage(bindings, id, a, answer) && a.prices.Some?)
  }

  lemma ConclusiveExactly(bindings: Bindings, id: string, a: Attempt, answer: Option<Json>)
    ensures Conclusive(bindings, id, a, answer) <==> ReportsEither(bindings, id, a, answer)
    ensures KnownCost(bindings, id, a, answer).Some? <==> Proves(bindings, id, a, answer)
  {
    ZeroExactly(bindings, id, a, answer);
    CostIsProved(bindings, id, a, answer);
  }

  lemma PassIsTold(bindings: Bindings, before: Database, after: Database, answers: string -> Option<Json>,
                   ids: seq<string>, raised: bool)
    requires ReleasesOnlyConcluded(bindings, before, after, answers)
    requires !raised ==> ListedSettled(bindings, before, after, answers, ids)
    ensures PassAsTold(bindings, before, after, answers, ids, raised)
  {
    forall key | key in before.sessions && after.sessions[key].pending != before.sessions[key].pending
      ensures exists id | id in before.attempts ::
        && before.attempts[id].requestId == before.sessions[key].pending.value
        && ReportsEither(bindings, id, before.attempts[id], answers(id))
    {
      var id :| id in before.attempts && before.attempts[id].requestId == before.sessions[key].pending.value
        && Conclusive(bindings, id, before.attempts[id], answers(id));
      ConclusiveExactly(bindings, id, before.attempts[id], answers(id));
    }
    if !raised {
      forall k | 0 <= k < |ids| && Proves(bindings, ids[k], before.attempts[ids[k]], answers(ids[k]))
        ensures after.attempts[ids[k]].status == Settled
      {
        ConclusiveExactly(bindings, ids[k], before.attempts[ids[k]], answers(ids[k]));
      }
    }
  }

  /** No session changes its pending request, except that the attempt's own request may be let go. */
  predicate OnlyReleases(before: Database, after: Database, a: Attempt) {
    && before.sessions.Keys == after.sessions.Keys
    && forall key | key in before.sessions ::
      || after.sessions[key].pending == before.sessions[key].pending
      || (key == (a.client, a.session) && before.sessions[key].pending == Some(a.requestId)
            && after.sessions[key].pending == None)
  }

  /** A conclusive receipt exists for an attempt of the request. */
  ghost predicate Concluded(bindings: Bindings, db: Database, request: string, answers: string -> Option<Json>) {
    exists id | id in db.attempts ::
      db.attempts[id].requestId == request && Conclusive(bindings, id, db.attempts[id], answers(id))
  }

  ghost predicate ReleasesOnlyConcluded(bindings: Bindings, before: Database, after: Database,
                                        answers: string -> Option<Json>)
  {
    && before.sessions.Keys == after.sessions.Keys
    && forall key | key in before.sessions && after.sessions[key].pending != before.sessions[key].pending ::
      && after.sessions[key].pending == None && before.sessions[key].pending.Some?
      && Concluded(bindings, before, before.sessions[key].pending.value, answers)
  }

  lemma ReleasesCompose(bindings: Bindings, start: Database, before: Database, after: Database, id: string,
                        answers: string -> Option<Json>)
    requires ReleasesOnlyConcluded(bindings, start, before, answers)
    requires id in start.attempts && id in before.attempts
    requires Progress(bindings, id, start.attempts[id], before.attempts[id])
    requires OnlyReleases(before, after, before.attempts[id])
    requires Conclusive(bindings, id, before.attempts[id], answers(id)) || after == before
    ensures ReleasesOnlyConcluded(bindings, start, after, answers)
  {
    SameEvidence(bindings, id, start.attempts[id], before.attempts[id], answers(id));
    forall key | key in start.sessions && after.sessions[key].pending != start.sessions[key].pending
      ensures after.sessions[key].pending == None && start.sessions[key].pending.Some?
        && Concluded(bindings, start, start.sessions[key].pending.value, answers)
    {
      if before.sessions[key].pending == start.sessions[key].pending {
        assert start.attempts[id].requestId == before.attempts[id].requestId;
      }
    }
  }

  /** Receipts speak about what was admitted, which no progress changes. */
  lemma SameEvidence(bindings: Bindings, id: string, a: Attempt, b: Attempt, answer: Option<Json>)
    requires Progress(bindings, id, a, b)
    ensures NativeReceipt(bindings, id, a, answer) == NativeReceipt(bindings, id, b, answer)
    ensures forall r :: ReceiptZero(a, r) == ReceiptZero(b, r) && ReceiptUsage(a, r) == ReceiptUsage(b, r)
    ensures a.requestId == b.requestId && a.client == b.client && a.session == b.session
  {
  }

  lemma FinishKeepsPending(db: Database, id: string, cost: Option<int>, complete: bool, successful: bool)
    ensures Finish(db, id, cost, complete, successful).sessions.Keys == db.sessions.Keys
    ensures forall key | key in db.sessions ::
      Finish(db, id, cost, complete, successful).sessions[key].pending == db.sessions[key].pending
  {
    if Finishable(db, id, cost) {
      var a := FinishedAttempt(db.attempts[id], cost, complete);
      assert Finish(db, id, cost, complete, successful).sessions == if successful then Bound(db, a) else db.sessions;
    }
  }
}
