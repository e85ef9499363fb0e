/** Runs driven by the service: where settled costs come from, and why a day stays within its limit. */
module ServerTheorems {
  import opened Basics
  import opened JsonValues
  import opened Catalog
  import opened RoutePricing
  import opened Budget
  import opened Journal
  import opened Ledger
  import opened LedgerTheorems
  import opened Receipts
  import opened Dispatch
  import opened Service

  /** Every finish of the run settles paid attempts on receipts only. Runs of the service are such runs, below. */
  ghost predicate Served(bindings: Bindings, states: seq<State>, steps: seq<Step>)
    requires |states| == |steps| + 1
  {
    forall i | 0 <= i < |steps| && steps[i].FinishAttempt? && steps[i].id in states[i].db.attempts ::
      Justified(bindings, steps[i].id, states[i].db.attempts[steps[i].id], steps[i].cost, steps[i].complete)
  }

  /** A settled paid attempt that was not settled to begin with has a matching native receipt for its cost. */
  ghost predicate Evidence(bindings: Bindings, start: Database, db: Database) {
    forall id | SettledPaid(db, id) && !SettledPaid(start, id) ::
      exists receipt: Dict :: Backs(bindings, id, db.attempts[id], receipt, db.attempts[id].cost.value)
  }

  lemma StepKeepsEvidence(bindings: Bindings, start: Database, s: State, step: Step)
    requires Enabled(s, step) && Inv(s) && Evidence(bindings, start, s.db)
    requires step.FinishAttempt? && step.id in s.db.attempts ==>
      Justified(bindings, step.id, s.db.attempts[step.id], step.cost, step.complete)
    requires forall id | SettledPaid(start, id) :: SettledPaid(s.db, id)
    ensures Evidence(bindings, start, Next(s, step).db)
    ensures forall id | SettledPaid(start, id) :: SettledPaid(Next(s, step).db, id)
  {
    var db := Next(s, step).db;
    forall id | SettledPaid(start, id) ensures SettledPaid(db, id) {
      SettledStaysStep(s, step, id, s.db.attempts[id].cost.value);
    }
    forall id | SettledPaid(db, id) && !SettledPaid(start, id)
      ensures exists receipt: Dict :: Backs(bindings, id, db.attempts[id], receipt, db.attempts[id].cost.value)
    {
      EvidenceOfOne(bindings, start, s, step, id);
    }
  }

  /** A settled row is left as it is. */
  lemma SettledRowStays(s: State, step: Step, id: string)
    requires Enabled(s, step) && Inv(s) && SettledPaid(s.db, id)
    ensures id in Next(s, step).db.attempts && Next(s, step).db.attempts[id] == s.db.attempts[id]
  {
    if step.FinishAttempt? && Finishable(s.db, step.id, step.cost) {
      FinishWrites(s.db, step.id, step.cost, step.complete, step.successful);
    }
  }

  /** Only its own finish settles an attempt, at the cost given. */
  lemma OnlyFinishSettles(s: State, step: Step, id: string)
    requires Enabled(s, step) && Inv(s) && !SettledPaid(s.db, id) && SettledPaid(Next(s, step).db, id)
    ensures step.FinishAttempt? && step.id == id && Finishable(s.db, id, step.cost)
    ensures Next(s, step).db.attempts[id] == FinishedAttempt(s.db.attempts[id], step.cost, step.complete)
  {
    if step.FinishAttempt? && Finishable(s.db, step.id, step.cost) {
      FinishWrites(s.db, step.id, step.cost, step.complete, step.successful);
    }
  }

  lemma EvidenceOfOne(bindings: Bindings, start: Database, s: State, step: Step, id: string)
    requires Enabled(s, step) && Inv(s) && Evidence(bindings, start, s.db)
    requires step.FinishAttempt? && step.id in s.db.attempts ==>
      Justified(bindings, step.id, s.db.attempts[step.id], step.cost, step.complete)
    requires SettledPaid(Next(s, step).db, id) && !SettledPaid(start, id)
    ensures exists receipt: Dict ::
      Backs(bindings, id, Next(s, step).db.attempts[id], receipt, Next(s, step).db.attempts[id].cost.value)
  {
    if SettledPaid(s.db, id) {
      SettledRowStays(s, step, id);
    } else {
      OnlyFinishSettles(s, step, id);
      var before := s.db.attempts[id];
      var receipt: Dict :| Backs(bindings, id, before, receipt, step.cost.value);
      BacksAfterFinish(bindings, id, before, step.cost, step.complete, receipt);
    }
  }

  lemma BacksAfterFinish(bindings: Bindings, id: string, a: Attempt, cost: Option<int>, complete: bool, receipt: Dict)
    requires a.billing.Paid? && complete && cost.Some? && cost.value >= 0 && Backs(bindings, id, a, receipt, cost.value)
    ensures Backs(bindings, id, FinishedAttempt(a, cost, complete), receipt, cost.value)
    ensures FinishedAttempt(a, cost, complete).cost == Some(cost.value)
  {
  }

  lemma {:induction false} ServedRunsHaveEvidence(bindings: Bindings, states: seq<State>, steps: seq<Step>)
    requires IsRun(states, steps) && Inv(states[0]) && Served(bindings, states, steps)
    ensures Evidence(bindings, states[0].db, states[|steps|].db)
    ensures forall id | SettledPaid(states[0].db, id) :: SettledPaid(states[|steps|].db, id)
  {
    if steps != [] {
      var n := |steps|;
      var states', steps' := states[..n], steps[..n - 1];
      forall i | 0 <= i < |steps'| && steps'[i].FinishAttempt? && steps'[i].id in states'[i].db.attempts
        ensures Justified(bindings, steps'[i].id, states'[i].db.attempts[steps'[i].id], steps'[i].cost,
                          steps'[i].complete)
      {
        assert steps'[i] == steps[i] && states'[i] == states[i];
      }
      ServedRunsHaveEvidence(bindings, states', steps');
      assert states'[n - 1] == states[n - 1];
      RunKeepsInv(states, steps);
      StepKeepsEvidence(bindings, states[0].db, states[n - 1], steps[n - 1]);
    }
  }

  /** Whatever the service's code paths make of what they read and are told, their finishes are justified. */
  lemma ServiceRunsAreServed(bindings: Bindings, asked: map<string, Asked>, states: seq<State>, steps: seq<Step>,
                             whys: seq<Why>)
    requires ServiceRun(bindings, asked, states, steps, whys)
    ensures Served(bindings, states, steps)
  {
    forall i | 0 <= i < |steps| && steps[i].FinishAttempt? && steps[i].id in states[i].db.attempts
      ensures Justified(bindings, steps[i].id, states[i].db.attempts[steps[i].id], steps[i].cost, steps[i].complete)
    {
      ServedNow(bindings, asked, states, steps, whys, i);
      ActIsJustified(bindings, steps[i].id, states[i].db.attempts[steps[i].id], whys[i].act);
    }
  }

  /** Provenance over every run of the service, in any interleaving, with any crashes and outages: a paid attempt
      becomes settled only from a native receipt that names this attempt and its account's auth id, at zero for a call
      that never started, or at the price of the receipt's complete usage under the prices frozen at admission,
      whether dispatch, finalize or reconcile settles it. */
  lemma SettledOnlyFromReceipts(bindings: Bindings, asked: map<string, Asked>, states: seq<State>, steps: seq<Step>,
                                whys: seq<Why>)
    requires ServiceRun(bindings, asked, states, steps, whys) && Inv(states[0])
    ensures Evidence(bindings, states[0].db, states[|steps|].db)
    ensures forall id | SettledPaid(states[0].db, id) :: SettledPaid(states[|steps|].db, id)
  {
    ServiceRunsAreServed(bindings, asked, states, steps, whys);
    ServedRunsHaveEvidence(bindings, states, steps);
  }

  /** The same for the calls on the objects: each of them, and so any sequence of them, is such a run. */
  lemma CallsSettleFromReceipts(bindings: Bindings, asked: map<string, Asked>, s: State, s': State)
    requires Inv(s) && ServedReaches(bindings, asked, s, s')
    ensures Inv(s') && Evidence(bindings, s.db, s'.db)
  {
    var states, steps, whys :|
      ServiceRun(bindings, asked, states, steps, whys) && states[0] == s && states[|steps|] == s';
    RunKeepsInv(states, steps);
    SettledOnlyFromReceipts(bindings, asked, states, steps, whys);
  }

  // ------------------------------------------------------------ the day limit, from what was asked

  /** A paid request that was sent reserves for the upstream context bound and the output bound in its body. */
  lemma PreparedReserve(q: Asked)
    requires q.route.paid && q.Prepared().Sent?
    ensures q.route.prices.Some? && Verified(ProofFor(q.route, q.binding))
    ensures OutputKey(q.protocol) in q.Prepared().body && IntFrom(q.Prepared().body[OutputKey(q.protocol)], 0)
    ensures q.Prepared().reserve
         == ReserveFor(InputBound(q.model, q.route, q.binding), q.Prepared().body[OutputKey(q.protocol)].i,
                       q.route.prices.value)
  {
  }

  /** The usage an upstream that honours the bounds it was sent can report. */
  ghost predicate Honours(q: Asked, u: Usage) {
    q.route.paid && q.Prepared().Sent? ==> (
      PreparedReserve(q);
      Within(u, InputBound(q.model, q.route, q.binding), q.Prepared().body[OutputKey(q.protocol)].i))
  }

  /** The attempt was admitted for what was asked. */
  predicate PricedBy(asked: map<string, Asked>, id: string, a: Attempt) {
    && id in asked && asked[id].route.paid && asked[id].Prepared().Sent?
    && a.prices == asked[id].route.prices && a.reserved == asked[id].Prepared().reserve
  }

  /** True of any state when the service starts on an empty journal. */
  ghost predicate AllPriced(asked: map<string, Asked>, s: State) {
    && (forall id | IsPaid(s.db, id) && s.db.attempts[id].status != Settled :: PricedBy(asked, id, s.db.attempts[id]))
    && (s.lock.Admitting? ==> PricedBy(asked, s.lock.id, s.lock.attempt))
  }

  /** The one thing asked of the outside: a receipt the service acts on reports usage within the bounds that were sent
      with that attempt. */
  ghost predicate HonestUpstream(bindings: Bindings, asked: map<string, Asked>, states: seq<State>, steps: seq<Step>,
                                 whys: seq<Why>)
    requires |states| == |steps| + 1 && |whys| == |steps|
  {
    forall i |
      && 0 <= i < |steps|
      && steps[i].FinishAttempt?
      && steps[i].id in asked
      && steps[i].id in states[i].db.attempts ::
      HonestAnswer(bindings, asked[steps[i].id], steps[i].id, states[i].db.attempts[steps[i].id], AnswerOf(whys[i].act))
  }

  ghost predicate HonestAnswer(bindings: Bindings, q: Asked, id: string, a: Attempt, answer: Option<Json>) {
    var usage := ReceiptUsage(a, NativeReceipt(bindings, id, a, answer));
    usage.Some? ==> Honours(q, usage.value)
  }

  /** On an honest answer no code path asks for more than was reserved. */
  lemma HonestActsFit(bindings: Bindings, asked: map<string, Asked>, id: string, a: Attempt, act: Act)
    requires a.billing.Paid? && PricedBy(asked, id, a) && HonestAnswer(bindings, asked[id], id, a, AnswerOf(act))
    requires FinishOf(bindings, id, a, act).Some?
    ensures
      var (cost, complete, _) := FinishOf(bindings, id, a, act).value;
      complete && cost.Some? ==> cost.value <= a.reserved
  {
    var usage := ReceiptUsage(a, NativeReceipt(bindings, id, a, AnswerOf(act)));
    if usage.Some? {
      HonestUsageFits(asked[id], a, usage.value);
    }
  }

  lemma HonestUsageFits(q: Asked, a: Attempt, u: Usage)
    requires q.route.paid && q.Prepared().Sent? && a.prices == q.route.prices && a.reserved == q.Prepared().reserve
    requires Honours(q, u)
    ensures CostFor(Some(u), a.prices).Some? && CostFor(Some(u), a.prices).value <= a.reserved
  {
    PreparedReserve(q);
    CostWithinReserve(u, InputBound(q.model, q.route, q.binding), q.Prepared().body[OutputKey(q.protocol)].i,
                      q.route.prices.value);
  }

  lemma HonestIsWithinReservation(bindings: Bindings, asked: map<string, Asked>, states: seq<State>, steps: seq<Step>,
                                  whys: seq<Why>, i: nat)
    requires ServiceRun(bindings, asked, states, steps, whys) && HonestUpstream(bindings, asked, states, steps, whys)
    requires i < |steps| && AllPriced(asked, states[i])
    ensures WithinReservation(states[i], steps[i])
  {
    if steps[i].FinishAttempt? && ToSettle(states[i].db, steps[i].id, steps[i].cost, steps[i].complete).Some? {
      var id := steps[i].id;
      assert IsPaid(states[i].db, id) && states[i].db.attempts[id].status != Settled;
      ServedNow(bindings, asked, states, steps, whys, i);
      HonestActsFit(bindings, asked, id, states[i].db.attempts[id], whys[i].act);
    }
  }

  lemma StepKeepsPriced(bindings: Bindings, asked: map<string, Asked>, states: seq<State>, steps: seq<Step>,
                        whys: seq<Why>, i: nat)
    requires ServiceRun(bindings, asked, states, steps, whys) && i < |steps| && AllPriced(asked, states[i])
    ensures AllPriced(asked, states[i + 1])
  {
    assert ServedAt(bindings, asked, states, steps, whys, i);
    var s, s' := states[i], states[i + 1];
    forall id | IsPaid(s'.db, id) && s'.db.attempts[id].status != Settled
      ensures PricedBy(asked, id, s'.db.attempts[id])
    {
      PricedOfOne(asked, s, steps[i], id);
    }
  }

  lemma PricedOfOne(asked: map<string, Asked>, s: State, step: Step, id: string)
    requires Enabled(s, step) && AllPriced(asked, s)
    requires IsPaid(Next(s, step).db, id) && Next(s, step).db.attempts[id].status != Settled
    ensures PricedBy(asked, id, Next(s, step).db.attempts[id])
  {
    if step.FinishAttempt? && Finishable(s.db, step.id, step.cost) {
      FinishWrites(s.db, step.id, step.cost, step.complete, step.successful);
    }
    if id in s.db.attempts {
      assert IsPaid(s.db, id) && s.db.attempts[id].status != Settled;
    }
  }

  lemma {:induction false} RunStaysPriced(bindings: Bindings, asked: map<string, Asked>, states: seq<State>,
                                          steps: seq<Step>, whys: seq<Why>, i: nat)
    requires ServiceRun(bindings, asked, states, steps, whys) && AllPriced(asked, states[0]) && i < |states|
    ensures AllPriced(asked, states[i])
  {
    if i > 0 {
      RunStaysPriced(bindings, asked, states, steps, whys, i - 1);
      StepKeepsPriced(bindings, asked, states, steps, whys, i - 1);
    }
  }

  /** End to end: on every run of the service whose open attempts were admitted for what was asked, if the upstream
      honours the bounds it is sent, then whatever interleaves, crashes or fails no day ever spends and reserves more
      than its limit, and the authority never understates the journal. */
  lemma HonestUpstreamKeepsDayLimit(bindings: Bindings, asked: map<string, Asked>, states: seq<State>, steps: seq<Step>,
                                    whys: seq<Why>, i: nat, day: string)
    requires ServiceRun(bindings, asked, states, steps, whys) && HonestUpstream(bindings, asked, states, steps, whys)
    requires Inv(states[0]) && NoOverrun(states[0].db) && AllPriced(asked, states[0]) && i < |states|
    ensures Committed(EffectiveTable(states[i]), day) <= DAY_LIMIT
    ensures states[i].book.Some? ==> Committed(states[i].book.value, day) >= Committed(JournalTable(states[i].db), day)
  {
    forall k | 0 <= k < |steps| ensures WithinReservation(states[k], steps[k]) {
      RunStaysPriced(bindings, asked, states, steps, whys, k);
      HonestIsWithinReservation(bindings, asked, states, steps, whys, k);
    }
    RunKeepsInv(states, steps);
    DayLimitHolds(states, steps);
    if states[i].book.Some? {
      NeverUnderstated(states[i], day);
    }
  }

  /** A service that starts on an empty journal needs nothing but the honest upstream. */
  lemma FreshServiceKeepsDayLimit(bindings: Bindings, asked: map<string, Asked>, states: seq<State>, steps: seq<Step>,
                                  whys: seq<Why>, i: nat, day: string)
    requires ServiceRun(bindings, asked, states, steps, whys) && HonestUpstream(bindings, asked, states, steps, whys)
    requires states[0] == EmptyService(states[0].db.policy.version, states[0].db.sessions, states[0].db.requests)
    requires i < |states|
    ensures Committed(EffectiveTable(states[i]), day) <= DAY_LIMIT
  {
    EmptyServiceStarts(states[0].db.policy.version, states[0].db.sessions, states[0].db.requests);
    InitHolds(states[0]);
    HonestUpstreamKeepsDayLimit(bindings, asked, states, steps, whys, i, day);
  }

  function EmptyService(version: nat, sessions: map<(string, string), Session>,
                        requests: map<(string, string), string>): State
  {
    State(Database(Policy(version, DAY_LIMIT), sessions, requests, map[], [], false), None, Free, {}, {})
  }

  lemma EmptyServiceStarts(version: nat, sessions: map<(string, string), Session>,
                           requests: map<(string, string), string>)
    ensures Init(EmptyService(version, sessions, requests))
  {
    var s := EmptyService(version, sessions, requests);
    assert JournalTable(s.db) == map[];
    forall day ensures Committed(JournalTable(s.db), day) <= DAY_LIMIT + Overrun(JournalTable(s.db), day) {
      EmptyTable(day);
      OverrunNonnegative(JournalTable(s.db), day);
    }
  }
}
