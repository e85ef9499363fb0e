/** Exactly which steps of a run keep every day within its limit. */
module DayLimit {
  import opened Basics
  import opened Totals
  import opened Budget
  import opened Journal
  import opened Ledger
  import opened LedgerTheorems

  ghost predicate WithinLimit(s: State) {
    forall day :: Committed(EffectiveTable(s), day) <= DAY_LIMIT
  }

  /** The costs a step puts on liabilities that are still reserved: a settlement, each row of a reconciliation, or
      before the first import the finish of a paid attempt. */
  function Charges(s: State, step: Step): map<string, nat> {
    match step
    case SettleOne(id, due) => map[id := due]
    case ReconcileAll(costs) => costs
    case FinishAttempt(id, cost, complete, _) =>
      var due := ToSettle(s.db, id, cost, complete);
      if s.book.None? && due.Some? then map[id := due.value] else map[]
    case _ => map[]
  }

  function ExcessOf(l: Liability, cost: Option<nat>, day: string): int {
    if cost.Some? && !l.settled && l.date == day then cost.value - l.reserved else 0
  }

  function ExcessColumn(t: Table, costs: map<string, nat>, day: string): map<string, int> {
    map id | id in t :: ExcessOf(t[id], if id in costs then Some(costs[id]) else None, day)
  }

  /** By how much these costs exceed, together, the reservations they replace on a day. */
  ghost function Excess(t: Table, costs: map<string, nat>, day: string): int {
    Sum(ExcessColumn(t, costs, day))
  }

  /** On every day the excess of the step still fits; a caller can tell before the commit. */
  ghost predicate StillFits(s: State, step: Step) {
    forall day ::
      Committed(EffectiveTable(s), day) + Excess(EffectiveTable(s), Charges(s, step), day) <= DAY_LIMIT
  }

  lemma RowExcess(l: Liability, cost: nat, day: string)
    requires !l.settled && l.cost.None?
    ensures SpentOf(SettledRow(l, cost), day) + ReservedOf(SettledRow(l, cost), day) ==
      SpentOf(l, day) + ReservedOf(l, day) + ExcessOf(l, Some(cost), day)
  {
  }

  lemma ReconcileTotals(t: Table, costs: map<string, nat>, day: string)
    requires Budget.WellFormed(t)
    ensures Committed(ReconcileTable(t, costs), day) == Committed(t, day) + Excess(t, costs, day)
  {
    forall id | id in t
      ensures CommittedColumn(ReconcileTable(t, costs), day)[id] ==
        CommittedColumn(t, day)[id] + ExcessColumn(t, costs, day)[id]
    {
      if id in costs && !t[id].settled {
        RowExcess(t[id], costs[id], day);
      }
    }
    CommittedTotal(t, day);
    CommittedTotal(ReconcileTable(t, costs), day);
    SumAdd(CommittedColumn(ReconcileTable(t, costs), day), CommittedColumn(t, day), ExcessColumn(t, costs, day));
  }

  /** One cost on one reserved liability: the excess is what it costs above its reservation. */
  lemma ExcessOfOne(t: Table, id: string, cost: nat, day: string)
    requires Budget.WellFormed(t)
    ensures Excess(t, map[id := cost], day) ==
      if Unsettled(t, id) && t[id].date == day then cost - t[id].reserved else 0
  {
    ReconcileTotals(t, map[id := cost], day);
    SettleIsReconcile(t, id, cost);
    if Unsettled(t, id) {
      SettleTotals(t, id, cost, day);
    }
  }

  lemma NoExcess(t: Table, day: string)
    ensures Excess(t, map[], day) == 0
  {
    ZeroSum(ExcessColumn(t, map[], day));
  }

  lemma EffectiveIsWellFormed(s: State)
    requires Inv(s)
    ensures Budget.WellFormed(EffectiveTable(s))
  {
  }

  /** Every step but a reservation acts on the limit's table by its charges alone. */
  lemma EffectiveAfter(s: State, step: Step)
    requires Inv(s) && Enabled(s, step) && !step.ReservePaid?
    ensures EffectiveTable(Next(s, step)) == ReconcileTable(EffectiveTable(s), Charges(s, step))
  {
    var t := EffectiveTable(s);
    assert ReconcileTable(t, map[]) == t;
    match step
    case SettleOne(id, due) => SettledEffective(s, id, due);
    case ReconcileAll(costs) => ReconciledEffective(s, costs);
    case FinishAttempt(id, cost, complete, successful) => FinishedEffective(s, id, cost, complete, successful);
    case ImportLiabilities => ImportedEffective(s);
    case AdmitIncluded(id, a, date) => AdmittedRows(s.db, Next(s, step).db, id, NewAttempt(a, date));
    case _ =>
  }

  lemma SettledEffective(s: State, id: string, due: nat)
    requires Inv(s) && Enabled(s, SettleOne(id, due))
    ensures EffectiveTable(Next(s, SettleOne(id, due))) == ReconcileTable(EffectiveTable(s), map[id := due])
  {
    SettleIsReconcile(EffectiveTable(s), id, due);
    if s.book.None? {
      SettledJournal(s.db, map[id := due]);
    }
  }

  lemma ReconciledEffective(s: State, costs: map<string, nat>)
    requires Inv(s) && Enabled(s, ReconcileAll(costs))
    ensures EffectiveTable(Next(s, ReconcileAll(costs))) == ReconcileTable(EffectiveTable(s), costs)
  {
    if s.book.None? {
      SettledJournal(s.db, costs);
    }
  }

  /** Costs of settled attempts change nothing in the liabilities of their own journal. */
  lemma SettledJournal(db: Database, costs: map<string, nat>)
    requires forall id | id in costs :: SettledAt(db, id, costs[id])
    ensures ReconcileTable(JournalTable(db), costs) == JournalTable(db)
  {
  }

  lemma FinishedEffective(s: State, id: string, cost: Option<int>, complete: bool, successful: bool)
    requires Inv(s) && Enabled(s, Step.FinishAttempt(id, cost, complete, successful))
    ensures
      var step := Step.FinishAttempt(id, cost, complete, successful);
      EffectiveTable(Next(s, step)) == ReconcileTable(EffectiveTable(s), Charges(s, step))
  {
    var step := Step.FinishAttempt(id, cost, complete, successful);
    assert ReconcileTable(EffectiveTable(s), map[]) == EffectiveTable(s);
    if s.book.None? && Finishable(s.db, id, cost) {
      var a := FinishedAttempt(s.db.attempts[id], cost, complete);
      FinishWrites(s.db, id, cost, complete, successful);
      JournalTableAfterFinish(s.db, Next(s, step).db, id, a);
      if a.billing.Paid? && a.cost.Some? {
        SettleIsReconcile(JournalTable(s.db), id, a.cost.value);
      }
    }
  }

  lemma ImportedEffective(s: State)
    requires Inv(s) && Enabled(s, ImportLiabilities)
    ensures EffectiveTable(Next(s, ImportLiabilities)) == EffectiveTable(s)
  {
    ImportStep(s);
    if s.book.None? {
      FirstImport(s.db);
    }
  }

  lemma ReservationKeepsLimit(s: State, step: Step)
    requires Inv(s) && Enabled(s, step) && step.ReservePaid? && WithinLimit(s)
    ensures WithinLimit(Next(s, step))
  {
    forall day ensures Committed(EffectiveTable(Next(s, step)), day) <= DAY_LIMIT {
      ReserveTotals(s.book.value, step.id, step.date, step.admission.reserve, day);
    }
  }

  /** One step, from a state within the limit, stays within it if and only if its excess still fits. */
  lemma StepKeepsLimitExactly(s: State, step: Step)
    requires Inv(s) && Enabled(s, step) && WithinLimit(s)
    ensures WithinLimit(Next(s, step)) <==> StillFits(s, step)
  {
    if step.ReservePaid? {
      ReservationKeepsLimit(s, step);
      forall day ensures Excess(EffectiveTable(s), Charges(s, step), day) == 0 {
        NoExcess(EffectiveTable(s), day);
      }
    } else {
      EffectiveAfter(s, step);
      EffectiveIsWellFormed(s);
      forall day
        ensures Committed(EffectiveTable(Next(s, step)), day) ==
          Committed(EffectiveTable(s), day) + Excess(EffectiveTable(s), Charges(s, step), day)
      {
        ReconcileTotals(EffectiveTable(s), Charges(s, step), day);
      }
    }
  }

  /** Over whole runs, whatever interleaves, fails or restarts: from a state within the limit every state stays within
      it if and only if every settling step still fits its days. */
  lemma LimitKeptExactly(states: seq<State>, steps: seq<Step>)
    requires IsRun(states, steps) && Inv(states[0]) && WithinLimit(states[0])
    ensures (forall i | 0 <= i < |states| :: WithinLimit(states[i]))
      <==> (forall k | 0 <= k < |steps| :: StillFits(states[k], steps[k]))
  {
    RunKeepsInv(states, steps);
    if forall k | 0 <= k < |steps| :: StillFits(states[k], steps[k]) {
      FittingRunKeepsLimit(states, steps, |steps|);
    }
    if forall i | 0 <= i < |states| :: WithinLimit(states[i]) {
      forall k | 0 <= k < |steps| ensures StillFits(states[k], steps[k]) {
        assert WithinLimit(states[k]) && WithinLimit(states[k + 1]);
        StepKeepsLimitExactly(states[k], steps[k]);
      }
    }
  }

  lemma {:induction false} FittingRunKeepsLimit(states: seq<State>, steps: seq<Step>, n: nat)
    requires IsRun(states, steps) && WithinLimit(states[0]) && n < |states|
    requires forall i | 0 <= i < |states| :: Inv(states[i])
    requires forall k | 0 <= k < |steps| :: StillFits(states[k], steps[k])
    ensures forall i | 0 <= i <= n :: WithinLimit(states[i])
  {
    if n > 0 {
      FittingRunKeepsLimit(states, steps, n - 1);
      StepKeepsLimitExactly(states[n - 1], steps[n - 1]);
    }
  }

  /** A step that settles nothing, and a settlement within its reservation, always fit. */
  lemma FitsWithinReservation(s: State, step: Step)
    requires Inv(s) && Enabled(s, step) && WithinLimit(s)
    requires forall id | id in Charges(s, step) && Unsettled(EffectiveTable(s), id) ::
      Charges(s, step)[id] <= EffectiveTable(s)[id].reserved
    ensures StillFits(s, step)
  {
    var t, costs := EffectiveTable(s), Charges(s, step);
    forall day ensures Excess(t, costs, day) <= 0 {
      var zero := map id | id in t :: 0;
      ZeroSum(zero);
      SumMonotone(ExcessColumn(t, costs, day), zero);
    }
  }
}
