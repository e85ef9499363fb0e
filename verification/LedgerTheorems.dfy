/** What the ledger guarantees in every reachable state and over every run. */
module LedgerTheorems {
  import opened Basics
  import opened Totals
  import opened Budget
  import opened Journal
  import opened Ledger

  // ------------------------------------------------------------ exact accounting between the two databases

  ghost function CommittedColumn(t: Table, day: string): map<string, int> {
    map id | id in t :: SpentOf(t[id], day) + ReservedOf(t[id], day)
  }

  lemma CommittedTotal(t: Table, day: string)
    ensures Sum(CommittedColumn(t, day)) == Committed(t, day)
  {
    SumAdd(CommittedColumn(t, day), map id | id in t :: SpentOf(t[id], day),
           map id | id in t :: ReservedOf(t[id], day));
  }

  /** A liability no paid attempt stands behind: its admission failed after the authority's commit. */
  ghost predicate IsOrphan(db: Database, t: Table, id: string) {
    id in t && !IsPaid(db, id)
  }

  ghost function OrphanOf(db: Database, t: Table, id: string, day: string): int
    requires id in t
  {
    if IsPaid(db, id) then 0 else ReservedOf(t[id], day)
  }

  ghost function OrphanColumn(db: Database, t: Table, day: string): map<string, int> {
    map id | id in t :: OrphanOf(db, t, id, day)
  }

  /** What orphans keep reserved on a day. */
  ghost function Orphans(db: Database, t: Table, day: string): int {
    Sum(OrphanColumn(db, t, day))
  }

  ghost function LagOf(db: Database, t: Table, id: string, day: string): int
    requires id in t
  {
    if SettledPaid(db, id) && !t[id].settled && t[id].date == day then t[id].reserved - db.attempts[id].cost.value
    else 0
  }

  ghost function LagColumn(db: Database, t: Table, day: string): map<string, int> {
    map id | id in t :: LagOf(db, t, id, day)
  }

  /** What committed settlements would free on a day once the authority learns of them. */
  ghost function Lag(db: Database, t: Table, day: string): int {
    Sum(LagColumn(db, t, day))
  }

  ghost function BackedColumn(db: Database, t: Table, day: string): map<string, int> {
    map id | id in t ::
      if IsPaid(db, id) then SpentOf(LiabilityOf(db.attempts[id]), day) + ReservedOf(LiabilityOf(db.attempts[id]), day)
      else 0
  }

  lemma BackedTotal(db: Database, t: Table, day: string)
    requires Covered(db, t)
    ensures Sum(BackedColumn(db, t, day)) == Committed(JournalTable(db), day)
  {
    CommittedTotal(JournalTable(db), day);
    SumSupport(CommittedColumn(JournalTable(db), day), BackedColumn(db, t, day));
  }

  lemma RowAccounting(db: Database, t: Table, id: string, day: string)
    requires Journal.WellFormed(db) && BooksAgree(db, t) && id in t
    ensures CommittedColumn(t, day)[id] ==
      BackedColumn(db, t, day)[id] + OrphanColumn(db, t, day)[id] + LagColumn(db, t, day)[id]
  {
  }

  /** Conservation: on every day, and wherever a crash has left the two databases, the authority holds the
      journal's own liability, plus orphans, plus what late settlements have yet to free; nothing is lost. */
  lemma Conservation(s: State, day: string)
    requires Inv(s) && s.book.Some?
    ensures Committed(s.book.value, day) ==
      Committed(JournalTable(s.db), day) + Orphans(s.db, s.book.value, day) + Lag(s.db, s.book.value, day)
  {
    var t := s.book.value;
    var rest := map id | id in t :: OrphanColumn(s.db, t, day)[id] + LagColumn(s.db, t, day)[id];
    forall id | id in t ensures CommittedColumn(t, day)[id] == BackedColumn(s.db, t, day)[id] + rest[id] {
      RowAccounting(s.db, t, id, day);
    }
    SumAdd(rest, OrphanColumn(s.db, t, day), LagColumn(s.db, t, day));
    SumAdd(CommittedColumn(t, day), BackedColumn(s.db, t, day), rest);
    CommittedTotal(t, day);
    BackedTotal(s.db, t, day);
  }

  /** Settlements that stayed within their reservations. */
  ghost predicate NoOverrun(db: Database) {
    forall id | SettledPaid(db, id) :: db.attempts[id].cost.value <= db.attempts[id].reserved
  }

  lemma Nonnegative(m: map<string, int>)
    requires forall k | k in m :: m[k] >= 0
    ensures Sum(m) >= 0
  {
    var zero := map k | k in m :: 0;
    ZeroSum(zero);
    SumMonotone(zero, m);
  }

  /** While settlements stay within their reservations, a day's books never understate the journal. */
  lemma NeverUnderstated(s: State, day: string)
    requires Inv(s) && s.book.Some? && NoOverrun(s.db)
    ensures Orphans(s.db, s.book.value, day) >= 0 && Lag(s.db, s.book.value, day) >= 0
    ensures Committed(s.book.value, day) >= Committed(JournalTable(s.db), day)
  {
    Conservation(s, day);
    Nonnegative(OrphanColumn(s.db, s.book.value, day));
    forall id | id in s.book.value ensures LagColumn(s.db, s.book.value, day)[id] >= 0 {
      if SettledPaid(s.db, id) {
        assert IsPaid(s.db, id);
      }
    }
    Nonnegative(LagColumn(s.db, s.book.value, day));
  }

  // ------------------------------------------------------------ the day limit

  /** The guard of a settlement that keeps the limit: its cost fits its own reservation. */
  ghost predicate WithinReservation(s: State, step: Step) {
    step.FinishAttempt? && ToSettle(s.db, step.id, step.cost, step.complete).Some? ==>
      ToSettle(s.db, step.id, step.cost, step.complete).value <= s.db.attempts[step.id].reserved
  }

  lemma StepKeepsNoOverrun(s: State, step: Step)
    requires Inv(s) && Enabled(s, step) && NoOverrun(s.db) && WithinReservation(s, step)
    ensures NoOverrun(Next(s, step).db)
  {
    if step.FinishAttempt? && Finishable(s.db, step.id, step.cost) {
      FinishWrites(s.db, step.id, step.cost, step.complete, step.successful);
      var a := FinishedAttempt(s.db.attempts[step.id], step.cost, step.complete);
      var db' := Next(s, step).db;
      forall id | SettledPaid(db', id) ensures db'.attempts[id].cost.value <= db'.attempts[id].reserved {
        if id != step.id {
          assert SettledPaid(s.db, id);
        }
      }
    } else {
      var db' := Next(s, step).db;
      forall id | SettledPaid(db', id) ensures db'.attempts[id].cost.value <= db'.attempts[id].reserved {
        assert SettledPaid(s.db, id);
      }
    }
  }

  lemma NoOverrunBounds(s: State, day: string)
    requires Inv(s) && NoOverrun(s.db)
    ensures Committed(EffectiveTable(s), day) <= DAY_LIMIT
  {
    var t := EffectiveTable(s);
    var column := map id | id in t :: OverrunOf(t[id], day);
    forall id | id in t ensures column[id] == 0 {
      if t[id].settled {
        assert SettledPaid(s.db, id);
        if s.book.Some? {
          assert IsPaid(s.db, id);
        }
      }
    }
    ZeroSum(column);
  }

  /** The day limit over every run, from a journal that respected it: whatever interleaves, fails or
      restarts, no day's spent and reserved money exceeds the limit while settlements fit their reservations. */
  lemma {:induction false} DayLimitHolds(states: seq<State>, steps: seq<Step>)
    requires IsRun(states, steps) && Inv(states[0]) && NoOverrun(states[0].db)
    requires forall i | 0 <= i < |steps| :: WithinReservation(states[i], steps[i])
    ensures forall i, day | 0 <= i < |states| :: Committed(EffectiveTable(states[i]), day) <= DAY_LIMIT
    ensures forall i | 0 <= i < |states| :: NoOverrun(states[i].db)
  {
    RunKeepsInv(states, steps);
    NoOverrunOverRuns(states, steps);
    forall i, day | 0 <= i < |states| ensures Committed(EffectiveTable(states[i]), day) <= DAY_LIMIT {
      NoOverrunBounds(states[i], day);
    }
  }

  lemma {:induction false} NoOverrunOverRuns(states: seq<State>, steps: seq<Step>)
    requires IsRun(states, steps) && Inv(states[0]) && NoOverrun(states[0].db)
    requires forall i | 0 <= i < |steps| :: WithinReservation(states[i], steps[i])
    ensures forall i | 0 <= i < |states| :: NoOverrun(states[i].db)
  {
    if steps != [] {
      var n := |steps|;
      NoOverrunOverRuns(states[..n], steps[..n - 1]);
      RunKeepsInv(states, steps);
      assert states[..n][n - 1] == states[n - 1];
      StepKeepsNoOverrun(states[n - 1], steps[n - 1]);
      forall i | 0 <= i < |states| ensures NoOverrun(states[i].db) {
        if i < n {
          assert states[..n][i] == states[i];
        }
      }
    }
  }

  /** Without that guard the limit still cannot be passed by more than the overruns themselves. */
  lemma DayLimitWithOverrun(states: seq<State>, steps: seq<Step>, i: nat, day: string)
    requires IsRun(states, steps) && Init(states[0]) && i < |states|
    ensures Committed(EffectiveTable(states[i]), day) <= DAY_LIMIT + Overrun(EffectiveTable(states[i]), day)
  {
    InitHolds(states[0]);
    RunKeepsInv(states, steps);
  }

  /** What one settlement does to its day, exactly. */
  lemma SettleTotals(t: Table, id: string, cost: nat, day: string)
    requires Budget.WellFormed(t) && Unsettled(t, id)
    ensures Committed(SettleTable(t, id, cost), day) ==
      Committed(t, day) + if t[id].date == day then cost - t[id].reserved else 0
  {
    CommittedTotal(t, day);
    CommittedTotal(SettleTable(t, id, cost), day);
    SettledColumn(t, id, cost, day);
    SumReplace(CommittedColumn(t, day), id, if t[id].date == day then cost else 0);
  }

  lemma SettledColumn(t: Table, id: string, cost: nat, day: string)
    requires Budget.WellFormed(t) && Unsettled(t, id)
    ensures CommittedColumn(SettleTable(t, id, cost), day) ==
      CommittedColumn(t, day)[id := if t[id].date == day then cost else 0]
    ensures CommittedColumn(t, day)[id] == if t[id].date == day then t[id].reserved else 0
  {
  }

  /** So a settlement keeps its day within the limit exactly when the excess over its reservation still fits. */
  lemma SettlementKeepsLimitExactly(t: Table, id: string, cost: nat)
    requires Budget.WellFormed(t) && Unsettled(t, id)
    ensures Committed(SettleTable(t, id, cost), t[id].date) <= DAY_LIMIT
      <==> Committed(t, t[id].date) + cost <= DAY_LIMIT + t[id].reserved
  {
    SettleTotals(t, id, cost, t[id].date);
  }

  lemma EmptyTable(day: string)
    ensures Committed(map[], day) == 0
  {
    var t: Table := map[];
    assert (map id | id in t :: SpentOf(t[id], day)) == map[];
    assert (map id | id in t :: ReservedOf(t[id], day)) == map[];
  }

  // ------------------------------------------------------------ convergence

  /** The state after one reconciliation that read the journal and reached the authority. */
  ghost function Reconciled(s: State): State {
    var read := Next(s, ReadSettled);
    Next(read, ReconcileAll(SettledCosts(s.db)))
  }

  /** One successful reconciliation converges from any reachable state: per day the authority has spent
      exactly the settled paid costs, and reserves exactly the open paid reservations plus orphans. */
  lemma ReconciliationConverges(s: State, day: string)
    requires Inv(s) && s.book.Some?
    ensures
      var r := Reconciled(s);
      && Inv(r) && r.book.Some? && r.db == s.db
      && Spent(r.book.value, day) == Spent(JournalTable(s.db), day)
      && Reserved(r.book.value, day) == Reserved(JournalTable(s.db), day) + Orphans(r.db, r.book.value, day)
      && Lag(r.db, r.book.value, day) == 0
  {
    var r := Reconciled(s);
    ReconciledIsSettled(s);
    ZeroSum(LagColumn(r.db, r.book.value, day));
    SpentAgrees(r, day);
    Conservation(r, day);
  }

  lemma ReconciledIsSettled(s: State)
    requires Inv(s) && s.book.Some?
    ensures
      var r := Reconciled(s);
      && Inv(r) && r.book.Some? && r.db == s.db
      && forall id | id in r.book.value :: SettledPaid(s.db, id) ==> r.book.value[id].settled
  {
    StepKeepsInv(s, ReadSettled);
    StepKeepsInv(Next(s, ReadSettled), ReconcileAll(SettledCosts(s.db)));
  }

  lemma SpentAgrees(r: State, day: string)
    requires Inv(r) && r.book.Some?
    requires forall id | id in r.book.value :: SettledPaid(r.db, id) ==> r.book.value[id].settled
    ensures Spent(r.book.value, day) == Spent(JournalTable(r.db), day)
  {
    var t := r.book.value;
    forall id | id in t
      ensures SpentOf(t[id], day) == if id in JournalTable(r.db) then SpentOf(JournalTable(r.db)[id], day) else 0
    {
      if id in JournalTable(r.db) {
        assert IsPaid(r.db, id);
      }
    }
    SumSupport(map id | id in JournalTable(r.db) :: SpentOf(JournalTable(r.db)[id], day),
               map id | id in t :: SpentOf(t[id], day));
  }

  /** Running it again changes nothing. */
  lemma ReconciliationIdempotent(s: State)
    requires Inv(s) && s.book.Some?
    ensures Reconciled(Reconciled(s)).book == Reconciled(s).book
  {
    ReconcileIdempotent(s.book.value, SettledCosts(s.db));
  }

  /** A settlement that arrives late finds the same books on either side of a reconciliation. */
  lemma LateSettleCommutes(s: State, id: string, cost: nat, costs: map<string, nat>)
    requires Inv(s) && (id, cost) in s.settles && costs in s.snapshots
    ensures SettleBook(ReconcileBook(s.book, costs), id, cost) == ReconcileBook(SettleBook(s.book, id, cost), costs)
    ensures id in costs ==> SettleBook(ReconcileBook(s.book, costs), id, cost) == ReconcileBook(s.book, costs)
  {
    if s.book.Some? {
      assert SettledAt(s.db, id, cost);
      var one := map[id := cost];
      SettleIsReconcile(s.book.value, id, cost);
      SettleIsReconcile(ReconcileTable(s.book.value, costs), id, cost);
      ReconcileCommutes(s.book.value, costs, one);
    }
  }

  /** An import cut off before the journal recorded it is repeated without changing one liability. */
  lemma InterruptedMigrationRestarts(s: State)
    requires Inv(s) && Enabled(s, ImportLiabilities)
    ensures
      var cut := Next(Next(s, ImportLiabilities), Step.Crash);
      && Inv(cut) && cut.db == s.db && Enabled(cut, ImportLiabilities)
      && Next(cut, ImportLiabilities).book == cut.book
      && (s.book.Some? ==> cut.book == s.book)
  {
    var imported := Next(s, ImportLiabilities);
    StepKeepsInv(s, ImportLiabilities);
    StepKeepsInv(imported, Step.Crash);
    ImportStep(s);
    ImportStep(Next(imported, Step.Crash));
  }

  // ------------------------------------------------------------ finality over runs

  lemma SettledStaysStep(s: State, step: Step, id: string, cost: nat)
    requires Inv(s) && Enabled(s, step) && SettledAt(s.db, id, cost)
    ensures SettledAt(Next(s, step).db, id, cost)
  {
    if step.FinishAttempt? && Finishable(s.db, step.id, step.cost) {
      FinishWrites(s.db, step.id, step.cost, step.complete, step.successful);
    }
  }

  /** Once settled, an attempt's status and cost never change, on any run. */
  lemma {:induction false} SettledIsForGood(states: seq<State>, steps: seq<Step>, id: string, cost: nat)
    requires IsRun(states, steps) && Inv(states[0]) && SettledAt(states[0].db, id, cost)
    ensures SettledAt(states[|steps|].db, id, cost)
  {
    if steps != [] {
      var n := |steps|;
      assert states[..n][n - 1] == states[n - 1];
      SettledIsForGood(states[..n], steps[..n - 1], id, cost);
      RunKeepsInv(states, steps);
      SettledStaysStep(states[n - 1], steps[n - 1], id, cost);
    }
  }

  /** An orphan whose admission is no longer in progress. */
  ghost predicate StrayOrphan(s: State, id: string) {
    s.book.Some? && IsOrphan(s.db, s.book.value, id) && !(s.lock.Admitting? && s.lock.id == id)
  }

  lemma OrphanStaysStep(s: State, step: Step, id: string)
    requires Inv(s) && Enabled(s, step) && StrayOrphan(s, id)
    ensures StrayOrphan(Next(s, step), id) && Next(s, step).book.value[id] == s.book.value[id]
  {
    OrphanHasNoCost(s, id);
    match step
    case FinishAttempt(other, cost, complete, successful) =>
      if Finishable(s.db, other, cost) {
        FinishWrites(s.db, other, cost, complete, successful);
      }
    case _ =>
  }

  /** No settlement in flight names an orphan. */
  lemma OrphanHasNoCost(s: State, id: string)
    requires Inv(s) && StrayOrphan(s, id)
    ensures forall cost: nat :: (id, cost) !in s.settles
    ensures forall costs | costs in s.snapshots :: id !in costs
  {
    assert forall cost: nat :: !SettledAt(s.db, id, cost);
    assert forall p | p in s.settles :: SettledAt(s.db, p.0, p.1) && p.0 != id;
    assert forall costs, i | costs in s.snapshots && i in costs :: SettledAt(s.db, i, costs[i]) && i != id;
  }

  /** An orphan reservation is retained unchanged for good: nothing replays or frees it. */
  lemma {:induction false} OrphanIsRetained(states: seq<State>, steps: seq<Step>, id: string)
    requires IsRun(states, steps) && Inv(states[0]) && StrayOrphan(states[0], id)
    ensures StrayOrphan(states[|steps|], id) && states[|steps|].book.value[id] == states[0].book.value[id]
  {
    if steps != [] {
      var n := |steps|;
      assert states[..n][n - 1] == states[n - 1];
      OrphanIsRetained(states[..n], steps[..n - 1], id);
      RunKeepsInv(states, steps);
      OrphanStaysStep(states[n - 1], steps[n - 1], id);
    }
  }

  // ------------------------------------------------------------ sessions

  lemma PendingStaysStep(s: State, step: Step, client: string, session: string, request: string)
    requires Enabled(s, step) && Holds(s.db, client, session, request)
    requires step != ReleaseSession(client, session, request)
    ensures Holds(Next(s, step).db, client, session, request)
    ensures !(step.AcquireSession? && step.client == client && step.session == session
                && Acquirable(s.db, client, session, step.clientRequest))
  {
    if step.FinishAttempt? && Finishable(s.db, step.id, step.cost) {
      var a := FinishedAttempt(s.db.attempts[step.id], step.cost, step.complete);
      assert Next(s, step).db.sessions == if step.successful then Bound(s.db, a) else s.db.sessions;
    }
  }

  /** Session exclusion: until its own request releases it, a session keeps that request pending and no
      other request acquires it, over every interleaving. */
  lemma {:induction false} SessionExclusion(states: seq<State>, steps: seq<Step>, client: string, session: string,
                                            request: string)
    requires IsRun(states, steps) && Holds(states[0].db, client, session, request)
    requires ReleaseSession(client, session, request) !in steps
    ensures forall i | 0 <= i < |states| :: Holds(states[i].db, client, session, request)
    ensures forall i |
      0 <= i < |steps| && steps[i].AcquireSession? && steps[i].client == client && steps[i].session == session ::
      !Acquirable(states[i].db, client, session, steps[i].clientRequest)
  {
    if steps != [] {
      var n := |steps|;
      assert forall i | 0 <= i < n :: states[..n][i] == states[i];
      assert forall i | 0 <= i < n - 1 :: steps[..n - 1][i] == steps[i];
      SessionExclusion(states[..n], steps[..n - 1], client, session, request);
      assert states[..n][n - 1] == states[n - 1];
      PendingStaysStep(states[n - 1], steps[n - 1], client, session, request);
    }
  }

  /** Other requests' releases and successful finishes leave a session's row exactly as it is. */
  lemma OthersLeaveTheRow(db: Database, client: string, session: string, request: string, other: string, id: string,
                          cost: Option<int>, complete: bool, successful: bool)
    requires Holds(db, client, session, request) && other != request
    ensures Release(db, client, session, other) == db
    ensures id in db.attempts && db.attempts[id].requestId == other ==>
      (client, session) in Finish(db, id, cost, complete, successful).sessions
      && Finish(db, id, cost, complete, successful).sessions[(client, session)] == db.sessions[(client, session)]
  {
    if Finishable(db, id, cost) && db.attempts[id].requestId == other {
      var a := FinishedAttempt(db.attempts[id], cost, complete);
      assert Finish(db, id, cost, complete, successful).sessions == if successful then Bound(db, a) else db.sessions;
    }
  }

  lemma {:induction false} RequestsOnlyGrow(states: seq<State>, steps: seq<Step>, key: (string, string))
    requires IsRun(states, steps) && key in states[0].db.requests
    ensures key in states[|steps|].db.requests
  {
    if steps != [] {
      var n := |steps|;
      assert states[..n][n - 1] == states[n - 1];
      RequestsOnlyGrow(states[..n], steps[..n - 1], key);
      assert key in Next(states[n - 1], steps[n - 1]).db.requests by {
        if steps[n - 1].FinishAttempt? && Finishable(states[n - 1].db, steps[n - 1].id, steps[n - 1].cost) {
          assert Next(states[n - 1], steps[n - 1]).db.requests == states[n - 1].db.requests;
        }
      }
    }
  }

  /** A client request id is admitted at most once, on any run. */
  lemma ClientRequestAdmittedOnce(states: seq<State>, steps: seq<Step>, i: nat, j: nat)
    requires IsRun(states, steps) && i < j < |steps|
    requires steps[i].AcquireSession? && steps[j].AcquireSession?
    requires steps[i].client == steps[j].client && steps[i].clientRequest == steps[j].clientRequest
    requires Named(steps[i].clientRequest)
    requires Acquirable(states[i].db, steps[i].client, steps[i].session, steps[i].clientRequest)
    ensures !Acquirable(states[j].db, steps[j].client, steps[j].session, steps[j].clientRequest)
    ensures states[j + 1] == states[j]
  {
    var key := (steps[i].client, steps[i].clientRequest.value);
    assert key in states[i + 1].db.requests;
    var rest, tail := states[i + 1..j + 1], steps[i + 1..j];
    forall k | 0 <= k < |tail| ensures Enabled(rest[k], tail[k]) && rest[k + 1] == Next(rest[k], tail[k]) {
      assert rest[k] == states[i + 1 + k] && tail[k] == steps[i + 1 + k] && rest[k + 1] == states[i + 1 + k + 1];
    }
    RequestsOnlyGrow(rest, tail, key);
    assert rest[|tail|] == states[j];
  }
}
