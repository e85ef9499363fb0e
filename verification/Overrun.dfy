/** A run of the service on which an upstream that reports more usage than its bounds breaks the day limit. */
module Overrun {
  import opened Basics
  import opened JsonValues
  import opened Catalog
  import opened RoutePricing
  import opened Budget
  import opened Journal
  import opened Ledger
  import opened LedgerTheorems
  import opened Receipts
  import opened Dispatch
  import opened Service
  import opened ServerTheorems

  const PRICES: Prices := Prices(1_000_000, 1_000_000, 0, 0)
  const ROUTE: Route := Route("account", "model", None, true, Some(PRICES), "1", "evidence", None)
  const MODEL: Model := Model("m", Approved, {Messages}, 1, 1, [ROUTE])
  const PROOF: Proof := Proof(Int(1), "evidence")
  const BINDING: Binding := Binding("auth", None, None, true, Unreadable, map["model" := PROOF])
  const ASKED: Asked := Asked(map[], Messages, MODEL, ROUTE, BINDING)
  const BINDINGS: Bindings := map["account" := "auth"]

  /** One token in and one out: two micro-dollars are reserved. */
  lemma AskedReserve()
    ensures ASKED.Prepared().Sent? && ASKED.Prepared().reserve == 2
  {
    var named: Dict := map["model" := Str("model")];
    assert ASKED.body["model" := Str("model")] == named;
    assert Content(Str("model")) == Pass;
    assert Content(Obj(named)) == Pass;
    assert PaidRefusal(named, ROUTE).None?;
    assert Requested(named, Messages, MODEL) == Int(1);
    assert ROUTE.Canonical() == "model" && ProofFor(ROUTE, BINDING) == PROOF;
  }

  function AdmissionFor(version: nat): Admission {
    Admission(version, "request", "client", "session", "m", "account", Paid, 2, Some(PRICES), "model", 0)
  }

  /** Two million tokens and one, where a single one was admitted. */
  const REPORT: Dict := map[
    "input_tokens" := Int(2_000_001), "output_tokens" := Int(0),
    "cache_read_tokens" := Int(0), "cache_write_tokens" := Int(0)]

  const RECEIPT: Dict := map[
    "attempt_id" := Str("attempt"), "auth_id" := Str("auth"), "model" := Str("model"),
    "terminal" := Bool(true), "usage_complete" := Bool(true), "usage" := Obj(REPORT)]

  const ACT: Act := Finalizes(Some(Obj(RECEIPT)), None, true, true)

  lemma ReportedCost(version: nat, day: string)
    ensures FinishOf(BINDINGS, "attempt", NewAttempt(AdmissionFor(version), day), ACT) ==
      Some((Some(2_000_001), true, true))
    ensures ReceiptUsage(NewAttempt(AdmissionFor(version), day), Some(RECEIPT)) == Some(Usage(2_000_001, 0, 0, 0))
  {
    var a := NewAttempt(AdmissionFor(version), day);
    assert Names(BINDINGS, "attempt", a, RECEIPT);
    assert NativeReceipt(BINDINGS, "attempt", a, Some(Obj(RECEIPT))) == Some(RECEIPT);
  }

  // ------------------------------------------------------------ the run

  function Start(version: nat): State {
    EmptyService(version, map[], map[])
  }

  function Open(version: nat): State {
    Start(version).(db := Start(version).db.(budgetInitialized := true), book := Some(map[]))
  }

  function Steps(version: nat, day: string): seq<Step> {
    [ImportLiabilities, CommitMigration, ReservePaid("attempt", AdmissionFor(version), day), CommitAdmission,
     Step.FinishAttempt("attempt", Some(2_000_001), true, true), SettleOne("attempt", 2_000_001)]
  }

  function Reserved(version: nat, day: string): State {
    Open(version).(book := Some(ReserveTable(map[], "attempt", day, 2)))
  }

  function Admitted(version: nat, day: string): State {
    Reserved(version, day).(db := Admit(Open(version).db, "attempt", NewAttempt(AdmissionFor(version), day)))
  }

  function Finished(version: nat, day: string): State {
    Admitted(version, day).(
      db := Finish(Admitted(version, day).db, "attempt", Some(2_000_001), true, true),
      settles := {("attempt", 2_000_001)})
  }

  function Settled(version: nat, day: string): State {
    Finished(version, day).(book := Some(SettleTable(ReserveTable(map[], "attempt", day, 2), "attempt", 2_000_001)),
                            settles := {})
  }

  function States(version: nat, day: string): seq<State> {
    [Start(version), Start(version).(book := Some(map[]), lock := Migrating), Open(version),
     Reserved(version, day).(lock := Admitting("attempt", NewAttempt(AdmissionFor(version), day))),
     Admitted(version, day),
     Finished(version, day), Settled(version, day)]
  }

  const WHYS: seq<Why> := [IDLE, IDLE, IDLE, IDLE, Why(4, ACT), IDLE]

  lemma Opens(version: nat)
    ensures Enabled(Start(version), ImportLiabilities)
    ensures Next(Start(version), ImportLiabilities) == Start(version).(book := Some(map[]), lock := Migrating)
    ensures Next(Start(version).(book := Some(map[]), lock := Migrating), CommitMigration) == Open(version)
  {
    assert ImportTable(map[], PaidRows(Start(version).db)) == map[];
  }

  lemma Admits(version: nat, day: string)
    ensures Enabled(Open(version), ReservePaid("attempt", AdmissionFor(version), day))
    ensures
      var locked := Reserved(version, day).(lock := Admitting("attempt", NewAttempt(AdmissionFor(version), day)));
      && Next(Open(version), ReservePaid("attempt", AdmissionFor(version), day)) == locked
      && Next(locked, CommitAdmission) == Admitted(version, day)
  {
    EmptyTable(day);
  }

  lemma Settles(version: nat, day: string)
    ensures
      var finish := Step.FinishAttempt("attempt", Some(2_000_001), true, true);
      && Enabled(Admitted(version, day), finish) && Next(Admitted(version, day), finish) == Finished(version, day)
      && Enabled(Finished(version, day), SettleOne("attempt", 2_000_001))
      && Next(Finished(version, day), SettleOne("attempt", 2_000_001)) == Settled(version, day)
  {
  }

  lemma RunAt(version: nat, day: string, i: nat)
    requires i < 6
    ensures Enabled(States(version, day)[i], Steps(version, day)[i])
    ensures States(version, day)[i + 1] == Next(States(version, day)[i], Steps(version, day)[i])
  {
    if i < 2 {
      Opens(version);
    } else if i < 4 {
      Admits(version, day);
    } else {
      Settles(version, day);
    }
  }

  lemma ServedStep(version: nat, day: string, i: nat)
    requires i < 6
    ensures ServedAt(BINDINGS, map["attempt" := ASKED], States(version, day), Steps(version, day), WHYS, i)
  {
    if i == 2 {
      AskedReserve();
    } else if i == 4 {
      ServedFinishStep(version, day);
    }
  }

  lemma ServedFinishStep(version: nat, day: string)
    ensures ServedAt(BINDINGS, map["attempt" := ASKED], States(version, day), Steps(version, day), WHYS, 4)
  {
    ReportedCost(version, day);
    assert States(version, day)[4] == Admitted(version, day);
    assert Admitted(version, day).db.attempts["attempt"] == NewAttempt(AdmissionFor(version), day);
    assert WHYS[4] == Why(4, ACT);
  }

  lemma IsServiceRun(version: nat, day: string)
    ensures ServiceRun(BINDINGS, map["attempt" := ASKED], States(version, day), Steps(version, day), WHYS)
  {
    forall i: nat | i < 6
      ensures Enabled(States(version, day)[i], Steps(version, day)[i])
      ensures States(version, day)[i + 1] == Next(States(version, day)[i], Steps(version, day)[i])
    {
      RunAt(version, day, i);
    }
    forall i: nat | i < 6
      ensures ServedAt(BINDINGS, map["attempt" := ASKED], States(version, day), Steps(version, day), WHYS, i)
    {
      ServedStep(version, day, i);
    }
  }

  lemma SettledOverLimit(day: string)
    ensures Committed(SettleTable(ReserveTable(map[], "attempt", day, 2), "attempt", 2_000_001), day) > DAY_LIMIT
  {
    EmptyTable(day);
    ReserveTotals(map[], "attempt", day, 2, day);
    SettleTotals(ReserveTable(map[], "attempt", day, 2), "attempt", 2_000_001, day);
  }

  /** The limit does not hold of the code whatever the upstream reports: a run of the service, from an empty journal,
      with a genuine receipt, after which a day has spent more than its limit. */
  lemma OverrunBreaksLimit(version: nat, day: string)
    returns (bindings: Bindings, asked: map<string, Asked>, states: seq<State>, steps: seq<Step>, whys: seq<Why>)
    ensures ServiceRun(bindings, asked, states, steps, whys) && |steps| == 6
    ensures states[0] == EmptyService(version, map[], map[])
    ensures states[6].book.Some? && Committed(states[6].book.value, day) > DAY_LIMIT
    ensures !HonestUpstream(bindings, asked, states, steps, whys)
  {
    bindings, asked, states, steps, whys :=
      BINDINGS, map["attempt" := ASKED], States(version, day), Steps(version, day), WHYS;
    IsServiceRun(version, day);
    SettledOverLimit(day);
    assert states[0] == Start(version);
    EmptyServiceStarts(version, map[], map[]);
    if HonestUpstream(bindings, asked, states, steps, whys) {
      FreshServiceKeepsDayLimit(bindings, asked, states, steps, whys, 6, day);
    }
  }
}
