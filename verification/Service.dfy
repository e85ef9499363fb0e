/** Runs of the ledger whose steps the routing service makes: every admission was prepared, and every finish is what one
    of its code paths computes from an attempt record it read and an answer it got. */
module Service {
  import opened Basics
  import opened JsonValues
  import opened Catalog
  import opened Budget
  import opened Journal
  import opened Ledger
  import opened Receipts
  import opened Dispatch
  import opened LedgerCalls

  /** Why a finish is called: a dispatched attempt is closed, finalized, or maintained. */
  datatype Act =
    | Closes(auth: string, streaming: bool, delivery: Delivery)
    | Finalizes(answer: Option<Json>, usage: Option<Usage>, complete: bool, successful: bool)
    | Reconciles(answer: Option<Json>)

  /** `seen`: the state of the run at which the caller's attempt record was read. */
  datatype Why = Why(seen: nat, act: Act)

  /** The answer about the attempt that the act rests on. */
  function AnswerOf(act: Act): Option<Json> {
    match act
    case Closes(_, _, d) => if d.Answered? then d.answer else None
    case Finalizes(answer, _, _, _) => answer
    case Reconciles(answer) => answer
  }

  /** The arguments of the finish this act makes, if it makes one. */
  function FinishOf(bindings: Bindings, id: string, a: Attempt, act: Act): Option<(Option<int>, bool, bool)> {
    match act
    case Closes(auth, streaming, d) =>
      var close := Closing(bindings, id, auth, a, streaming, d).0;
      if close.None? then None else Some(CloseArgs(bindings, id, a, AnswerOf(act), close.value))
    case Finalizes(answer, usage, complete, successful) =>
      Some(FinalizeArgs(bindings, id, a, answer, usage, complete, successful))
    case Reconciles(answer) => ReconcileArgs(bindings, id, a, answer)
  }

  /** The admission was prepared from what was asked, at the prices of its route. */
  predicate Prepares(q: Asked, a: Admission) {
    && q.Prepared().Sent? && a.reserve == q.Prepared().reserve
    && a.billing == (if q.route.paid then Paid else Included)
    && a.prices == q.route.prices && a.upstream == q.route.Canonical() && a.account == q.route.accountId
  }

  /** Step `i` is the service's own. `asked` is what was asked for each attempt. */
  ghost predicate ServedAt(bindings: Bindings, asked: map<string, Asked>, states: seq<State>, steps: seq<Step>,
                           whys: seq<Why>, i: nat)
    requires i < |states| && i < |steps| && i < |whys|
  {
    match steps[i]
    case FinishAttempt(id, cost, complete, successful) =>
      id in states[i].db.attempts ==>
        && whys[i].seen <= i && id in states[whys[i].seen].db.attempts
        && FinishOf(bindings, id, states[whys[i].seen].db.attempts[id], whys[i].act) ==
             Some((cost, complete, successful))
    case ReservePaid(id, a, _) => id in asked && Prepares(asked[id], a)
    case AdmitIncluded(id, a, _) => id in asked && Prepares(asked[id], a)
    case _ => true
  }

  /** Any interleaving of the service's commits, with any crashes and outages. */
  ghost predicate ServiceRun(bindings: Bindings, asked: map<string, Asked>, states: seq<State>, steps: seq<Step>,
                             whys: seq<Why>)
  {
    && IsRun(states, steps) && |whys| == |steps|
    && forall i: nat | i < |steps| :: ServedAt(bindings, asked, states, steps, whys, i)
  }

  // ------------------------------------------------------------ records that were read stay true

  /** Equal in everything an admission fixes. */
  predicate SameAdmission(a: Attempt, b: Attempt) {
    a.(status := b.status, cost := b.cost) == b
  }

  lemma SameAdmissionChains(a: Attempt, b: Attempt, c: Attempt)
    requires SameAdmission(a, b) && SameAdmission(b, c)
    ensures SameAdmission(a, c)
  {
  }

  /** What an act asks for depends on what the admission fixed, and on nothing that changes later. */
  lemma FinishOfSame(bindings: Bindings, id: string, a: Attempt, b: Attempt, act: Act)
    requires SameAdmission(a, b)
    ensures FinishOf(bindings, id, a, act) == FinishOf(bindings, id, b, act)
  {
    assert forall r :: ReceiptZero(a, r) == ReceiptZero(b, r) && ReceiptUsage(a, r) == ReceiptUsage(b, r);
    assert forall answer :: NativeReceipt(bindings, id, a, answer) == NativeReceipt(bindings, id, b, answer);
  }

  lemma AdmissionStaysStep(s: State, step: Step, id: string)
    requires Enabled(s, step) && id in s.db.attempts
    ensures id in Next(s, step).db.attempts && SameAdmission(s.db.attempts[id], Next(s, step).db.attempts[id])
  {
    if step.FinishAttempt? && Finishable(s.db, step.id, step.cost) {
      FinishWrites(s.db, step.id, step.cost, step.complete, step.successful);
    }
  }

  lemma AdmissionStaysAt(states: seq<State>, steps: seq<Step>, k: nat, id: string)
    requires IsRun(states, steps) && k < |steps| && id in states[k].db.attempts
    ensures id in states[k + 1].db.attempts && SameAdmission(states[k].db.attempts[id], states[k + 1].db.attempts[id])
  {
    AdmissionStaysStep(states[k], steps[k], id);
  }

  lemma {:induction false} AdmissionStays(states: seq<State>, steps: seq<Step>, a: nat, b: nat, id: string)
    requires IsRun(states, steps) && a <= b < |states| && id in states[a].db.attempts
    ensures id in states[b].db.attempts && SameAdmission(states[a].db.attempts[id], states[b].db.attempts[id])
    decreases b - a
  {
    if a < b {
      AdmissionStays(states, steps, a, b - 1, id);
      AdmissionStaysAt(states, steps, b - 1, id);
      SameAdmissionChains(states[a].db.attempts[id], states[b - 1].db.attempts[id], states[b].db.attempts[id]);
    }
  }

  /** A finish of the service is what its act asks for of the row as it is now. */
  lemma ServedNow(bindings: Bindings, asked: map<string, Asked>, states: seq<State>, steps: seq<Step>, whys: seq<Why>,
                  i: nat)
    requires ServiceRun(bindings, asked, states, steps, whys) && i < |steps|
    requires steps[i].FinishAttempt? && steps[i].id in states[i].db.attempts
    ensures FinishOf(bindings, steps[i].id, states[i].db.attempts[steps[i].id], whys[i].act)
         == Some((steps[i].cost, steps[i].complete, steps[i].successful))
  {
    assert ServedAt(bindings, asked, states, steps, whys, i);
    AdmissionStays(states, steps, whys[i].seen, i, steps[i].id);
    FinishOfSame(bindings, steps[i].id, states[whys[i].seen].db.attempts[steps[i].id],
                 states[i].db.attempts[steps[i].id], whys[i].act);
  }

  /** Whatever code path makes a finish, it settles a paid attempt only on a receipt. */
  lemma ActIsJustified(bindings: Bindings, id: string, a: Attempt, act: Act)
    requires FinishOf(bindings, id, a, act).Some?
    ensures Justified(bindings, id, a, FinishOf(bindings, id, a, act).value.0, FinishOf(bindings, id, a, act).value.1)
  {
    match act
    case Closes(auth, streaming, d) => ClosingIsJustified(bindings, id, auth, a, streaming, d);
    case Finalizes(answer, usage, complete, successful) =>
      FinalizeIsJustified(bindings, id, a, answer, usage, complete, successful);
    case Reconciles(answer) => ReconcileIsJustified(bindings, id, a, answer);
  }

  // ------------------------------------------------------------ calls on the object are such runs

  ghost predicate ServedReaches(bindings: Bindings, asked: map<string, Asked>, s: State, s': State) {
    exists states, steps, whys ::
      ServiceRun(bindings, asked, states, steps, whys) && states[0] == s && states[|steps|] == s'
  }

  const IDLE: Why := Why(0, Reconciles(None))

  lemma ServedNone(bindings: Bindings, asked: map<string, Asked>, s: State)
    ensures ServedReaches(bindings, asked, s, s)
  {
    assert ServiceRun(bindings, asked, [s], [], []);
  }

  lemma ServedOne(bindings: Bindings, asked: map<string, Asked>, s: State, step: Step, why: Why)
    requires Enabled(s, step)
    requires ServedAt(bindings, asked, [s, Next(s, step)], [step], [why], 0)
    ensures ServedReaches(bindings, asked, s, Next(s, step))
  {
    assert ServiceRun(bindings, asked, [s, Next(s, step)], [step], [why]);
  }

  function Later(whys: seq<Why>, n: nat): seq<Why> {
    seq(|whys|, i requires 0 <= i < |whys| => whys[i].(seen := whys[i].seen + n))
  }

  /** A step stays the service's own when its run is part of a longer one. */
  lemma ServedInside(bindings: Bindings, asked: map<string, Asked>, part: seq<State>, steps: seq<Step>, whys: seq<Why>,
                     states: seq<State>, allSteps: seq<Step>, allWhys: seq<Why>, n: nat, i: nat)
    requires i < |part| && i < |steps| && i < |whys| && ServedAt(bindings, asked, part, steps, whys, i)
    requires i + n < |states| && i + n < |allSteps| && i + n < |allWhys|
    requires forall j | 0 <= j <= i :: states[j + n] == part[j]
    requires allSteps[i + n] == steps[i] && allWhys[i + n] == whys[i].(seen := whys[i].seen + n)
    ensures ServedAt(bindings, asked, states, allSteps, allWhys, i + n)
  {
    if steps[i].FinishAttempt? && steps[i].id in part[i].db.attempts {
      assert states[whys[i].seen + n] == part[whys[i].seen];
    }
  }

  lemma ServedBefore(bindings: Bindings, asked: map<string, Asked>, sa: seq<State>, ta: seq<Step>, ya: seq<Why>,
                     states: seq<State>, steps: seq<Step>, whys: seq<Why>, i: nat)
    requires |sa| == |ta| + 1 && |ya| == |ta| && i < |ta| && ServedAt(bindings, asked, sa, ta, ya, i)
    ensures ServedAt(bindings, asked, sa + states, ta + steps, ya + whys, i)
  {
    assert forall j | 0 <= j <= i :: (sa + states)[j + 0] == sa[j];
    ServedInside(bindings, asked, sa, ta, ya, sa + states, ta + steps, ya + whys, 0, i);
  }

  lemma ServedAfter(bindings: Bindings, asked: map<string, Asked>, sb: seq<State>, tb: seq<Step>, yb: seq<Why>,
                    states: seq<State>, steps: seq<Step>, whys: seq<Why>, i: nat)
    requires |sb| == |tb| + 1 && |yb| == |tb| && i < |tb| && ServedAt(bindings, asked, sb, tb, yb, i)
    requires |whys| == |steps| && |states| == |steps| + 1 && states[|steps|] == sb[0]
    ensures ServedAt(bindings, asked, states + sb[1..], steps + tb, whys + Later(yb, |steps|), i + |steps|)
  {
    var n := |steps|;
    assert forall j | 0 <= j <= i :: (states + sb[1..])[j + n] == sb[j];
    ServedInside(bindings, asked, sb, tb, yb, states + sb[1..], steps + tb, whys + Later(yb, n), n, i);
  }

  /** One run after another is a run. */
  lemma ServedCompose(bindings: Bindings, asked: map<string, Asked>, a: State, b: State, c: State)
    requires ServedReaches(bindings, asked, a, b) && ServedReaches(bindings, asked, b, c)
    ensures ServedReaches(bindings, asked, a, c)
  {
    var sa, ta, ya :| ServiceRun(bindings, asked, sa, ta, ya) && sa[0] == a && sa[|ta|] == b;
    var sb, tb, yb :| ServiceRun(bindings, asked, sb, tb, yb) && sb[0] == b && sb[|tb|] == c;
    ServedJoin(bindings, asked, sa, ta, ya, sb, tb, yb);
    assert (sa + sb[1..])[|ta + tb|] == c;
  }

  lemma ServedJoin(bindings: Bindings, asked: map<string, Asked>, sa: seq<State>, ta: seq<Step>, ya: seq<Why>,
                   sb: seq<State>, tb: seq<Step>, yb: seq<Why>)
    requires ServiceRun(bindings, asked, sa, ta, ya) && ServiceRun(bindings, asked, sb, tb, yb) && sa[|ta|] == sb[0]
    ensures ServiceRun(bindings, asked, sa + sb[1..], ta + tb, ya + Later(yb, |ta|))
  {
    RunsJoin(sa, ta, sb, tb);
    forall i: nat | i < |ta + tb| ensures ServedAt(bindings, asked, sa + sb[1..], ta + tb, ya + Later(yb, |ta|), i) {
      if i < |ta| {
        ServedBefore(bindings, asked, sa, ta, ya, sb[1..], tb, Later(yb, |ta|), i);
      } else {
        ServedAfter(bindings, asked, sb, tb, yb, sa, ta, ya, i - |ta|);
      }
    }
  }

  lemma RunsJoin(sa: seq<State>, ta: seq<Step>, sb: seq<State>, tb: seq<Step>)
    requires IsRun(sa, ta) && IsRun(sb, tb) && sa[|ta|] == sb[0]
    ensures IsRun(sa + sb[1..], ta + tb)
  {
    var states, steps := sa + sb[1..], ta + tb;
    forall i | 0 <= i < |steps| ensures Enabled(states[i], steps[i]) && states[i + 1] == Next(states[i], steps[i]) {
      if i < |ta| {
        assert states[i] == sa[i] && states[i + 1] == sa[i + 1];
      } else {
        assert states[i] == sb[i - |ta|] && states[i + 1] == sb[i - |ta| + 1];
      }
    }
  }

  /** A finish call of the store, made by one of the service's code paths. */
  lemma ServedFinish(bindings: Bindings, asked: map<string, Asked>, db: Database, book: Book, db': Database,
                     book': Book, id: string, cost: Option<int>, complete: bool, successful: bool, fault: bool,
                     budgetFault: bool, act: Act)
    requires db' == if fault then db else Finish(db, id, cost, complete, successful)
    requires book' == if fault || budgetFault || ToSettle(db, id, cost, complete).None? then book
                      else SettleBook(book, id, ToSettle(db, id, cost, complete).value)
    requires id in db.attempts ==> FinishOf(bindings, id, db.attempts[id], act) == Some((cost, complete, successful))
    ensures ServedReaches(bindings, asked, Quiet(db, book), Quiet(db', book'))
  {
    var s := Quiet(db, book);
    if fault {
      ServedNone(bindings, asked, s);
    } else {
      var finish := Step.FinishAttempt(id, cost, complete, successful);
      var t := Next(s, finish);
      ServedOne(bindings, asked, s, finish, Why(0, act));
      if ToSettle(db, id, cost, complete).Some? {
        var due := ToSettle(db, id, cost, complete).value;
        ServedOne(bindings, asked, t, if budgetFault then DropSettle(id, due) else SettleOne(id, due), IDLE);
        ServedCompose(bindings, asked, s, t, Quiet(db', book'));
      }
    }
  }

  /** An admission call of the store, for what was asked. */
  lemma ServedAdmit(bindings: Bindings, asked: map<string, Asked>, db: Database, book: Book, db': Database, book': Book,
                    a: Admission, id: string, date: string, ok: bool, budgetFault: bool)
    requires ok ==> 0 <= a.reserve && a.policyVersion == db.policy.version
    requires db' == if ok then Admit(db, id, NewAttempt(a, date)) else db
    requires book' == if 0 <= a.reserve && a.billing.Paid? && a.policyVersion == db.policy.version && !budgetFault
                      then ReserveBook(book, id, date, a.reserve, db.policy.limit) else book
    requires ok && a.billing.Paid? ==>
      !budgetFault && ReserveVerdict(book, id, date, a.reserve, db.policy.limit).Granted?
    requires id in asked && Prepares(asked[id], a)
    ensures ServedReaches(bindings, asked, Quiet(db, book), Quiet(db', book'))
  {
    var s := Quiet(db, book);
    if 0 <= a.reserve && a.billing.Paid? && a.policyVersion == db.policy.version && !budgetFault
       && ReserveVerdict(book, id, date, a.reserve, db.policy.limit).Granted? {
      var t := Next(s, ReservePaid(id, a, date));
      ServedOne(bindings, asked, s, ReservePaid(id, a, date), IDLE);
      ServedOne(bindings, asked, t, if ok then CommitAdmission else Abandon, IDLE);
      ServedCompose(bindings, asked, s, t, Quiet(db', book'));
    } else if ok {
      ServedOne(bindings, asked, s, AdmitIncluded(id, a, date), IDLE);
    } else {
      ServedNone(bindings, asked, s);
    }
  }

  lemma ServedRelease(bindings: Bindings, asked: map<string, Asked>, db: Database, book: Book, client: string,
                      session: string, request: string)
    ensures ServedReaches(bindings, asked, Quiet(db, book), Quiet(Release(db, client, session, request), book))
  {
    ServedOne(bindings, asked, Quiet(db, book), Step.ReleaseSession(client, session, request), IDLE);
  }

  lemma ServedAcquire(bindings: Bindings, asked: map<string, Asked>, db: Database, book: Book, client: string,
                      session: string, selected: string, request: string, clientRequest: Option<string>)
    ensures ServedReaches(bindings, asked, Quiet(db, book),
                          Quiet(Acquire(db, client, session, selected, request, clientRequest), book))
  {
    ServedOne(bindings, asked, Quiet(db, book), Step.AcquireSession(client, session, selected, request, clientRequest),
              IDLE);
  }

  lemma ServedReconcile(bindings: Bindings, asked: map<string, Asked>, db: Database, book: Book, book': Book,
                        budgetFault: bool)
    requires book' == if budgetFault then book else ReconcileBook(book, SettledCosts(db))
    ensures ServedReaches(bindings, asked, Quiet(db, book), Quiet(db, book'))
  {
    var s := Quiet(db, book);
    var t := Next(s, ReadSettled);
    var last := if budgetFault then DropSnapshot(SettledCosts(db)) else ReconcileAll(SettledCosts(db));
    ServedOne(bindings, asked, s, ReadSettled, IDLE);
    ServedOne(bindings, asked, t, last, IDLE);
    assert Next(t, last) == Quiet(db, book');
    ServedCompose(bindings, asked, s, t, Quiet(db, book'));
  }
}
