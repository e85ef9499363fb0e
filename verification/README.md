# Verified model of the AI billing dashboard's routing and browser services

The repository has two halves. A Python routing service admits paid and included model requests against a daily
budget, and keeps one obligation in two databases that commit separately. A TypeScript dashboard drives leased
browsers and OAuth sign-ins, imports billing statements and merges account identities. This project models the parts
of both whose correctness spans several operations, and proves what they promise in every reachable state.

| files | what they model |
|---|---|
| `Budget`, `Journal`, `Store` | the liability authority, the operational journal, and the store that commits to both |
| `Ledger`, `LedgerTheorems`, `DayLimit`, `LedgerCalls`, `Totals` | both databases as one transition system with crashes and outages between any two commits |
| `RoutePricing`, `Receipts`, `Candidates` | what is reserved for a request, which receipts prove what, in which order routes are tried |
| `Dispatch`, `Service`, `Server`, `Requests` | how attempts are closed, the runs the service makes, its maintenance pass, its dispatch loop |
| `ServerTheorems`, `Overrun` | settlement on evidence and the day limit over all runs of the service |
| `StreamUsage` | the incremental reader of server-sent events |
| `Csv`, `Amounts`, `StatementReader`, `Statement`, `Accounting`, `GrownStatement` | spreadsheet export, the cells and rows of a statement, the append-only financial journal |
| `BrowserTurns`, `BrowserLease`, `Sessions`, `RetryBudget` | turns on a browser profile, leases with expiry timers, people's sessions, bounded retries |
| `Reauth`, `Credential` | the OAuth reconnect loop, and what a saved sign-in is worth |
| `MembershipCache`, `Identity` | the membership cache and the merging of account identities |
| `Basics`, `JsonValues`, `Catalog` | shared types |

Objects whose methods change state are classes; each method is proved equal to a function of the old state, and the
theorems are about those functions and about runs built from them. Environment choices are parameters: a failing
transaction, an unavailable authority, the end of the process, an answer of the native service, a clock reading, a random
draw.

## How the models are set up

* **Ledger.** One `BEGIN IMMEDIATE` block is one step. An admission holds the journal's write lock across the
  authority's commit, so reserving and journaling are two steps with other steps, or a crash, between them. Settlements
  and reconciliation snapshots in flight are part of the state. `Ledger.Inv` holds in every reachable state; the
  theorems follow from it. `LedgerCalls` shows that the calls on the store object, failing wherever they may, are runs of
  this system.
* **Service.** A finish of the service says which code path makes it (closing a dispatched attempt, finalizing,
  maintaining), on which attempt record, read earlier on the run, and on which answer of the native service. Its
  arguments are computed from these as the source computes them. `Service.ServiceRun` admits every interleaving of such
  steps with crashes and outages; the methods of `Server` and `Requests`, each a whole code path, are proved to be such
  runs (`ServedReaches` in their contracts). What is asked for an attempt (`asked`) fixes its reservation.
* **Browser turns.** A promise chain is a sequence of turns with a link to the turn whose tail is awaited; each await
  point is a step. `BrowserLease` adds the calls, the `held` map, manual sessions, timers, renewals and releases in
  progress, and the channel of lifecycle requests they all share.
* **Reconnect loop.** What the loop does to the outside is a trace of events. `Reauth.Safe` says of a trace, event by
  event and without mentioning the loop, what may follow what.

* **Told contracts.** A method is proved equal to a function, which is what invariants and theorems are about. Beside
  that, predicates named `…AsTold` and lemmas named `…Exactly` say what the operation does from its inputs and the state
  before it, with keys, constants and formulas written out and without the functions that compute it.

## Where the code does not keep a promise in general

Each case has a concrete witness and the exact condition under which the promise does hold.

* A settlement above its reservation can take a day past its limit, even on a genuine receipt: a run from an empty
  journal shows it (`Overrun.OverrunBreaksLimit`). A run stays within the limit if and only if every settling step
  still fits its days (`DayLimit.LimitKeptExactly`), and an upstream that honours the bounds it is sent never exceeds a
  reservation (`ServerTheorems.HonestUpstreamKeepsDayLimit`).
* A stream's verdict depends on its chunking. It is the verdict of all its bytes if and only if no chunk, together with
  the incomplete line left before it, exceeds the buffer bound; otherwise the stream fails
  (`StreamUsage.SuccessExactly`, `StreamUsage.OneChunkTooMany`).
* A statement that was imported and has grown is refused as a whole once it has more than 2,000,000 characters, more
  than 5000 data rows, or more than 1000 rows that are read as charges, and then nothing of it is inserted. A thousand
  lines and one more, as the importer really reads them, show the last (`GrownStatement.OneLineTooMany`). With the
  validity of its records and the absence of conflicts these limits are the exact condition (`Statement.ImportTwice`).
* The membership sweep leaves an expired entry behind when the clock steps back
  (`MembershipCache.SteppingBackLeavesExpired`); it is a full scan if and only if expired entries come first
  (`MembershipCache.SweepIsFullScanExactly`).
* Two accounts one binding names can stay apart when one of them carries an alias of a second binding
  (`Identity.TwoBindingsForOneAccount`). Sharing a row and being named together agree if and only if no binding names
  both or both prefer the same binding, that is the owner of the id, or else of the first alias that binds
  (`Identity.SharedExactlyByBindings`).
* Automatic reads are let through during a person's open, unexpired session when a second, shorter one on the same
  profile has ended (`Sessions.ShorterSessionUnblocks`). They are refused if and only if the last thing that happened to
  the profile's session was a grant or renewal still ahead of its expiry (`Sessions.BlockedExactly`), which a session
  that is alone on its profile always is (`Sessions.LoneSessionBlocks`).
* A lease that expires further ahead than the longest timer delay loses its turn early
  (`BrowserLease.FarExpiryIsLostEarly`, `BrowserLease.ArmedAfterExpiryExactly`).
* A plain decimal with three decimals after at most three digits is read as thousands, as the code's own comment says
  (`Amounts.PlainReadsBackExactly`).

## Model

| member | source | states |
|---|---|---|
| Budget.Authority.constructor | routing/budget.py:18-27 | a new authority has no table, which is unknown and never an empty day |
| Budget.Authority.Initialize | routing/budget.py:49-60 | inserts every row whose id is new, with its cost if it is settled, and overwrites none; a failure changes nothing |
| Budget.Authority.State | routing/budget.py:62-71 | answers both sums of a day, or nothing when the authority is missing |
| Budget.Authority.Reserve | routing/budget.py:73-78 | granted if and only if there is an authority, the day's spent, reserved and new amounts stay within the limit and the id is new; the new row is then all that changes |
| Budget.Authority.Settle | routing/budget.py:80-82 | settles a row once at the given cost; its day and reservation, and every other row, stay |
| Budget.Authority.Reconcile | routing/budget.py:84-88 | settles every still reserved row the given costs name |
| Budget.Scan | routing/budget.py:62-67 | one pass computes the two sums of a day, whatever the order of rows |
| Budget.TotalsExactly | routing/budget.py:62-67 | each row adds its cost, if it has one, to its own day's spending, and its reservation until it is settled |
| Budget.ReserveTotals | routing/budget.py:73-78 | a reservation adds its amount to its own day and to nothing else |
| Budget.ReserveKeepsBound | routing/budget.py:73-78 | no reservation takes a day past its limit |
| Budget.ReconcileKeepsBound | routing/budget.py:80-88 | settling raises a day by no more than costs exceed their reservations |
| Budget.ReconcileIdempotent | routing/budget.py:84-88 | reconciling twice changes nothing the second time |
| Budget.ReconcileCommutes | routing/budget.py:80-88 | settlements that agree can be applied in either order, or at once |
| Budget.SettledIsFinal | routing/budget.py:55-60 | neither an import nor a reconciliation ever touches a settled row |
| Journal.AdmitKeepsOutbox | routing/store.py:175-185 | the event stream, replayed, stays exactly the attempts table |
| Journal.FinishKeepsOutbox | routing/store.py:187-203 | the same after a finish |
| Journal.ApplyKeepsOutbox | routing/store.py:103-114 | the same after a policy change |
| Journal.ApplyExactly | routing/store.py:103-114 | a sound policy with the authorized limit, offered for the current version, becomes the next one; any other changes nothing |
| Journal.AcquireExactly | routing/store.py:116-130 | what each acquire leaves of sessions and client requests, and exactly when it is refused |
| Journal.ReleaseExactly | routing/store.py:132-134 | a release clears the pending request if it is its own, and nothing else |
| Journal.FinishExactly | routing/store.py:187-203 | what each finish leaves: the row settled at its charge or unresolved without one, the session bound to the attempt's model and account if a success still holds it, one event, and nothing else |
| Journal.DueExactly | routing/store.py:204-206 | the authority is given the cost of a paid attempt that is complete and whose cost is known, and nothing otherwise |
| Journal.SettledCostsExactly | routing/store.py:147-149 | a reconciliation reads the cost of every settled paid attempt and nothing else |
| Store.Store.constructor | routing/store.py:62-73 | the import is committed in the authority before the journal records it |
| Store.Store.Apply | routing/store.py:103-114 | a policy is stored only for the expected version and the authorized limit, as the next version |
| Store.Store.AcquireSession | routing/store.py:116-130 | a rejected acquire leaves sessions and client requests untouched; the old binding survives only under the same selection |
| Store.Store.ReleaseSession | routing/store.py:132-134 | only the request that holds a session releases it |
| Store.Store.AdmitAttempt | routing/store.py:155-185 | a paid attempt is journaled only after its liability; a failure in between leaves an orphan reservation |
| Store.Store.FinishAttempt | routing/store.py:187-210 | the row, the session and the event of a finish told field by field, refusals included; the authority settles a paid attempt once, at its cost, or keeps the reservation |
| Store.Store.ReconcileBudget | routing/store.py:147-153 | the authority is given every settled paid cost of the journal |
| LedgerCalls.OpenIsRun | routing/store.py:62-73 | opening a store, cut off anywhere, is a run of the ledger |
| LedgerCalls.AdmitIsRun | routing/store.py:155-185 | so is an admission, whichever of its commits fails |
| LedgerCalls.FinishIsRun | routing/store.py:187-210 | so is a finish, with or without the authority's commit |
| LedgerCalls.ReconcileIsRun | routing/store.py:147-153 | so is a reconciliation |
| LedgerCalls.JournalCallIsRun | routing/store.py:103-134 | so is a policy change, an acquire or a release |
| LedgerCalls.ReachedKeepsInv | routing/store.py:155-210 | what runs reach from consistent databases is consistent |
| LedgerCalls.AdmitOn | routing/store.py:155-185 | the object's admission call, checked to be such a run |
| LedgerCalls.FinishOn | routing/store.py:187-210 | the object's finish call, likewise |
| LedgerCalls.Open | routing/store.py:62-73 | opening a store on an authority, likewise |
| LedgerCalls.ReconcileOn | routing/store.py:147-153 | the object's reconciliation, likewise |
| LedgerCalls.ApplyOn | routing/store.py:103-114 | the object's policy change, likewise |
| LedgerCalls.AcquireOn | routing/store.py:116-130 | the object's acquire, likewise |
| LedgerCalls.ReleaseOn | routing/store.py:132-134 | the object's release, likewise |
| Ledger.StepKeepsInv | routing/store.py:155-210 | after every commit each paid attempt has a liability with its date and reservation, and each settled liability a settled attempt with its cost |
| Ledger.RunKeepsInv | routing/store.py:155-210 | the same in every state of every run, wherever a crash or outage falls |
| Ledger.RestartedImport | routing/budget.py:55-60 | importing into an authority that already covers the journal changes nothing |
| Ledger.JournalTableAfterFinish | routing/store.py:187-203 | a finish changes the liabilities the journal implies exactly as settling changes the authority |
| LedgerTheorems.Conservation | routing/store.py:155-210 | per day the authority holds exactly the journal's liability, plus orphans, plus what late settlements have yet to free |
| LedgerTheorems.NeverUnderstated | routing/store.py:204-210 | while settlements fit their reservations the authority never understates the journal |
| LedgerTheorems.DayLimitHolds | routing/budget.py:73-78 | no day exceeds its limit on any run whose settlements fit their reservations |
| LedgerTheorems.DayLimitWithOverrun | routing/budget.py:73-82 | without that guard a day exceeds its limit by at most the overruns |
| LedgerTheorems.SettlementKeepsLimitExactly | routing/budget.py:80-82 | one settlement keeps the limit if and only if its excess over the reservation still fits |
| DayLimit.StepKeepsLimitExactly | routing/store.py:147-210 | any commit keeps every day within the limit if and only if the excess of what it settles still fits |
| DayLimit.LimitKeptExactly | routing/store.py:147-210 | over whole runs every state is within the limit if and only if every settling step, be it a settlement, a reconciliation or a finish before the first import, still fits |
| DayLimit.FitsWithinReservation | routing/budget.py:80-88 | settlements within their reservations always fit |
| LedgerTheorems.ReconciliationConverges | routing/store.py:147-153 | after one reconciliation spent is the sum of settled costs, and reserved the open reservations plus orphans |
| LedgerTheorems.ReconciliationIdempotent | routing/store.py:147-153 | a second one changes nothing |
| LedgerTheorems.LateSettleCommutes | routing/store.py:204-210 | a late settlement and a reconciliation can come in either order |
| LedgerTheorems.InterruptedMigrationRestarts | routing/store.py:62-73 | an interrupted migration restarts without losing or overwriting a liability |
| LedgerTheorems.SettledIsForGood | routing/store.py:190-198 | once settled, status and cost of an attempt never change on any run |
| LedgerTheorems.OrphanIsRetained | routing/store.py:167-174 | an orphan reservation is kept unchanged on every run |
| LedgerTheorems.SessionExclusion | routing/store.py:116-134 | until its own request releases it, no other request acquires a session, over every interleaving |
| LedgerTheorems.OthersLeaveTheRow | routing/store.py:132-134 | releases and finishes of other requests leave a session's row as it is |
| LedgerTheorems.ClientRequestAdmittedOnce | routing/store.py:118-121 | a client request id is admitted at most once on any run |
| RoutePricing.CostWithinReserve | routing/engine.py:166-171 | usage within both token bounds never costs more than was reserved, ceilings included |
| RoutePricing.ReserveIsReached | routing/engine.py:166-171 | and some usage within the bounds costs exactly the reservation |
| RoutePricing.ContentPassesExactly | routing/engine.py:112-122 | the search lets a body pass if and only if no value anywhere in it is an attachment or has a type that cannot be looked up |
| RoutePricing.PaidHasNoAttachment | routing/engine.py:132-133 | no paid request with an attachment anywhere in it is sent |
| RoutePricing.Prepare | routing/engine.py:125-171 | a request is sent if and only if its body, route and proof allow it, told key by key; then every field of what is sent, the token bound and the reservation; and which refusals are 402 and which 400 |
| RoutePricing.PreparesExactly | routing/engine.py:125-171 | when a request is sent and with which status it is refused, told from its body, route and binding |
| RoutePricing.SentExactly | routing/engine.py:125-171 | what is sent: the smaller of the bound asked for and the model's, one output, and the reservation at the dearest input price |
| RoutePricing.ContentReasons | routing/engine.py:112-122 | when the search refuses a body, and when it raises |
| RoutePricing.PreparedIsCovered | routing/engine.py:125-171 | a request that may be sent carries an enforceable output bound, a priced tier and tools, and a reservation covering every usage within its bounds |
| RoutePricing.PreparedKeepsTheRest | routing/engine.py:125-151 | no other field of the body changes |
| Receipts.ReceiptsNeverDisagree | routing/server.py:135-165 | no receipt is at once a zero receipt and one with a cost |
| Receipts.UsageExactly | routing/server.py:148-165 | a usage is authoritative if and only if a receipt of this attempt ended well on the admitted model and gives the four counts under their keys |
| Receipts.ZeroExactly | routing/server.py:135-147 | a zero receipt is one of this attempt, terminal, failed, never started and billed nothing, on the admitted model or on none if nothing was accepted |
| Receipts.CostIsProved | routing/engine.py:197-200 | the cost of a receipt is its four counts at the frozen prices, rounded up; any other answer proves none |
| Service.ActIsJustified | routing/server.py:119-193 | whichever code path makes a finish, it settles a paid attempt only on a native receipt naming it and its account |
| Service.ServedNow | routing/server.py:178-193 | a finish computed from a record read earlier is what the row as it is now asks for |
| Service.ServedCompose | routing/store.py:155-210 | one call after another is one run of the service |
| Service.ServedAdmit | routing/store.py:155-185 | an admission call, whichever of its commits fails, is a run of the service |
| Service.ServedFinish | routing/store.py:187-210 | so is a finish call of any code path |
| Server.Application.Finish | routing/store.py:187-210 | a finish on an older record changes one row by progress only, as a run of the service |
| Server.Application.Finalize | routing/server.py:167-176 | a paid attempt is settled at the bill of the usage its receipt reports and left open otherwise, an included one at zero when complete; a success binds its session |
| Server.FinalizeMeans | routing/server.py:167-176 | what the row of a finalized attempt is, paid or included |
| Server.ReconciledAsTold | routing/server.py:178-193 | what maintaining an attempt leaves of its row and its session, told from what the answer says |
| Server.Application.Unresolved | routing/store.py:230-235 | the newest open attempts, newest first, at most the limit, and all of them when they fit |
| Server.Application.Conclude | routing/server.py:184-193 | settling and letting go of the session are two transactions; a failure of the first prevents the second |
| Server.Application.ReconcileOne | routing/server.py:180-193 | an attempt another call may have finished meanwhile is finished exactly when its answer reports nothing billed or a usage, at the cost that proves, and only its own request is released |
| Server.Application.Reconcile | routing/server.py:178-193 | a pass makes progress on receipts alone, releases a session only when an answer reports on an attempt of its own request, and settles every listed attempt whose answer proves its cost unless a failure ends it |
| ServerTheorems.ServiceRunsAreServed | routing/server.py:119-193 | every finish on a run of the service is justified by a receipt |
| ServerTheorems.SettledOnlyFromReceipts | routing/server.py:119-193 | on every run of the service a paid attempt is settled only from a native receipt naming it and its account, at zero or at the price frozen at admission |
| ServerTheorems.CallsSettleFromReceipts | routing/server.py:119-193 | the same for whatever a sequence of calls on the object reaches |
| ServerTheorems.PreparedReserve | routing/engine.py:166-171 | what an admission reserves for a paid route is the reservation of the bounds sent upstream |
| ServerTheorems.HonestIsWithinReservation | routing/server.py:148-176 | a receipt within the bounds that were sent never asks for more than was reserved |
| ServerTheorems.HonestUpstreamKeepsDayLimit | routing/server.py:367-452 | end to end: on every run of the service with an upstream that honours the bounds it is sent, no day passes its limit and the authority never understates the journal |
| ServerTheorems.FreshServiceKeepsDayLimit | routing/server.py:367-452 | starting from an empty journal the honest upstream is the only assumption |
| Overrun.OverrunBreaksLimit | routing/budget.py:80-82 | without it the limit fails: a run of the service from an empty journal, with a genuine receipt above its reservation |
| Dispatch.FallsBackExactly | routing/server.py:399-451 | the next route is tried exactly after an attempt that is safe to abandon, never after one of uncertain delivery |
| Dispatch.ClosingIsJustified | routing/server.py:401-445 | every closing call of the loop settles a paid attempt only on a receipt that names it |
| Requests.Deliver | routing/server.py:399-445 | one attempt from its delivery to its close: what each answer leaves of its row and session and how the request ends, a run of the service whatever fails |
| Requests.DeliveryIsTold | routing/server.py:399-445 | the same, delivery by delivery: settled at zero, left open, finalized or untouched, and whether the request ends, with which status, or falls back |
| Requests.TryRoute | routing/server.py:371-451 | one route, prepared, admitted, delivered and closed: when it is refused and how, the admitted row field by field, and exactly when the loop goes on |
| Requests.TryRoutes | routing/server.py:367-452 | routes are tried in order, another one only after the one before was passed by; the journal holds exactly what they left; the outcome is that of the last route, or the last reason when all were passed by |
| Requests.Serve | routing/server.py:361-365 | nothing is tried without the session; otherwise it is taken, the routes are tried, and it is let go of however the request ends |
| Dispatch.NothingAfterUncertain | routing/server.py:406-451 | no attempt follows one of uncertain delivery, one handed to the client, or one that could not be closed; all share one policy version |
| Dispatch.FinalizedIsLast | routing/server.py:418-440 | at most one attempt is finalized, and it is the last |
| Dispatch.ClosingNeedsZeroReceipt | routing/server.py:401-412 | before finalizing, the loop settles a paid attempt only at zero, and only on a zero receipt naming the attempt and its account |
| Candidates.ExhaustedExactly | routing/engine.py:36-53 | a quota counts as exhausted if and only if it was freshly observed empty with its reset ahead |
| Candidates.EligibleExactly | routing/engine.py:72-93 | which routes may be tried, told from status, scopes, bindings and quota |
| Candidates.PriceExactly | routing/engine.py:98-104 | the cheapest role compares the reservation of every paid route that can be sent, and puts the others last |
| Candidates.BeforeExactly | routing/engine.py:94-106 | the sort key puts one route before another exactly in the order bound model, included, reservation, model, account of the session, quota left per second, quota left |
| Candidates.OrderModels | routing/engine.py:65-68 | the bound model moves to the front, all others keep their order |
| Candidates.Collect | routing/engine.py:72-105 | collects exactly the eligible routes, in order, or raises exactly when preparing one of them raises |
| Candidates.SortEntries | routing/engine.py:106 | a stable sort by the lexicographic key |
| Candidates.RoutesFor | routing/engine.py:56-109 | the answer is every route that may be tried once, in the order told; none exactly when there is none; a failure exactly when comparing one raises |
| Candidates.AnswerIsUnique | routing/engine.py:106-109 | eligibility and key determine the whole list |
| Candidates.IncludedBeforePaid | routing/engine.py:94-106 | bound routes come first, and in each half every included route precedes every paid one |
| Candidates.NothingForbidden | routing/engine.py:72-93 | never a model that is denied, outside the client's models, without the protocol or hidden outside its session, nor an account that is disabled, unbound, unsupported, exhausted or out of scope by client or header |
| StreamUsage.LinesOfSplit | routing/engine.py:216-217 | lines of a stream are those of its front, then those of the front's tail with the rest |
| StreamUsage.FeedIsFold | routing/engine.py:210-242 | feeding chunks that fit is one fold over the lines of the whole stream |
| StreamUsage.ChunkingDoesNotMatter | routing/engine.py:210-242 | two splits of the same bytes that fit reach the same usage, completion, failure and buffer |
| StreamUsage.OverflowFails | routing/engine.py:212-215 | an overflow fails the stream for good |
| StreamUsage.SuccessExactly | routing/server.py:472-474 | a stream counts as successful if and only if no feed overflows and the fold over all its bytes does |
| StreamUsage.StripExactly | routing/engine.py:220 | a line's value is what stands between the white space around it |
| StreamUsage.LinesExactly | routing/engine.py:216-217 | the lines, each with its end, and the rest after the last one make up the stream |
| StreamUsage.PayloadExactly | routing/engine.py:174-194 | which usage an event tells, cached tokens taken out of the input count, and exactly when it breaks the parser |
| StreamUsage.FoldMarks | routing/engine.py:221-234 | a stream is complete if and only if some line ends it or is a final event, and failed if and only if some line tells a failure |
| StreamUsage.FoldMerges | routing/engine.py:235-241 | the fields a messages stream merges are those its events give, later values in place of earlier ones |
| StreamUsage.FoldEndsAsSaid | routing/server.py:454-474 | verdict and usage of a whole stream, told from its lines and what they decode to |
| StreamUsage.OneChunkTooMany | routing/engine.py:211-215 | 4,000,001 empty lines fail in one chunk and pass in two |
| StreamUsage.Observer.Consume | routing/engine.py:218-242 | the branches of one line equal one step of the fold |
| StreamUsage.Observer.Feed | routing/engine.py:210-242 | one feed of the object equals one step of the incremental specification |
| StreamUsage.Forward | routing/server.py:454-474 | forwarding ends cut, broken or finalized: successfully exactly when a line completes the stream and none tells a failure, with the usage told last, and unsuccessfully whenever a feed overflows |
| Csv.WriteRows | src/lib/usage-export.ts:32-51 | a line for each row with CRLF behind it, cells between commas, guarded against formulas, and quoted exactly when they hold a quote, comma or line end |
| Csv.FileExactly | src/lib/usage-export.ts:26-51 | the same of the text the writer is proved to yield |
| Csv.ParseCsv | src/lib/statement-import.ts:28-42 | the index loop with look-ahead equals a recursive reader |
| Csv.PlainRun | src/lib/statement-import.ts:34-37 | what ends a field and a row outside quotes, for all three kinds of line end |
| Csv.QuotedRun | src/lib/statement-import.ts:31-33 | inside quotes two quotes are one and a single one closes |
| Csv.KeptExactly | src/lib/statement-import.ts:41 | exactly the rows with some text are kept, in order |
| Csv.RoundTrip | src/lib/usage-export.ts:26-30 | parsing what was written returns exactly the guarded cells of every row that is not blank |
| Csv.NotBlankExactly | src/lib/statement-import.ts:41 | which rows count as not blank after guarding |
| Csv.NoFormulaSurvives | src/lib/usage-export.ts:28 | no cell read back can start a spreadsheet formula |
| Csv.ParseAppend | src/lib/statement-import.ts:28-42 | lines appended to a text add rows and change none, whether the text ends its last line or the line break only comes with them |
| Csv.LastBreak | src/lib/statement-import.ts:36-40 | outside quotes a last line break changes nothing |
| Csv.PrintedContinues | src/lib/usage-export.ts:32-51 | a written file can always be appended to |
| Amounts.GroupedReadsBack | src/lib/statement-import.ts:105-111 | numbers with grouped thousands are read as themselves in both styles |
| Amounts.PlainReadsBackExactly | src/lib/statement-import.ts:105-111 | a plain decimal is read as itself if and only if its decimals cannot be taken for a group of thousands |
| Amounts.CommaReadsExactly | src/lib/statement-import.ts:105-110 | a decimal comma is read, taken for thousands, or refused, by the number of digits around it |
| Amounts.DigitsAreKept | src/lib/statement-import.ts:107-109 | the digits read are the digits written, in order |
| Amounts.SignsNegate | src/lib/statement-import.ts:97-104 | parentheses and a minus each negate and together cancel |
| StatementReader.ColumnsFoundExactly | src/lib/statement-import.ts:43-72 | without a mapping a statement can be read if and only if its header has a common name for date and amount; the one listed first is taken |
| StatementReader.ColumnsExactly | src/lib/statement-import.ts:54-72 | each field is read from the column the caller names, or else the first common name there is; when a header is refused |
| StatementReader.IsoReadsBack | src/lib/statement-import.ts:76-82 | a date as it is stored is read as itself under every format |
| StatementReader.SlashReadsBack | src/lib/statement-import.ts:85-90 | a date with slashes or points is read as itself under its own order, and refused without one |
| StatementReader.NamedMonthReadsBack | src/lib/statement-import.ts:74-84 | a date with a month's name, before the day or after it, is read as itself |
| StatementReader.SignedReadsBack | src/lib/statement-import.ts:95-111 | signs and parentheses of a cell from which codes, symbols and white space were taken |
| StatementReader.CodedReadsBack | src/lib/statement-import.ts:99-113 | a number with its currency code is read as that number in that currency |
| StatementReader.SymbolReadsBack | src/lib/statement-import.ts:99-113 | a number behind a currency sign is read in the sign's currency |
| StatementReader.RowExactly | src/lib/statement-import.ts:126-147 | a row is a charge exactly when date, amount and currency can be read, of these, with the description and reference of their columns |
| StatementReader.CellsAreTrimmed | src/lib/statement-import.ts:123 | what is read of a cell is what stands in it between white space |
| StatementReader.ChargeIsReadable | src/lib/statement-import.ts:129-147 | a row read as a charge has a day that exists, a currency code and no blank reference |
| StatementReader.OfferIsValidExactly | src/lib/accounting.ts:24-37 | the journal finds a read statement's records valid if and only if no identity is too long and no amount too large |
| Statement.ImportRows | src/lib/statement-import.ts:126-149 | a record for every charge in order, known by its reference or by digest and number among equal rows, and the line and reason of every skipped row |
| Statement.ReadingsAreTold | src/lib/statement-import.ts:126-149 | the same of the records and skips the loop is proved to yield |
| Statement.RefusedExactly | src/lib/statement-import.ts:116-123 | which statements are refused, for which first reason |
| Statement.ImportStatement | src/lib/statement-import.ts:116-151 | which statements are refused, for which first reason, and the records of all others |
| Statement.IdentitiesDistinct | src/lib/statement-import.ts:139-145 | unreferenced rows of one statement get pairwise distinct identities |
| Statement.RecordsOfPrefix | src/lib/statement-import.ts:126-149 | appended rows leave earlier records and skips unchanged |
| Statement.StatementExtends | src/lib/statement-import.ts:116-151 | the same for lines appended to a statement |
| Statement.GrownIsRefusedExactly | src/lib/statement-import.ts:117-123 | a grown statement is refused by the importer if and only if it has too many characters or rows |
| Statement.Post | src/app/api/accounts/accounting/import/route.ts:32-37 | a posted statement is stored as a whole or leaves the journal as it was: the records told from its rows, those that are new behind the old ones, exact counts; a dry run stores nothing |
| Statement.PostedAgain | src/app/api/accounts/accounting/import/route.ts:32-37 | a statement once taken is taken again at any later time and inserts nothing |
| Statement.GrownBatch | src/lib/accounting.ts:127-138 | a batch grown after it was accepted: when it is accepted, and that it then leaves the journal as if it had come at once |
| Statement.ImportTwice | src/app/api/accounts/accounting/import/route.ts:32-37 | a statement once taken, and posted again with lines appended, is taken if and only if it is within the limits on characters, rows and charges, valid and free of conflicts; then the journal is as if both had come at once, otherwise unchanged |
| GrownStatement.OneLineTooMany | src/lib/accounting.ts:128 | a thousand lines the importer reads are taken; with one new valid line more they are read but refused, and nothing is inserted |
| Accounting.Deduplicate | src/lib/accounting.ts:47-55 | fails if and only if two rows share an id but differ; otherwise keeps first occurrences in order |
| Accounting.FirstsProperties | src/lib/accounting.ts:47-55 | what is kept has distinct ids and misses none |
| Accounting.Journal.Append | src/lib/accounting.ts:127-138 | a batch is taken exactly when its size is right, every input can be recorded and no two facts share an id; then exactly the inputs with new ids are added, in order, and otherwise nothing |
| Accounting.ValidExactly | src/lib/accounting.ts:27-37 | which records are valid: texts, amount, currency, note and a day of the calendar, written out |
| Accounting.ImportIsTold | src/lib/accounting.ts:127-138 | what a batch leaves of the journal, told from the rows before it and its inputs |
| Accounting.AppendIdempotent | src/lib/accounting.ts:127-138 | the same facts at a later time are accepted and insert nothing |
| Accounting.InsertedExactly | src/lib/accounting.ts:134-136 | a batch inserts exactly the ids that are new |
| Accounting.OneConflictRefusesAll | src/lib/accounting.ts:131-133 | two rows of a batch under one id with other facts: nothing of the batch is stored |
| Accounting.ExtendedImport | src/lib/accounting.ts:127-138 | a batch and later a longer one are free of conflicts if and only if the longer one would be at once, and leave the same journal |
| BrowserTurns.StepKeepsValid | src/lib/browser-lease.ts:85-112 | every step keeps each turn linked to the last turn of its profile, or to none when nothing is in progress |
| BrowserTurns.MutualExclusion | src/lib/browser-lease.ts:83-112 | per profile at most one granted turn is not yet freed |
| BrowserTurns.GrantsInOrder | src/lib/browser-lease.ts:83-112 | turns are granted in order of arrival, even when waiters give up or a new chain starts |
| BrowserTurns.OverStays | src/lib/browser-lease.ts:91-97 | a turn that is freed or gave up stays so |
| BrowserTurns.QueueNeverSticks | src/lib/browser-lease.ts:104-109 | while somebody waits on a profile nobody holds, the queue can move |
| BrowserTurns.ProfileTurns.Join | src/lib/browser-lease.ts:85-90 | the synchronous start of a turn |
| BrowserTurns.ProfileTurns.Decide | src/lib/browser-lease.ts:98-111 | a waiter is granted its turn after all before it, or gives up |
| BrowserTurns.ProfileTurns.Release | src/lib/browser-lease.ts:91-97 | a turn is freed once, and its entry dropped if it is the last |
| BrowserTurns.ProfileTurns.ResolveTail | src/lib/browser-lease.ts:108 | a given-up turn's entry stays until everything before it is over |
| BrowserTurns.ChannelNeverSticks | src/lib/browser-lease.ts:59-65 | while a lifecycle request waits, one runs or the next can start |
| BrowserTurns.Controller.Submit | src/lib/browser-lease.ts:61-64 | a request queues behind all earlier ones |
| BrowserTurns.Controller.Start | src/lib/browser-lease.ts:59-65 | a lifecycle request starts only when all earlier ones have ended |
| BrowserTurns.Controller.End | src/lib/browser-lease.ts:59-65 | and ending it leaves none running |
| BrowserLease.StepKeepsInv | src/lib/browser-lease.ts:114-266 | granted turns and their owners, open leases and armed timers, and remembered sessions and open manual leases always fit |
| BrowserLease.RunKeepsInv | src/lib/browser-lease.ts:114-266 | the same in every state of every run |
| BrowserLease.StepIsTold | src/lib/browser-lease.ts:67-266 | what each step does to queue, calls, leases, timers, ids, sessions and channel, field by field; the methods of `LeaseDesk` below ensure it |
| BrowserLease.OneRequestAtATime | src/lib/browser-lease.ts:59-65 | over all runs of acquires, renewals and releases never two lifecycle requests are under way |
| BrowserLease.RequestsInOrder | src/lib/browser-lease.ts:59-65 | requests start in the order they were sent, each after the one before has ended |
| BrowserLease.OneLeasePerProfile | src/lib/browser-lease.ts:75-112 | per profile this process never has two open automatic leases, nor one beside a call asking for one |
| BrowserLease.GrantedHasAnOwner | src/lib/browser-lease.ts:149-201 | a granted turn always belongs to a call in progress or an open lease with an armed timer |
| BrowserLease.LeasesInOrder | src/lib/browser-lease.ts:83-112 | over a run of whole acquires and releases turns are granted in order of arrival, each once |
| BrowserLease.TurnIsKeptUntilClosed | src/lib/browser-lease.ts:114-125 | an automatic lease's turn is freed if and only if an exchange closing it has ended or its timer has fired |
| BrowserLease.TimerWaitsForExpiry | src/lib/browser-lease.ts:119-123 | the timer fires after the local expiry, for all expiries within the cap, and a second after it unless the cap cuts that off |
| BrowserLease.ArmedAfterExpiryExactly | src/lib/browser-lease.ts:114-123 | the timer is set past the expiry if and only if the expiry is within the cap |
| BrowserLease.FarExpiryIsLostEarly | src/lib/browser-lease.ts:114-123 | a run from a fresh process on which a far expiry frees the turn while the owner still holds the lease |
| BrowserLease.BlockedOnlyBySession | src/lib/browser-lease.ts:150-152 | automatic reads fail at once only while a person's lease on that profile is open and unexpired |
| Sessions.BlockedExactly | src/lib/browser-lease.ts:150-152 | automatic reads fail at once if and only if the last event of the profile's session is a grant or renewal still ahead of its expiry |
| Sessions.RememberedExactly | src/lib/browser-lease.ts:80-81 | what is remembered of a profile is its last grant or renewal, unless something has cleared it since |
| Sessions.LoneSessionBlocks | src/lib/browser-lease.ts:150-152 | while a person's lease is the only one of its profile open or being closed, automatic reads fail at once exactly until it expires |
| Sessions.ShorterSessionUnblocks | src/lib/browser-lease.ts:119-123 | a run on which a shorter second session ends and reads are let through during the first |
| BrowserLease.LeaseDesk.Ask | src/lib/browser-lease.ts:149-153 | the start of an acquire: refused during a person's session, otherwise queued |
| BrowserLease.LeaseDesk.Take | src/lib/browser-lease.ts:161-178 | a granted lease is stored and its timer armed; a manual one gives its turn back |
| BrowserLease.LeaseDesk.Refused | src/lib/browser-lease.ts:193-199 | a failed acquire gives its turn back |
| BrowserLease.LeaseDesk.Wait | src/lib/browser-lease.ts:119-123 | time passes between await points and changes nothing else, until a timer may fire |
| BrowserLease.LeaseDesk.Fire | src/lib/browser-lease.ts:119-123 | the timer's callback |
| BrowserLease.LeaseDesk.Send | src/lib/browser-lease.ts:61-64 | a call queues its lifecycle request |
| BrowserLease.LeaseDesk.StartRequest | src/lib/browser-lease.ts:61-64 | it starts when it is its turn |
| BrowserLease.LeaseDesk.EndRequest | src/lib/browser-lease.ts:61-64 | and ends |
| BrowserLease.LeaseDesk.BeginRenewal | src/lib/browser-lease.ts:203-210 | a renewal begins and changes no lease yet |
| BrowserLease.LeaseDesk.EndRenewal | src/lib/browser-lease.ts:211-221 | a granted renewal re-arms the timer of the lease if it is still held by then, and moves a person's session |
| BrowserLease.LeaseDesk.BeginRelease | src/lib/browser-lease.ts:230-236 | a release remembers the entry it found |
| BrowserLease.LeaseDesk.EndRelease | src/lib/browser-lease.ts:255-266 | an automatic turn is given back even when the close failed, a person's session only when it was closed |
| RetryBudget.DelayBounds | src/lib/browser-lease.ts:49-53 | a delay is between half and all of its ceiling and never nothing |
| RetryBudget.CeilingExactly | src/lib/browser-lease.ts:49-53 | the ceiling doubles with each attempt until it meets the cap |
| RetryBudget.DelayExactly | src/lib/browser-lease.ts:49-53 | the delay is half the ceiling plus the drawn part of the other half, to the nearest millisecond |
| RetryBudget.RetryableExactly | src/lib/browser-lease.ts:181-182 | which refusals clear on their own, for acquires and for renewals and releases |
| RetryBudget.ClockExactly | src/lib/browser-lease.ts:155-192 | the time counted is the wait, every exchange, every delay and every late wake-up so far |
| RetryBudget.Exchange | src/lib/browser-lease.ts:155-192 | the request loop always ends; it asks again exactly while the refusal clears on its own and the time passed with the next delay fits the budget |
| RetryBudget.BudgetBoundsRequests | src/lib/browser-lease.ts:186-191 | the delays of one call never add up to more than its budget, for every random sequence |
| RetryBudget.DefaultBounds | src/lib/browser-lease.ts:21-31 | with the default policy at most 40, 12 or 10 requests per call |
| RetryBudget.BoundsAreReached | src/lib/browser-lease.ts:21-31 | and these numbers are reached |
| Reauth.PolledKeeps | src/lib/proxy-reauth.ts:165-216 | every poll keeps the trace safe |
| Reauth.PollOnce | src/lib/proxy-reauth.ts:166-216 | one pass through the loop's body, with its caught and fatal errors, equals the specification of one poll |
| Reauth.StartedExactly | src/lib/proxy-reauth.ts:98-107 | which answers of the proxy hold a flow: on claude.ai's own authorize page, with a state |
| Reauth.PolledDoes | src/lib/proxy-reauth.ts:165-216 | what a poll must do, told from its answers and what earlier polls left: hand over, read and click, ask for a flow again, send the tab back, or nothing |
| Reauth.RunIsTold | src/lib/proxy-reauth.ts:161-229 | every run does what its polls ask for, one after the other, and ends as its last one says |
| Reauth.ConsentIsGiven | src/lib/proxy-reauth.ts:197-206 | if the loop gets to the current, unexpired consent page and reads the account, the trace holds the address, for the expected one the click, and another one ends the job |
| Reauth.TabIsSent | src/lib/proxy-reauth.ts:187-196 | if it gets to an expired page, or that of another flow, with the pause over, the trace holds the new flow and the way there, or the way back |
| Reauth.WatchTab | src/lib/proxy-reauth.ts:161-216 | the polling loop equals the specification poll by poll |
| Reauth.Reconnect | src/lib/proxy-reauth.ts:161-229 | the loop does what its polls ask for and ends as the last one says, with a safe trace and at most six flows |
| Reauth.AwaitSaved | src/lib/proxy-reauth.ts:231-238 | the proxy counts as having saved exactly when its first answer that is not pending says so in time |
| Reauth.Exchange | src/lib/proxy-reauth.ts:228-240 | a hand-over succeeds exactly when the proxy took it, confirmed it in time, and the inventory does not speak against it |
| Reauth.RunReauth | src/lib/proxy-reauth.ts:112-240 | a job asks for a flow only with the expected account signed in, then does what its polls ask for, and succeeds exactly when its own callback was handed over, taken and confirmed and the inventory does not show that the sign-in missed the account; its trace is safe in every case |
| Credential.VerifiedExactly | src/lib/proxy-reauth.ts:262-312 | a saved sign-in counts if and only if a link names an active credential of the e-mail, or none names any and the active one is alone or all are active |
| Credential.VerifyIsTold | src/lib/proxy-reauth.ts:262-312 | every verdict, and every place noted, told from inventory and configuration |
| Credential.NoNoteMeansLinked | src/lib/proxy-reauth.ts:287-309 | a success without a note means that the snapshot key and every binding name a working credential |
| Reauth.EndIsSafe | src/lib/proxy-reauth.ts:165-230 | however the loop ends, its whole trace is safe |
| Reauth.ClickIsChecked | src/lib/proxy-reauth.ts:184-205 | a click is tried only on the current unexpired flow's page, right after the expected address was read |
| Reauth.NothingAfterClick | src/lib/proxy-reauth.ts:187-207 | after an acknowledged click only the hand-over follows, so a job has at most one |
| Reauth.OtherAccountEndsIt | src/lib/proxy-reauth.ts:201-203 | reading another account's address is the last thing a job does |
| Reauth.CallbackIsOwn | src/lib/proxy-reauth.ts:175-177 | a callback is posted with the state it carries, of a flow this job asked for |
| Reauth.AtMostSixFlows | src/lib/proxy-reauth.ts:186-195 | a job asks the proxy for at most six flows |
| MembershipCache.SweepIsFullScanExactly | src/lib/tenant.ts:32 | the early exit equals a full scan if and only if expired entries come first |
| MembershipCache.AgedIsEnough | src/lib/tenant.ts:28 | insertion order being age order is enough for that |
| MembershipCache.SteppingBackLeavesExpired | src/lib/tenant.ts:32 | calls after which a clock that stepped back leaves an expired entry behind |
| MembershipCache.CacheIsNewest | src/lib/tenant.ts:31-36 | on every run the capped cache is the newest part of an uncapped, fully swept one, the last call included |
| MembershipCache.DroppedAreOldest | src/lib/tenant.ts:35 | what the cap drops is no younger than anything kept |
| MembershipCache.CachedIsLatest | src/lib/tenant.ts:80-84 | a cached answer is the last one remembered for that user |
| MembershipCache.Cache.RememberMembership | src/lib/tenant.ts:31-36 | expired entries go from the front, the user's own goes, the new one comes last, and the last thousand stay |
| MembershipCache.RememberIsTold | src/lib/tenant.ts:31-36 | the same of one call on any entries without a user twice |
| MembershipCache.Cache.Read | src/lib/tenant.ts:80-81 | an expired entry is never answered |
| Identity.CollectOwners | src/lib/accounts.ts:176-184 | conflicting ownership is refused, and nothing else that is well formed |
| Identity.BindAccountIdentities | src/lib/accounts.ts:175-198 | ownership is refused, or every account goes to exactly one row, told from accounts and bindings: members and rows in order of input, and what each row shows |
| Identity.RowsAreTold | src/lib/accounts.ts:185-197 | the rows are those told |
| Identity.CarriersExactly | src/lib/accounts.ts:187-188 | an alias counts once for every account that carries it |
| Identity.RowColumns | src/lib/accounts.ts:192-195 | what each row carries: label and billing mode of its binding or first account, quota and coverage of the first, website and note of the first that has one |
| Identity.BindingPartitions | src/lib/accounts.ts:185-197 | every account is a member of exactly one row; two share one if and only if they resolve alike |
| Identity.ResolvesToPreferred | src/lib/accounts.ts:189-191 | an account resolves to the binding it prefers, judged from bindings and accounts alone |
| Identity.SharedExactlyByBindings | src/lib/accounts.ts:189-193 | two accounts share a row if and only if they prefer the same binding; that agrees with one binding naming both if and only if none names both or they prefer the same |
| Identity.UnnamedStaysAlone | src/lib/accounts.ts:191 | an account no binding names stays alone under its own id |
| Identity.TwoBindingsForOneAccount | src/lib/accounts.ts:190-191 | two accounts one binding names, kept apart by a second binding |

## Left out

- Usage and error texts, and event numbering of attempts; creation times are given and ordered, not formatted.
- SQLite itself, and a deletion of the authority's file before the migration is recorded; later it counts as unavailable.
- Policy bodies: a policy is its version, its limit and the verdict of all other validation rules.
- RoutePricing.Prepare: of an attachment under one key of an object and a value that raises under another, the first in key order decides; a `Dict` has no key order, so the attachment decides here. Nothing is sent either way. `Candidates.RoutesFor` inherits this.
- JSON decoding, `dict.update` with something that is no object, SHA-256, and the opaque ids of credential files are parameters.
- Characters are Unicode code points; UTF-16 lengths in the TypeScript code are not modelled.
- Money in records, quota pressure and retry delays are exact reals; floating-point rounding is not modelled.
- StatementReader.ChargeIsReadable: case mapping beyond ASCII, and the digest of a row's facts, are parameters.
- The fallback reason sent to clients, the flag that a receipt mismatch clears, and HTTP headers of an attempt beyond their match with a receipt.
- BrowserLease.LeaseDesk.EndRelease: a missing lifecycle configuration counts as a release that did not close the lease.
- RetryBudget.Exchange: a turn that times out in the queue sends no request and is modelled in `BrowserTurns`.
- Fairness of the external lease owner and progress after a crashed session, which the code does not promise.
- Reauth.ClickIsChecked: a click that happened but was not acknowledged may be repeated on the same page.
- Reauth.RunReauth: opening, borrowing and giving back the tab is one outcome; messages are left out.
- Journal files and remote sources of financial records; only the database-backed append is modelled.
- HTTP serving, the browser protocol, page scripts, user interface, dashboards, discovery and suggestions.
