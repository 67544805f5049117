# The loyalty ledger, verified

The system keeps, for every client of every organization, a fast aggregate (visit progress, gift counters,
cashback balance and totals) beside four tables that say the same things in detail: cashback lots with expiry
dates, gifts, redemption requests and an append-only ledger. Every operation updates several of them, and nothing
in the program checks that they agree. This project models those operations and proves that they agree after every
run, together with the idempotency protocol in front of them.

**How it is built.** Rows and tables are in `Rows`; a table is a sequence whose index is the primary key. What each
operation does to the tables is a function in `Guards`, `Cashback`, `Visits`, `Redemptions`, `Reversals` and
`Director`. The services themselves are imperative: `Store.Database` is a class with the mutable tables,
`Store.StateRow` is the aggregate row that a service loads, changes in memory and saves, and the modules ending in
`Service` (and `DirectorView`) hold the methods with their loops, early raises and rollbacks, each proved to leave
exactly the tables its function says, or the old ones if it raises. `Machine` puts the operations, the clock and the
director's changes together as one state machine, one step for each atomic block. The invariants are in `CashLaws`,
`GiftLaws` and `LedgerLaws`; `CashSteps`, `GiftSteps` and `Steps` show that every step keeps them. `Answers`,
`Bookings`, `ProgramChanges` and `Periods` say on the rows themselves what each operation answers and writes.
`LotHistory`,
`Agreement`, `Safety`, `VisitRuns`, `PurchaseRuns`, `FifoDominance`, `FifoRuns`, `Sweep`, `RequestSweep`,
`SweepsAmongOthers` and `Statistics` hold what follows for every reachable state and every run. `Idempotency` is a
protocol of its own. All amounts are unbounded integers in tiyin.

**Inputs.** The clock is part of the tables and only moves forward. A query whose row order the database chooses
is a parameter constrained to be an answer of that query: the lots of a spend (`Cashback.FifoOrder`, ties in any order;
`Fifo.FifoOrderExists` shows there is always one) and the ids of a sweep. A sweep's cutoff is a clock value read
earlier. Organizations and users exist from the start and may change at any time; program parameters stay in
their validators' ranges and are otherwise arbitrary. The handler behind an idempotent call is its outcome: a
body, or an exception.

**Where the code departs from its messages or documentation** (the code is followed):

- `confirm` marks an expired request EXPIRED and then raises inside the same atomic block, so the mark is rolled
  back and the request, with its gift held, stays PENDING until the sweep (`Safety.OverdueStaysPending`).
- An earning is refused as "partly spent" whenever anything is missing from its lot. `Agreement.EarnReversalRefused`
  names the causes: a standing spend uses the lot, an expiry entry names it, or a spend from it was reversed at or
  after its expiry. In the last two cases, unless a standing spend is beside them, the refusal is wrong
  (`Counterexamples.BurnedEarningRefusedAsSpent`, `Counterexamples.LateReturnRefusedAsSpent`).
- Reversing a visit that gave no gift when no progress is left loses the compensation
  (`Counterexamples.ReversalLosesProgress`); `VisitRuns.ClampsAccountForProgress` counts exactly how often.
- Statistics with an end date but no start begin 30 days before now and not before the end, so an end date further
  back than that gives an empty report (`Periods.DefaultPeriods`).
- `run_idempotent` promises one execution for each actor and key. A SYSTEM actor has no id, and the unique
  constraint of the PostgreSQL table does not equate NULL ids, so the promise holds exactly for actors with an id
  (`Idempotency.AtMostOnceIffIdentified`). This is about the function: every present endpoint that calls it is
  behind a director's or an organization admin's login, and those actors have ids.

## Model

| member | source | states |
|---|---|---|
| Steps.ReachableInv | app/apps/loyalty/models.py:26-74 | every state of every run from empty tables satisfies the four invariants: aggregates against lots, gifts and ledger; lots against sources and spends; gifts against visits, requests and redemptions; requests and reversals against the ledger |
| Steps.StepKeeps | app/apps/loyalty/services/reversal.py:44-126 | each atomic block, clock tick, user change and director change keeps all invariants, only grows the ledger and keeps the type of every organization with transactions |
| Agreement.BalancesAgree | app/apps/loyalty/services/cashback.py:171-369 | in every reachable state the fast balance equals the sum over ACTIVE lots and the signed replay of the whole ledger, each total equals its ledger sum, none is negative, and earned - spent - expired = available - unrecoverable parts + lost parts of reversals |
| Agreement.SweepIsExact | app/apps/loyalty/services/cashback.py:347-351 | a sweep's clamp never binds: it lowers the balance and raises the expired total by exactly what it burns |
| Agreement.EarnReversalIsExact | app/apps/loyalty/services/reversal.py:195-211 | no clamp of a reversed earning binds: the balance falls by what the lot held, the earned total by all of it |
| Agreement.SpendReversalIsExact | app/apps/loyalty/services/reversal.py:245-251 | the clamp of a reversed spend never binds: the balance rises by what was restored, the spent total falls by all of it |
| Agreement.RedemptionIsExact | app/apps/loyalty/services/redemptions.py:187-214 | a confirm uses exactly the requested gift and its clamp never binds: one gift moves from available to used |
| Agreement.RedeemReversal | app/apps/loyalty/services/reversal.py:254-270 | reversing a standing redemption always succeeds, makes exactly its gift AVAILABLE and moves one gift back, no clamp binding |
| LotHistory.ReachableHistory | app/apps/loyalty/services/cashback.py:139-168 | in every reachable state original - remaining of a lot that was not withdrawn is what standing spends use, what expiry entries burned, and what came back from its spends after its expiry |
| LotHistory.StepAccounts | app/apps/loyalty/services/reversal.py:214-251 | every step keeps that account: earnings, spends, burns, timely and late returns |
| Agreement.LotAccounting | app/apps/loyalty/services/cashback.py:150-159 | 0 <= remaining <= original, remaining > 0 iff ACTIVE, the exact split of what is missing, and before expiry only standing spends |
| Agreement.EarnReversalRefused | app/apps/loyalty/services/reversal.py:186-193 | for the director and the own admins: refused without force iff a standing spend uses the lot, an expiry entry names it or a spend from it was reversed at or after its expiry, neither of the last two before expiry; force always succeeds |
| Counterexamples.BurnedEarningRefusedAsSpent | app/apps/loyalty/services/reversal.py:185-191 | a reachable state where a swept earning nobody spent from is refused as partly spent |
| Counterexamples.LateReturnRefusedAsSpent | app/apps/loyalty/services/reversal.py:227-231 | a reachable state where an earning is refused as partly spent although its only spend was reversed and nothing was swept |
| Agreement.SpendReversal | app/apps/loyalty/services/reversal.py:214-251 | for any allowed caller reversing a confirmed spend always succeeds, restored + lost = amount, each lot that is unexpired and not withdrawn regains exactly what the spend took with its expiry date unchanged, whatever came in between, every other lot stays, and nothing is lost iff every lot of the spend is such |
| Agreement.VisitReversal | app/apps/loyalty/services/reversal.py:140-174 | for any allowed caller a visit can be reversed iff all its gifts are AVAILABLE; gift counters, totals and threshold progress are restored exactly, and progress is clamped exactly when the visit gave no gift and none is left |
| Agreement.GiftCoupling | app/apps/loyalty/services/redemptions.py:187-214 | a gift is PENDING_REDEMPTION iff exactly one PENDING request names it, USED iff exactly one COMPLETED redemption names it, CANCELLED iff its visit is REVERSED |
| Agreement.CountersAgree | app/apps/loyalty/services/visits.py:54-90 | counters equal the status counts, available + used = earned, total_visits counts the standing visits, and total_visits <= progress + open targets <= visits ever |
| Agreement.PurchaseEarns | app/apps/loyalty/services/cashback.py:171-235 | exactly when a purchase is booked, on the fields, and all it writes: the percentage rounded down as one entry with the purchase and the program of that moment and one new lot with the program's lifetime, or, if that is zero, no lot and no entry |
| Agreement.QuoteDecides | app/apps/loyalty/services/cashback.py:51-122 | the quote's flag agrees with validate_spend, allows exactly what balance and percentage allow, and decides whether a request is created |
| Guards.ClientErrors | app/apps/loyalty/services/state.py:37-44 | who is a client, and which error stops whom |
| Guards.OrganizationErrors | app/apps/loyalty/services/state.py:10-34 | when a program runs, on the fields, and which error stops an operation |
| Answers.VisitBookedIff | app/apps/loyalty/services/visits.py:32-33 | a visit is booked iff the client is active and the organization runs an active visit program; otherwise the guard's error |
| Answers.VisitWrites | app/apps/loyalty/services/visits.py:35-90 | all a visit writes: the entry with program, progress before and after and its gifts, each gift with its own entry, and the counters |
| Answers.GiftAsked | app/apps/loyalty/services/redemptions.py:42-85 | exactly when a gift can be asked for, the row and its deadline, the held gift, and the error otherwise |
| Answers.QuoteGivenIff | app/apps/loyalty/services/cashback.py:61-73 | exactly when there is a quote, and the error otherwise |
| Answers.QuoteFigures | app/apps/loyalty/services/cashback.py:75-93 | the figures of a quote on the rows: worth of the lots, largest amount within the percentage, cash left, fair earning, program, and whether a confirmation is needed |
| Answers.MaximumIsLargest | app/apps/loyalty/services/cashback.py:96-122 | max_allowed_spend is the largest spend that any quote for the same purchase passes |
| Answers.CashbackAsked | app/apps/loyalty/services/redemptions.py:88-141 | exactly when a request to pay with cashback is made, and that it keeps the total and spend asked for, the cash that remains, a fair earning, the program of that moment and the deadline, and changes nothing else |
| Answers.CashbackRefused | app/apps/loyalty/services/redemptions.py:99-104 | which error stops a request for which there is a quote |
| Answers.StrangersFindNothing | app/apps/loyalty/services/redemptions.py:157-164 | for anybody but its client a request does not exist, whatever its status |
| Answers.AdminsFindTheirOwn | app/apps/loyalty/services/redemptions.py:276-288 | an admin finds the requests of the own organization and cancels exactly the pending ones |
| Answers.SettledAnswers | app/apps/loyalty/services/redemptions.py:166-175 | what confirm and reject answer for each settled status, without changing anything |
| Answers.PendingAnswers | app/apps/loyalty/services/redemptions.py:177-232 | what they answer for a pending request, with the error of each refusal |
| Answers.PurchaseConfirmed | app/apps/loyalty/services/cashback.py:238-306 | all a confirmed purchase writes: both entries with the request's amounts and program, each lot charged by its entry, the new lot with its lifetime, the balance and the request's result |
| Answers.GiftConfirmed | app/apps/loyalty/services/redemptions.py:187-214 | all a confirmed gift request writes |
| Bookings.ReversalAnswers | app/apps/loyalty/services/reversal.py:51-76 | what stops a reversal, in order: no reason, no entry in scope, an entry that does not stand or cannot be reversed |
| Bookings.ReversalBooks | app/apps/loyalty/services/reversal.py:89-111 | every reversal marks its entry and adds one REVERSAL of now that names it, and changes no other aggregate and no request |
| Bookings.VisitReversalBooks | app/apps/loyalty/services/reversal.py:145-174 | a reversed visit records exactly its gifts and the progress it leaves, and cancels exactly those gifts |
| Bookings.EarnReversalBooks | app/apps/loyalty/services/reversal.py:195-211 | a reversed earning records what was withdrawn and what was not recovered, and empties exactly its lot |
| Bookings.SweepWrites | app/apps/loyalty/services/cashback.py:322-351 | all the sweep of one lot writes, and that a lot that is not due is left alone |
| Bookings.ExpiryWrites | app/apps/loyalty/services/redemptions.py:304-338 | all the sweep of one request writes, and that one that is not overdue is left alone |
| Bookings.EntriesAreStamped | app/apps/loyalty/models.py:77-78 | every entry a step writes is COMPLETED and carries the time of the step |
| Bookings.RunStamps | app/apps/loyalty/models.py:77-78 | whatever a run adds to the ledger was created between its start and its end |
| ProgramChanges.PatchAnswers | app/apps/director/views.py:134-157 | what stops a PATCH, in order |
| ProgramChanges.PatchStores | app/apps/director/views.py:159-174 | each given field is stored in its place, each other keeps its value or, if the program is missing, the model's default; the other program, the active flag and all other tables stay |
| ProgramChanges.PatchTwice | app/apps/director/views.py:159-174 | the same PATCH again is accepted and changes nothing more |
| ProgramChanges.SwitchStores | app/apps/director/views.py:195-237 | blocking and unblocking change the active flag and nothing else |
| Safety.RequestStep | app/apps/loyalty/services/redemptions.py:152-339 | a request leaves PENDING only through its user's confirm in time or reject, its organization's cancel, or the sweep once due, never leaves another status, and keeps what it asks for |
| Safety.SettledForever | app/apps/loyalty/services/redemptions.py:170-175 | a request that is not PENDING is the same row after any run |
| Safety.ConfirmOnce | app/apps/loyalty/services/redemptions.py:166-168 | after a successful confirm and any further run, confirming again changes nothing and gives the same status and entries |
| Safety.ConfirmSucceedsIff | app/apps/loyalty/services/redemptions.py:177-221 | a pending request is confirmed iff it is in time, its organization is active with its program switched on, and, for a purchase, the live lots cover the spend; its gift is always still there |
| Safety.OverdueStaysPending | app/apps/loyalty/services/redemptions.py:177-179 | an overdue PENDING request is the same row after any run without its reject, cancel or sweep, however often it is confirmed, and its gift stays held and cannot be asked for |
| Safety.AskingHolds | app/apps/loyalty/services/redemptions.py:42-85 | from the moment a gift is asked for, through any run that leaves the request PENDING, nobody can ask for it again and a reject gives it back AVAILABLE and unused |
| Safety.ClosingReleases | app/apps/loyalty/services/redemptions.py:304-318 | reject, cancel and sweep of a pending gift request make exactly its gift AVAILABLE again and touch no lot, aggregate or entry |
| Safety.RequestOwns | app/apps/loyalty/services/redemptions.py:218-221 | only CONFIRMED requests own entries, result_transactions lists exactly those, and they are one redemption of the gift, or one spend and at most one earning for the fixed amounts |
| Safety.ConfirmedPurchase | app/apps/loyalty/services/cashback.py:238-306 | for a confirmed purchase spend + cash = total, the consumed lots sum to the spend, spend is within the snapshot's limit, the earning is the floor of the snapshot's rate on the cash, and spend + earning <= total, whatever the program is now |
| Safety.LedgerOnlyGrows | app/apps/loyalty/models.py:77-78 | over any run entries are only appended, and of an old entry only the status changes, from COMPLETED to REVERSED |
| Safety.ReversedOnce | app/apps/loyalty/services/reversal.py:71-107 | an entry is REVERSED iff exactly one REVERSAL relates to it, it cannot be reversed again, and a REVERSAL undoes an earlier entry of the same client for its exact amount |
| Safety.ProgramsNeverMix | app/apps/director/views.py:151-161 | all entries of an organization are of one program, and every request is of its organization's current type |
| Safety.ConfirmNeedsNoType | app/apps/loyalty/services/redemptions.py:181-182 | confirm's check without an expected type gives the same answer as with the request's type |
| Safety.TypeChangesOnlyWhenEmpty | app/apps/director/views.py:134-190 | a PATCH changes the type iff the organization has no transactions and the program fields given are not of the other program, and then no lot, gift or request belongs to it |
| Safety.TenantsDoNotInterfere | app/apps/loyalty/services/reversal.py:178-182 | a step on one client of one organization changes, adds or removes no row of any other pair, although lots and gifts are looked up by primary key alone |
| Safety.ScopedToOrganization | app/apps/loyalty/services/reversal.py:67-69 | a reversal or a cancel under the scope of one organization changes no row of another, whatever entry or request it names |
| VisitRuns.VisitsUndoInReverse | app/apps/loyalty/services/reversal.py:140-174 | through any run in which visits of the client are reversed newest first, with every other step of anybody allowed, the newest is reversible by any allowed caller iff its gifts are AVAILABLE and leaves what it found; when all are undone progress, visits and earned gifts, and held plus used gifts, are restored exactly, from any starting progress |
| VisitRuns.AggregateIsRestored | app/apps/loyalty/services/reversal.py:140-174 | when moreover as many gifts are used as before, the client's whole aggregate is restored |
| VisitRuns.ClampsAccountForProgress | app/apps/loyalty/services/reversal.py:162-169 | over any run, progress + open targets = total_visits + the number of visit reversals whose clamp bound |
| VisitRuns.RewardEveryTarget | app/apps/loyalty/services/visits.py:54-86 | through any run in which n visits of the client succeed under one program and none is reversed, from any progress, as many rewards come as targets are reached by progress + n, but at most one a visit, and what is not rewarded stays as progress |
| VisitRuns.VisitsInTurn | app/apps/loyalty/services/visits.py:25-90 | n visits in turn all succeed if the first does, and change progress, visits, earned and available gifts by exactly that |
| VisitRuns.RewardsFromBelow | app/apps/loyalty/services/visits.py:54-58 | from progress below the target the rewards are the quotient and the progress left is the remainder |
| Counterexamples.ReversalLosesProgress | app/apps/loyalty/services/reversal.py:165-167 | a reachable state where a visit is reversed and progress is not lowered |
| Fifo.FifoSpend | app/apps/loyalty/services/cashback.py:139-168 | the spend succeeds iff available_amount covers it; the takes sum to the amount, empty a prefix of the expiry order, touch at most one further lot and leave the rest |
| Fifo.ShortfallIsExact | app/apps/loyalty/services/cashback.py:161-167 | the shortfall is exactly what available_amount lacks |
| Fifo.FifoOrderExists | app/apps/loyalty/services/cashback.py:145-149 | the spend's query has an answer in every state |
| FifoDominance.FifoLeaves | app/apps/loyalty/services/cashback.py:139-168 | after a FIFO spend, what lives past t is the smaller of what lived past t before and all that is left |
| FifoDominance.FifoDominates | app/apps/loyalty/services/cashback.py:139-168 | over any run of earnings, payments, waits and sweeps FIFO holds at least as much value expiring after every later moment as any other policy, and honours every payment that policy honours |
| FifoDominance.FifoWastesLeast | app/apps/loyalty/services/cashback.py:309-369 | FIFO never lets more value expire than any other policy making the same payments |
| FifoRuns.RunsAreFifo | app/apps/loyalty/services/cashback.py:139-168 | every run of the whole system in which no cashback of the client is reversed is such a FIFO run, which makes every payment that was confirmed; a refused payment is no event |
| FifoRuns.ServicesHoldMost | app/apps/loyalty/services/cashback.py:139-168 | so after any such run, refused confirms included, the client holds at least as much for every later moment, and has lost no more to expiry, than under any other choice of lots for the payments made |
| FifoRuns.RefusedOnlyIfImpossible | app/apps/loyalty/services/cashback.py:161-167 | whenever a purchase is refused for its lots, the client would hold too little for it under any choice of lots for the payments made so far |
| FifoRuns.PaidIffSomeoneCould | app/apps/loyalty/services/cashback.py:139-168 | a confirm of a purchase in time succeeds iff some choice of lots, made from the start of the run, could pay it |
| Sweep.BalanceExceedsByUnswept | app/apps/loyalty/services/cashback.py:45-48 | the fast balance exceeds available_amount by exactly the value of due lots not yet swept |
| Sweep.SweepConverges | app/apps/loyalty/services/cashback.py:309-369 | k runs at one moment leave nothing due iff k * batch_size covers the due lots; then every client's fast balance is available_amount and later runs change nothing |
| Sweep.BatchBurns | app/apps/loyalty/services/cashback.py:322-354 | a run burns exactly the lots of its batch and writes one entry for each |
| SweepsAmongOthers.SweepConvergesAmongOthers | app/apps/loyalty/services/cashback.py:309-369 | with any other steps between the blocks of the rows while the clock stands, k runs with k * batch_size covering the due lots leave none due; then every client's fast balance is available_amount and no sweep of a row changes anything |
| SweepsAmongOthers.ExpiryConvergesAmongOthers | app/apps/loyalty/services/redemptions.py:321-339 | the same for expire_pending, if new requests live for some time: every PENDING request is in time and no sweep of a row changes anything |
| SweepsAmongOthers.StepMakesNoneDue | app/apps/loyalty/services/cashback.py:322-354 | while the clock stands no step makes a lot due |
| RequestSweep.ExpiryConverges | app/apps/loyalty/services/redemptions.py:321-339 | k runs in turn leave nothing overdue iff k * batch_size covers the overdue requests; then every PENDING request is in time and later runs change nothing |
| Statistics.StatisticsRefineAggregates | app/apps/loyalty/services/statistics.py:29-87 | over the whole history visits, used gifts, earned, spent, expired and active balance of an organization are the sums of its clients' aggregates and available amounts |
| Statistics.ReversalsCountReversed | app/apps/loyalty/services/statistics.py:43-44 | over the whole history the reported reversals are as many as the organization's REVERSED entries |
| Periods.VisitFigures | app/apps/loyalty/services/statistics.py:29-66 | for any period each figure is the number of the rows of that organization, kind and status with from <= created_at (or used_at) <= to |
| Periods.CashbackFigures | app/apps/loyalty/services/statistics.py:69-87 | for any period the amounts are the sums over exactly the COMPLETED entries of the kind in it, and the active balance over exactly the lots alive now |
| Periods.PeriodsAddUp | app/apps/loyalty/services/statistics.py:29-87 | the figures of adjoining periods add up |
| Periods.QuietPeriod | app/apps/loyalty/services/statistics.py:29-87 | a period in which nothing happened reports zeros |
| Periods.DefaultPeriods | app/apps/loyalty/services/statistics.py:22-26 | without dates the report is on exactly the last 30 days; with an end date alone that lies before them it is empty |
| Money.ApplyBpsIsFloor | app/apps/common/money.py:11-15 | apply_bps is the largest whole amount within the exact percentage |
| Money.SplitPurchaseLoss | app/apps/common/money.py:11-15 | n rounded percentages sum to at most the rounded percentage of the total and to less than n below it |
| PurchaseRuns.SplitPurchases | app/apps/loyalty/services/cashback.py:171-235 | n booked purchases in turn earn at most what one purchase of their total earns, which is booked too, and less than n tiyin below it |
| Idempotency.AtMostOnceIffIdentified | app/apps/common/idempotency.py:57-98 | in every interleaving of any number of calls a handler succeeds at most once for an actor and key, iff the actor has an id |
| Idempotency.ReplaysAreFaithful | app/apps/common/idempotency.py:66-85 | a replay returns the stored body of the one call that ran under its actor and key, which had the same endpoint and payload hash |
| Idempotency.FailureLeavesNothing | app/apps/common/idempotency.py:87-92 | a call whose handler raised has no record left: every live record belongs to another call |
| Idempotency.TakeKeeps | app/apps/common/idempotency.py:57-98 | every atomic step keeps the protocol's invariant: own records, unique live keys, faithful replays |
| Idempotency.KeysAreRespected | app/apps/common/idempotency.py:20-28 | in every interleaving a call that lacks a required key is only ever answered 400, and a call runs unprotected only without a key that it need not have |
| Idempotency.KeylessStep | app/apps/common/idempotency.py:50-52 | no step of a call without a key touches the table, and its next step decides it |
| Idempotency.CallsMoveAlong | app/apps/common/idempotency.py:57-98 | a step moves at most its own call, along its path: it collides iff its key is held, is replayed only the completed record of the same request and refused only over a first record of another request or not completed |
| IdempotencyService.RunIdempotent | app/apps/common/idempotency.py:43-98 | one uninterrupted call does exactly the protocol's steps |
| IdempotencyService.CallAnswers | app/apps/common/idempotency.py:43-98 | what one call is answered and leaves in the table, by its key and the records it finds |
| IdempotencyService.RecordTable.First | app/apps/common/idempotency.py:67-69 | the first record of the actor with the key, if any |
| IdempotencyService.RepeatAfterCall | app/apps/common/idempotency.py:43-49 | a repeat with the same body gets the stored response, with another body a conflict, and after a failure the key is free |
| VisitService.EarnVisit | app/apps/loyalty/services/visits.py:25-124 | the method commits what Visits.EarnVisit says or raises its error and leaves the tables alone |
| VisitService.CreateGifts | app/apps/loyalty/services/visits.py:60-83 | the reward loop appends one gift and one entry for each reward, linked to each other and the visit |
| CashbackService.TakeLots | app/apps/loyalty/services/cashback.py:150-159 | the spend loop computes the FIFO take over its order |
| CashbackService.SpendLotsFifo | app/apps/loyalty/services/cashback.py:139-168 | it returns the entries iff available_amount covers the amount, and raises INSUFFICIENT_CASHBACK otherwise |
| CashbackService.EarnOnly | app/apps/loyalty/services/cashback.py:171-235 | commits the earning or raises and leaves the tables alone, also when the quote raises after the row was locked |
| CashbackService.ApplyConfirmed | app/apps/loyalty/services/cashback.py:238-306 | spend and earning of a confirmed purchase, or the error of the spend |
| CashbackService.ExpireLots | app/apps/loyalty/services/cashback.py:309-369 | burns the due lots among its ids one block at a time, returns their total value, and reports exactly the entries it wrote with lot and amount |
| RedemptionService.Confirm | app/apps/loyalty/services/redemptions.py:152-232 | compare-and-set of PENDING to CONFIRMED with its entries; repeated confirms answer the stored result; every error, also after EXPIRED was set, leaves the tables alone |
| RedemptionService.ExpirePending | app/apps/loyalty/services/redemptions.py:321-339 | expires the overdue requests among its ids and returns their number |
| RequestSweep.ExpiresOverdue | app/apps/loyalty/services/redemptions.py:330-338 | of the request rows exactly the overdue ones among the ids change, to EXPIRED |
| ReversalService.ReverseTransaction | app/apps/loyalty/services/reversal.py:44-126 | commits the compensation, the REVERSAL and the REVERSED mark, or raises and leaves no trace even when a handler raised half way |
| ReversalService.CancelAvailable | app/apps/loyalty/services/reversal.py:145-160 | the gift loop raises iff some gift is used or asked for, and otherwise cancels exactly the AVAILABLE ones and lowers the counters with them |
| ReversalService.ReverseVisit | app/apps/loyalty/services/reversal.py:140-174 | what is to be booked for a reversed visit |
| ReversalService.ReverseCashbackEarn | app/apps/loyalty/services/reversal.py:177-211 | withdraws the lot and hands back withdrawn and unrecoverable parts, or refuses without force |
| ReversalService.ReturnEntries | app/apps/loyalty/services/reversal.py:222-243 | the loop over the entries computes the lots, the restored and the lost amount of the reversal function |
| ReversalService.ReverseCashbackSpend | app/apps/loyalty/services/reversal.py:214-251 | returns each entry to its lot or counts it as lost |
| ReversalService.ReverseGiftRedeem | app/apps/loyalty/services/reversal.py:254-270 | a used gift is AVAILABLE again |
| Store.LockState | app/apps/loyalty/services/state.py:52-56 | loads the aggregate row and creates it if it is missing |

The other service methods (asking, rejecting and cancelling in `RedemptionService`, `DirectorView.Patch`) have no loop
and are proved equal to their functions; what those answer and write is in the rows of `Answers`, `Bookings` and
`ProgramChanges`.

## Left out

- Notifications, audit log, REST views, serializers (except the program/type check of the director's PATCH), throttles and settings: they change no loyalty table.
- Accounts, OTP, PIN, tokens, phone numbers, QR and code resolution: a client is a user id with a role and an active flag.
- Row locks and deadlock freedom: each atomic block is one serial step. In particular the director's PATCH checks for transactions and saves in one step here, while the program takes no lock that keeps a first transaction out between the two.
- Idempotency retention cleanup and process crashes between the steps of a call.
- The fallback of _reverse_cashback_earn that finds the lot by source_transaction: lot_id always resolves in reachable states, which the cashback invariant shows.
- Amounts are unbounded; the 64-bit and 32-bit column widths are not modelled.
- Statistics by client activity and by creation time of gifts (customers_active, gifts_created), turnover, repeat customers, and platform_statistics.
- Gift titles, texts, reasons beyond being present, and timestamps used only for display.
- Django admin edits and direct row creation in tests: they bypass the services.
- Director's creation of organizations: they exist from the start, idle until used.
- som_to_tiyin and money formatting.
- CashbackService.ExpireLots: which due lots a batch takes is the database's choice, so the ids are an input; `Sweep` and `SweepsAmongOthers` constrain them to an answer of the query.
- RedemptionService.ExpirePending: likewise, the ids of a batch are an input; `RequestSweep` constrains them.
- SweepsAmongOthers.ExpiryConvergesAmongOthers: takes REDEMPTION_TTL_SECONDS to be positive (it is 300 unless set otherwise); a request made with no time to live would be overdue at once.
- FifoDominance.FifoDominates: the runs contain no reversals, which return value to lots by what was taken from them and so depend on the policy.
