# Tenora: verified model of the money and state protocols

Tenora is a property-billing and subscription platform. This project models the parts of it that keep
money and access consistent, and proves what they guarantee, for all inputs, all runs and all
interleavings of transactions, also of those that decide on a row read earlier without a lock.

How the model is built:

- **Tables and transactions.** A table is a sequence of rows, a row's id is its position. Every locked
  transaction is one atomic step, a function from store to store (`Ledger.Pay`, `Checkout.Deliver`,
  `Subscriptions.ProcessEvent`, `Workspaces.Decide`). A unique constraint that fails leaves the store
  unchanged; in `apply_payment` the inner savepoint (a refusal becomes UNAPPLIED) and the outer rollback
  (a constraint violation) are kept apart. A transaction that decides on a row it read without a lock is a step
  that carries what it read and writes blindly to the row as it is by then. The functions are the specification.
- **Services.** The classes `PropertyLedger`, `OnlinePaymentService`, `WebhookProcessor`, `Platform`,
  `MeterReadingService` and `TariffService` hold the tables as fields and perform the writes in the order the
  services do. Each method is proved to have exactly the effect of its specification function, to keep the
  invariant, and to answer and leave what a predicate on the rows alone says it must (`CancelledAs`, `StartedAs`,
  `ReconciledAs`, `Took`, `InvitedAs`, ...): these predicates do not call the functions that compute the step, count
  rows, and write durations and limits out as numbers. The `RunExactly` lemmas say that every step of every run obeys
  them. The loops of `monthly_series`, `aging_report`, `filter_bills`, `lease_prerequisites`, `reconcile`
  and `process_pending` are methods with loops.
- **Environment.** Clocks, today's date, gateway answers, plan limits of accounts and slug collisions are
  parameters: every theorem holds whatever they are. Requests that span several transactions (`start`,
  `reconcile`, `refund`, `respond`) are runs of atomic steps, and the theorems about runs let any other step
  come in between.
- **Numbers.** Amounts are minor units, readings and billed units thousandths, multipliers and rates
  ten-thousandths; decimal arithmetic has 28 significant digits with half-even context rounding followed by
  the explicit half-up quantisation, as the code has it.

Files: `Tables`, `Calendar`, `Decimals` (shared); `Charges`, `Metering`, `Tariffs`, `Generation`, `Proration`
(arithmetic, readings, rates); `Ledger`, `LedgerInvariant`, `LedgerHistory`, `LedgerService` (bills, payments,
receipts); `Checkout`, `Settlement`, `SettlementHistory`, `SettlementPerAttempt`, `Confluence`, `ForgedKey`,
`LateCapture`, `CheckoutService`, `Interference` (online payments); `Aging`, `Filters`, `Reports` (read models);
`Subscriptions`, `SubscriptionSafety`, `SubscriptionEffects`, `StaleOverride`, `StaleUpgrade`,
`SubscriptionSweeps`, `OneSweep`, `StoryRow`, `Convergence`, `TroubleConvergence`, `WebhookService`
(subscription webhooks); `Workspaces`, `WorkspaceSafety`, `WorkspaceEffects`, `Seats`, `WorkspaceWitness`,
`WorkspaceService` (members, seats, owners, roots).

Where the code and its documentation disagree the model follows the code:

- `apps/properties/models.py:734` says an EXPIRED checkout "cannot settle". In the code a late capture of an
  EXPIRED or FAILED attempt is credited if it fits; `SettlementHistory.CaptureCreditedExactly` states when, and
  `LateCapture.ExpiredCheckoutSettles` is a run in which it happens.
- The payment endpoint accepts any idempotency key, also one that begins with `online:`
  (`apps/properties/serializers.py:201-208`); `ForgedKey.ForgedKeySwallowsCapture` gives a run in which that costs
  a capture. `SettlementPerAttempt.SettlementPerAttempt` states for each attempt exactly when its guarantee holds;
  the conservation of money over all attempts together assumes that no such key is sent (`Checkout.Honest`).
- Invitations are for residents (role MEMBER), yet accepting one makes a former owner an owner again:
  `Seats.AcceptYieldsOwnerExactly` says when, `WorkspaceWitness.InvitationRestoresOwner` is a run.
- The seat limit is exceeded by exactly one kind of operation, a platform demotion: `Seats.OverbookedExactly`, with
  the run `WorkspaceWitness.DemotionOverbooks`.
- A CANCELED subscription is documented as terminal for status and plan (`apps/billing/services.py:208-216`). Two
  paths decide on a row they read without a lock and save onto it later: overrides
  (`apps/platform/views.py:895-951`) and events for which `process_event` found nothing to lock
  (`apps/billing/services.py:571-578`), above all the paid upgrade (`apps/billing/services.py:723-748`).
  `StaleOverride.StaleOverrideMovesCanceledRow` and `StaleUpgrade.StaleUpgradeRevivesCanceledRow` are runs in which a
  canceled row moves, `SubscriptionSafety.CanceledFrozenExactly` is the exact condition.
- Webhook convergence with PAYMENT_TROUBLE events holds exactly under the condition of
  `TroubleConvergence.OrderIrrelevantExactly`. That every failed payment is older than the last charge is not quite
  enough: a second activation newer than that charge, processed between, makes the charge stale.
- One retry sweep is enough exactly under the condition of `OneSweep.OneSweepEnoughExactly`.

## Model

| member | source | states |
|---|---|---|
| LedgerInvariant.RunsStayValid | apps/properties/services.py:786-1200 | After any run of generate, add/remove line, publish, correct, pay, void and cancel: total is the sum of lines and never negative, paid is the sum of completed payments and never above total, status is determined by both, receipts are one per payment with unique numbers, one live bill per unit, resident and month, no number, key or reference repeats |
| LedgerInvariant.RunExactly | apps/properties/services.py:786-1549 | Whatever was done to the ledger before: the next operation answers and leaves exactly what its rule on the rows says, refusals with their codes included |
| LedgerInvariant.TotalIsSumOfLines | apps/properties/services.py:790-798 | Subtotal plus adjustments is the plain sum of all lines of a bill |
| LedgerInvariant.EditKeeps | apps/properties/services.py:913-980 | Adding or removing a draft line and both corrections keep a bill's totals, status and reading history consistent and leave its identity, number and balance alone |
| LedgerInvariant.AddLineKeeps | apps/properties/services.py:913-951 | A line can be added if and only if the bill is a draft, the type is not rent or electricity, the amount is positive (an adjustment: not zero) and the total stays nonnegative; exactly that line is then stored, a discount with its amount negated, and total and subtotal (discount and adjustment: adjustments) move by what is stored |
| LedgerInvariant.RemoveLineKeeps | apps/properties/services.py:954-980 | A line can be removed if and only if the bill is a draft, the line exists and the total stays nonnegative; exactly that line is gone and its amount taken off |
| LedgerInvariant.AdjustAmountKeeps | apps/properties/services.py:1056-1128 | An amount correction succeeds if and only if it is not zero, the bill is issued and the new total still covers what was paid; it is recorded, shows as one adjustment line of its delta, moves the total by exactly that and settles the status anew |
| LedgerInvariant.CorrectReadingKeeps | apps/properties/services.py:1131-1200 | After a reading correction the line plus all its corrections charges exactly what its newest closing reading charges |
| LedgerInvariant.CorrectReadingExactly | apps/properties/services.py:1131-1200 | A reading correction succeeds if and only if the bill is issued, the closing is not below the opening, differs from the billed one and the new total covers what was paid; it records the reading before and after with units and charges, and the total moves by the difference of the two charges, shown as one adjustment line |
| LedgerInvariant.EditExactly | apps/properties/services.py:913-1200 | Each of the four edits answers and changes exactly what its rule says, refusals with their codes included |
| LedgerInvariant.PublishKeeps | apps/properties/services.py:983-1013 | Publishing takes the next number of the workspace and settles the status at once, keeping every invariant |
| LedgerInvariant.PublishExactly | apps/properties/services.py:983-1013 | Publishing is refused only for missing and cancelled bills, changes nothing on issued ones, and gives a draft the next number of its workspace, the first being 1, with PAID if nothing is due and PUBLISHED otherwise; no other row changes |
| LedgerInvariant.CancelExactly | apps/properties/services.py:1016-1051 | Cancelling succeeds if and only if nothing is paid into the bill; then its status is CANCELLED and nothing else has changed, and a refusal changes nothing |
| LedgerInvariant.CancelFreesSlot | apps/properties/services.py:1016-1051 | Round trip over two operations: generating for the unit, resident and month of a live unpaid bill is refused with BILL_EXISTS; once that bill is cancelled, the same request makes a bill |
| LedgerInvariant.GenerateKeeps | apps/properties/services.py:836-910 | A generated bill is a consistent draft and no second live bill for its unit, resident and month |
| LedgerInvariant.GenerateMeans | apps/properties/services.py:836-910 | A bill is generated if and only if the month is valid, no meter ran backwards and no live bill exists for unit, resident and month. The draft charges the rent as RENT, each meter in order as one ELECTRICITY line with its own readings, multiplier and rate and the charge rounded half up twice, and the default maintenance as MAINTENANCE, and has no line of another type |
| Reports.GeneratedIsReported | apps/properties/reporting.py:86-154 | From generation to the report: as a draft the bill shows nowhere; once published, rent, electricity and other billed of its month grow by exactly the rent, the meters' charges and the maintenance it was generated from, units by the billed units, and no other month moves |
| LedgerInvariant.PayExactly | apps/properties/services.py:1401-1507 | A payment is created if and only if the key is new, the amount is positive and fits what is due on an open bill of the workspace, the date has come and the reference is new; otherwise nothing changes |
| LedgerInvariant.PayAnswers | apps/properties/services.py:1388-1432 | A key that is taken answers with the payment that took it if bill and amount agree and is refused otherwise, whatever else the request says; every other refusal names the first guard that fails |
| LedgerInvariant.CreditKeeps | apps/properties/services.py:1434-1452 | Payment row, balance, status and numbered receipt are written together and keep every invariant; the bill is PAID exactly when nothing is left to pay, the receipt takes the next number |
| LedgerInvariant.CompletedIsCovered | apps/properties/services.py:1400-1549 | Every completed payment sits on an issued bill whose balance covers it |
| LedgerInvariant.VoidKeeps | apps/properties/services.py:1510-1533 | Voiding keeps every invariant |
| LedgerInvariant.VoidExactly | apps/properties/services.py:1510-1533 | Voiding a completed offline payment marks it voided and takes exactly its amount off its bill, which is open again: PUBLISHED if nothing else was paid, PARTIALLY_PAID otherwise; online payments are refused, voided ones stay |
| LedgerHistory.RunContinues | apps/properties/services.py:1400-1549 | Over any run payments are never deleted or rewritten except offline ones turning VOIDED; bills keep workspace, unit, resident, month, currency and due date |
| LedgerHistory.CancelledForever | apps/properties/services.py:1016-1051 | A cancelled bill never changes again and holds no completed payment, whatever is done afterwards |
| LedgerHistory.VoidUndoesPay | apps/properties/services.py:1510-1533 | Voiding the payment just recorded restores every bill |
| LedgerHistory.RetryIsIdempotent | apps/properties/services.py:1388-1421 | Repeating a request with its idempotency key, after any other activity, answers with the original payment and changes nothing |
| LedgerHistory.CorrectionsArePathIndependent | apps/properties/services.py:1131-1200 | In reachable ledgers, lines with equal snapshots that end on the same corrected closing have charged the same amount and units, through whatever corrections, and that is what billing that closing at once charges |
| LedgerHistory.MoneyConserved | apps/properties/services.py:1400-1549 | In every reachable ledger the balances of all bills add up to all completed payments, and receipts match payments one to one, amounts included |
| LedgerService.PropertyLedger.GenerateBill | apps/properties/services.py:836-910 | The generation transaction with its rollback keeps the ledger valid and answers and leaves exactly what GenerateMeans says, line by line |
| LedgerService.PropertyLedger.ElectricityLines | apps/properties/services.py:866-888 | The loop over meters builds the charged electricity lines in order, or reports a negative consumption exactly when some meter has one |
| LedgerService.PropertyLedger.AddLineItem | apps/properties/services.py:913-951 | A line is added under exactly the conditions of AddLineKeeps and stored with the amount it states |
| LedgerService.PropertyLedger.RemoveLineItem | apps/properties/services.py:954-980 | A line is removed under exactly the conditions of RemoveLineKeeps, and only that line |
| LedgerService.PropertyLedger.Apply | apps/properties/services.py:1056-1106 | On a consistent bill a correction goes through if and only if the new total still covers what was paid; the total moves by exactly the delta and stays the sum of the lines, the correction is appended, no line or balance is touched, and an issued bill gets the status its new total calls for |
| LedgerService.PropertyLedger.PreviousCorrection | apps/properties/services.py:1145-1163 | The effective reading is the newest reading correction of that line, else its own snapshot |
| LedgerService.PropertyLedger.Edit | apps/properties/services.py:913-1200 | Each edit reaches one locked bill by its own rule, a refusal leaves the whole book as it was, and the ledger stays valid |
| LedgerService.PropertyLedger.PublishBill | apps/properties/services.py:983-1013 | Publishing numbers and issues exactly the draft, changes nothing on issued bills, and moves the workspace's sequence on by one |
| LedgerService.PropertyLedger.CancelBill | apps/properties/services.py:1016-1051 | Cancelling leaves exactly the bill's status changed to CANCELLED, or, with something paid into the bill, is refused and leaves everything as it was |
| LedgerService.PropertyLedger.RecordPayment | apps/properties/services.py:1401-1507 | A payment is created exactly when the condition of PayExactly holds, with the row, balance, status and receipt it must have; otherwise nothing changes |
| LedgerService.PropertyLedger.IssueReceipt | apps/properties/services.py:1365-1383 | The receipt takes the next number of the workspace and the sequence moves on by one |
| LedgerService.PropertyLedger.NextReceiptNumber | apps/properties/services.py:101-111 | The first number of a workspace is 1, then each allocation is one more |
| LedgerService.PropertyLedger.VoidPayment | apps/properties/services.py:1510-1533 | Voiding takes the payment's amount off the balance and reopens the bill; it is refused exactly for completed online payments |
| Generation.LeasePrerequisites | apps/properties/services.py:812-833 | One pass over the meters yields exactly the usages and issues specified; without issues line k bills meter k with its own pair of readings, its multiplier and the rate in force at the end of the period |
| Generation.PrerequisitesExactly | apps/properties/services.py:812-833 | With nothing blocking, line k bills meter k: closing on the newest reading of the period, opening on the newest one before it or else on the earliest one in it, with the meter's multiplier and the rate of the last tariff started by the end of the period |
| Generation.IssuesExactly | apps/properties/services.py:812-833 | A meter blocks generation exactly when no earlier reading precedes one of the period, as MISSING_READING if the period has none and as MISSING_OPENING_READING otherwise |
| Generation.GenerationExactly | apps/properties/services.py:812-847 | A lease can be billed if and only if some rate has started by the period's end and every meter has a reading in the period with an earlier one before it; all lines use the rate of the last tariff started by then |
| Generation.GenerationNeverNegative | apps/properties/services.py:812-847 | Generating from recorded readings never refuses for negative consumption |
| Settlement.RunsAreSafe | apps/properties/online_payments.py:171-602 | Over every interleaving of starts, order answers, webhooks, sweeps, expiries, refunds and owner actions without forged keys all at once: one open attempt per bill, a provider payment settles at most one attempt, an attempt is SUCCEEDED if and only if linked to a completed online payment of its own bill and amount, captures credited equal attempts settled, the ledger stays valid; the rows of SettlementPerAttempt state what holds with forged keys |
| SettlementHistory.RunMovesExactly | apps/properties/online_payments.py:171-602 | Whatever happened before, without forged keys: the next step of the protocol, from start to refund, answers and leaves exactly what its rule on the rows says |
| Settlement.StartKeeps | apps/properties/online_payments.py:195-247 | `start` answers exactly for an issued INR bill. An open attempt that asks for what is due and has 180 seconds left is handed out and nothing changes; any other open attempt alone becomes EXPIRED, and one CREATED row for what is due, created now and expiring after the time to live, is added; without an open attempt only the row is added. The constraint violation branch is never taken |
| Settlement.DeliverKeeps | apps/properties/online_payments.py:343-435 | Every delivery of a provider payment keeps settlement safety |
| Settlement.KeyIsFree | apps/properties/online_payments.py:393-403 | Before an attempt settles no payment carries its idempotency key |
| Settlement.SettleKeeps | apps/properties/online_payments.py:405-411 | The settling write, payment and link together, keeps settlement safety |
| Settlement.LedgerStepKeeps | apps/properties/services.py:1400-1549 | Manual payments, voids, corrections and cancellations between captures keep settlement safety |
| SettlementHistory.StepRaisesRank | apps/properties/online_payments.py:171-602 | Every write of an attempt's status raises its rank except repeated REFUND_PENDING; bill and amount never change; a SUCCEEDED row never changes |
| SettlementHistory.FewStatusChanges | apps/properties/models.py:729-748 | In any run, forged keys included, an attempt changes status at most five times |
| SettlementPerAttempt.SettledForever | apps/properties/online_payments.py:372-391 | In any run a SUCCEEDED attempt never changes again, and one linked to its completed payment stays linked to it |
| SettlementPerAttempt.RefundedIsNeverCredited | apps/properties/online_payments.py:546-602 | In any run an attempt that was once unapplied or in refund never settles, and no payment under its key is recorded except by owners who use that key themselves |
| SettlementHistory.PollExpiresExactly | apps/properties/online_payments.py:503-520 | Without a success a poll expires an open attempt if and only if its time is up and nothing listed is pending |
| SettlementHistory.CaptureCreditedExactly | apps/properties/online_payments.py:343-435 | A capture of an unsettled attempt, expired or failed ones included, is credited if and only if amount and currency match, the bill is open and still owes it, the reference is new and no other attempt holds the provider payment; else it is kept for refund or, if the payment is claimed elsewhere, nothing changes |
| SettlementHistory.CaptureOutcome | apps/properties/online_payments.py:390-435 | The exact new state in each of the three outcomes, in the ledger's own terms |
| SettlementHistory.DeliverExactly | apps/properties/online_payments.py:343-463 | What applying any provider payment to any attempt must answer and leave: credited and settled, kept for refund with the reason that applies, a failure noted on an open attempt, or nothing at all |
| SettlementPerAttempt.SettlementPerAttempt | apps/properties/online_payments.py:343-435 | Over every run whatever keys owners send: a SUCCEEDED attempt has exactly one settling step, and it is linked ever after to the online payment that step recorded if and only if no owner request of its workspace had created a payment under its key before |
| SettlementPerAttempt.OwnCaptureExactly | apps/properties/online_payments.py:393-411 | The same for a given settling step; with a taken key that step records nothing at all in the ledger |
| SettlementPerAttempt.KeyOriginExactly | apps/properties/services.py:1388-1421 | While an attempt has not settled, a workspace holds a payment under its key if and only if an owner request of that workspace created one |
| SettlementPerAttempt.RunsAreSound | apps/properties/online_payments.py:171-602 | Over every run, forged keys included: valid ledger, at most one open attempt per bill, a provider payment held by at most one attempt, SUCCEEDED if and only if linked to an existing payment, refund requests only behind unapplied captures |
| SettlementPerAttempt.CapturesConserved | apps/properties/online_payments.py:343-435 | Over every run, forged keys included: the money recorded for captures is exactly what the attempts ask for that were settled by their own captures |
| SettlementPerAttempt.SettlesWithOwnCaptureExactly | apps/properties/online_payments.py:393-411 | In any state a settling step links the payment it records itself if and only if no payment of the workspace carries the attempt's key; otherwise it links that older payment and records nothing |
| Confluence.DeliveryOrderIrrelevant | apps/properties/online_payments.py:342-521 | Any sequence of an order's events that contains its one capture, in any order and repetition with failures, polls, expiry and order answers, ends with the attempt, link and bills of delivering the capture once |
| ForgedKey.ForgedKeySwallowsCapture | apps/properties/services.py:1388-1421 | A reachable run with a forged `online:` key after which a SUCCEEDED attempt points at a voided cash payment and the captured money is recorded nowhere |
| LateCapture.ExpiredCheckoutSettles | apps/properties/online_payments.py:343-435 | A reachable run in which an EXPIRED checkout becomes SUCCEEDED and its bill is paid |
| CheckoutService.ReconcileAgreesWithWebhook | apps/properties/online_payments.py:484-521 | A sweep that finds the order paid leaves what the webhook alone would have left |
| CheckoutService.ReconcileExactly | apps/properties/online_payments.py:484-521 | What a sweep of one attempt must leave, from the provider's list alone: without a success the attempt is EXPIRED if and only if its time is up and nothing is pending, and remembers the newest status, everything else unchanged; with successes, exactly what the first one that no other attempt holds leaves, however many are listed |
| CheckoutService.OnlinePaymentService.ApplyPayment | apps/properties/online_payments.py:343-435 | Settlement as it runs, with savepoint and rollback, keeps safety and answers and leaves exactly what DeliverExactly says |
| CheckoutService.OnlinePaymentService.RecordCaptured | apps/properties/online_payments.py:393-435 | A refusal inside the savepoint becomes UNAPPLIED; a constraint violation rolls ledger and attempt back together |
| CheckoutService.OnlinePaymentService.Unapply | apps/properties/online_payments.py:438-447 | The capture is kept as UNAPPLIED with its reason unless the row violates a constraint |
| CheckoutService.OnlinePaymentService.Reconcile | apps/properties/online_payments.py:484-521 | The polling loop, and its closing transaction when nothing succeeded, leave exactly what ReconcileExactly says; an outage or a closed attempt changes nothing |
| CheckoutService.OnlinePaymentService.OpenAttempt | apps/properties/online_payments.py:195-247 | The locked transaction of `start` as it runs reuses, replaces or adds an attempt exactly as StartKeeps says |
| CheckoutService.OnlinePaymentService.EnsureProviderOrder | apps/properties/online_payments.py:253-339 | An attempt is handed out if and only if it was ACTIVE with a session, or is CREATED and the provider names a session; a CREATED one becomes ACTIVE, FAILED or, after 60 seconds in progress, EXPIRED as the answer says; no other attempt changes |
| CheckoutService.OnlinePaymentService.StartCheckout | apps/properties/online_payments.py:172-250 | A whole start request, undisturbed, is a run of protocol steps that first asks the provider about the ACTIVE attempt; it hands out an attempt exactly when the kept one is payable or the provider names a session for it or for the new one, and what it hands out is ACTIVE with a session for exactly what the bill owes |
| Interference.HandedOutExactly | apps/properties/online_payments.py:172-340 | Whatever commits between the locked transaction of `start` and the read that hands the attempt out: it is for the bill and for what was due at that transaction, no other attempt of the bill is open beside an ACTIVE one, and it is safe to pay if and only if it is ACTIVE with a session, the bill has not been cancelled and as much is due as was |
| CheckoutService.OnlinePaymentService.RefundAttempt | apps/properties/online_payments.py:546-602 | A refund, undisturbed, is refused exactly outside UNAPPLIED, REFUND_PENDING and REFUNDED, and ends REFUNDED exactly when it was or the provider reports success; the provider's word is kept, no other attempt and no ledger row changes |
| Interference.RefundExactly | apps/properties/online_payments.py:546-602 | Whatever commits between its two transactions, an accepted refund ends REFUNDED if and only if its own answer or that of another request in between is a success, and REFUND_PENDING otherwise |
| Aging.OpenMeansOwing | apps/properties/aging.py:30-31 | On ledger bills an open status alone means that money is due |
| Aging.BucketExactly | apps/properties/aging.py:16-56 | On ledger bills days overdue, the five buckets (1, 31, 61 and 91 days past due) and the shown OVERDUE status follow from status and due date alone |
| Aging.AgingReport | apps/properties/aging.py:59-82 | The loop's bucket totals, counts, outstanding and overdue equal the sums over the bills, and its rows are a sorted permutation of the owing bills |
| Aging.RowsAreOfOwing | apps/properties/aging.py:64-73 | The report has one row for each owing bill, in their order before sorting |
| Aging.BucketsAddUp | apps/properties/aging.py:74-76 | The five buckets add up to outstanding, all but CURRENT to overdue |
| Aging.KeyOrderIsDueOrder | apps/properties/aging.py:73 | Sorting by (-days overdue, due date) is sorting by due date |
| Aging.OutstandingIsBilledMinusCollected | apps/properties/reporting.py:9-13 | On ledger bills outstanding is billed minus collected over issued bills |
| Aging.ReportOfRun | apps/properties/aging.py:59-82 | For every reachable ledger the report is in due-date order, lists every open bill and totals billed minus collected |
| Filters.FilterBills | apps/properties/filters.py:28-88 | What remains of a bill list, in order, is exactly what the parameters mean in terms of balances, shown status, overdue days and buckets |
| Filters.FilterByStatus | apps/properties/filters.py:43-51 | OVERDUE selects the bills shown as overdue, UNPAID those that owe money, other names the stored status |
| Filters.FilterByPayment | apps/properties/filters.py:53-61 | PAID, PARTIALLY_PAID and UNPAID select issued bills by their balance |
| Filters.FilterByOverdue | apps/properties/filters.py:63-67 | overdue=1 selects the bills with overdue days, overdue=0 exactly the others |
| Filters.FilterByAging | apps/properties/filters.py:69-78 | Each date range selects exactly the bills of the bucket of that name |
| Filters.RangeIsBucket | apps/properties/filters.py:17 | AGING_RANGES and the bucket function agree on every ledger bill and day |
| Filters.BucketsPartition | apps/properties/filters.py:69-78 | The five aging filters partition the open bills |
| Filters.BucketTotalIsFilteredSum | apps/properties/aging.py:74-81 | The bills an aging filter lists add up, in amount and number, to the report's bucket |
| Calendar.ShiftMonthMoves | apps/properties/reporting.py:40-42 | Shifting lands on the first of a real month exactly that many months away, and shifts compose |
| Reports.MonthlySeries | apps/properties/reporting.py:93-152 | The three accumulating loops produce one row per month, oldest first, each equal to the sums over bills, lines and payments of that month |
| Reports.ReportIdentity | apps/properties/reporting.py:15-21 | In every reachable ledger, each month's rent, electricity and other billed add up to billed, and the three collected parts plus unallocated to collected |
| Reports.PaymentIsReported | apps/properties/reporting.py:86-154 | A recorded payment shows as cash in the month it is dated and moves its amount from outstanding to collected in its bill's month, and nowhere else |
| Reports.VoidIsReported | apps/properties/reporting.py:86-154 | Voiding it takes it out of the same two months again |
| Reports.ExactlyOneRow | apps/properties/reporting.py:96-99 | An issued bill of the window lands in exactly one row |
| Reports.SeriesConserves | apps/properties/reporting.py:93-152 | The rows of a series together bill every issued bill of the window once and nothing else |
| Charges.ColumnsAreExact | apps/properties/calculations.py:39-49 | Within the column widths both products are exact in 28 digits |
| Charges.ChargeError | apps/properties/calculations.py:32-49 | The charge differs from the exact product by at most 1/2 + rate/2000 minor units |
| Charges.ChargeExactly | apps/properties/calculations.py:32-49 | Units are the nearest thousandth to consumption times multiplier, the charge the nearest minor unit to units times rate, and ties go up |
| Charges.ChargeMono | apps/properties/calculations.py:32-49 | A later closing reading never lowers units or charge |
| Metering.NeighboursSuffice | apps/properties/services.py:559-576 | The check of the two neighbouring dates accepts a value exactly when it fits between all rows |
| Metering.RecordExactlyKeepsOrder | apps/properties/services.py:579-626 | A reading is recorded if and only if the meter is active, the date has come and the table stays chronological |
| Metering.CorrectExactlyKeepsOrder | apps/properties/services.py:629-667 | A correction succeeds if and only if it changes the value and the table stays chronological |
| Metering.RunsStayChronological | apps/properties/services.py:558-667 | After any run values are nondecreasing over distinct dates |
| Metering.RunExactly | apps/properties/services.py:558-667 | Whatever was recorded and corrected before: the next reading or correction leaves exactly what its rule on the rows says |
| Metering.NegativeConsumptionUnreachable | apps/properties/services.py:765-772 | NEGATIVE_CONSUMPTION cannot be reported for any table the service can produce |
| Metering.BillableExactly | apps/properties/services.py:730-773 | A period is billable if and only if it holds a reading and some reading precedes the last one in it |
| Metering.UsageExactly | apps/properties/services.py:730-773 | The pair of readings that bills a period, in full: newest of the period, newest before it or else earliest in it; missing pairs are reported by what is missing |
| Metering.LastClosingIsNewest | apps/properties/services.py:730-773 | Once a month has been billed, the last billed closing is the newest reading so far |
| Metering.ConsumptionTelescopes | apps/properties/services.py:730-773 | Over consecutive months, with any skipped, billed consumption adds up to last closing minus first opening |
| Metering.UnitsConserved | apps/properties/calculations.py:39-42 | Billed units over n months are within n * 0.0005 of multiplier times consumption |
| Metering.MeterReadingService.RecordReading | apps/properties/services.py:579-626 | A reading is recorded exactly when the table with it is chronological, as one row more; each refusal names the first guard that fails, the earlier neighbour before the later one |
| Metering.MeterReadingService.CorrectReading | apps/properties/services.py:629-667 | A correction succeeds exactly when the value changes and the table stays chronological, changes that value alone and leaves one trail row; each refusal names the first guard that fails |
| Tariffs.ApplicableIsStepFunction | apps/properties/services.py:672-679 | The range query returns the tariff with the greatest start on or before the day, and ranges never overlap |
| Tariffs.CreateKeepsTimeline | apps/properties/services.py:682-722 | A rate is created if and only if it is not negative and starts after all others; ranges stay contiguous and only the last is open |
| Tariffs.CreateExtends | apps/properties/services.py:682-722 | A new rate answers from its start on and changes no earlier answer |
| Tariffs.RunsKeepTimeline | apps/properties/services.py:670-722 | After any run the lookup is a step function of the starts |
| Tariffs.TariffService.CreateTariff | apps/properties/services.py:682-722 | Creating as it runs equals its specification and leaves all earlier days' answers alone |
| Decimals.DivideThenQuantize | apps/billing/services.py:1158-1173 | Dividing at 28 digits half even and then quantising half up equals rounding the exact quotient once |
| Decimals.DivideHas28Digits | apps/billing/services.py:1158-1173 | The quotient's coefficient has 28 digits and is a nearest integer to the shifted exact quotient |
| Proration.ProrationRoundsOnce | apps/billing/services.py:1127-1181 | For all 32-bit prices and any period two datetimes can span the net is the exact rational rounded once, ties away from zero; a period under a second yields nothing |
| Proration.ProrationIsFair | apps/billing/services.py:1127-1181 | Error at most half a cent, antisymmetric in the prices, within the price difference, 0 after the period and all of it before; in between the nearest cent to the difference for the time left, ties away from zero |
| SubscriptionSafety.RunsMoveForward | apps/billing/services.py:605-646 | Over every run of events, sweeps, checkouts, overrides and events that locked nothing, no row changes its workspace and no mark decreases |
| SubscriptionSafety.CanceledFrozenExactly | apps/billing/services.py:545-753 | A CANCELED row is frozen in every field throughout a run if and only if every blind write that goes through to it, an override or an event that matched nothing to lock and read the row later, saves only what is there; events under the row lock and checkouts need no condition |
| SubscriptionSafety.StepFreezesExactly | apps/billing/services.py:195-253 | The same for one step |
| SubscriptionSafety.UnlockedHarmlessExactly | apps/billing/services.py:669-875 | For an event that read the row without a lock, in terms of what it read: harmless to a canceled row exactly for another cancellation, for nothing to do, or for an ACTIVE read and the present plan, id or period again |
| SubscriptionSafety.UnlockedAgrees | apps/billing/services.py:702-753 | When the row has not moved since it was read, the unlocked path of an activation does what one atomic step does |
| SubscriptionSafety.UnlockedHandlesAlike | apps/billing/services.py:545-633 | For an event that finds the row by its id after the lock found none: the same effect as under the lock, without staleness guard and mark |
| StaleOverride.StaleOverrideMovesCanceledRow | apps/platform/views.py:895-951 | A reachable run in which a request reads ACTIVE, the subscription is cancelled, and the request then moves the CANCELED row to PAST_DUE or to another plan |
| StaleUpgrade.StaleUpgradeRevivesCanceledRow | apps/billing/services.py:712-753 | A reachable run without overrides: a paid upgrade reads PAST_DUE, the old mandate's cancellation commits, and plan, provider id and ACTIVE are saved onto the CANCELED row |
| StaleUpgrade.UnlockedIsNeverStale | apps/billing/services.py:571-592 | A failed payment that locked nothing takes an ACTIVE read to PAST_DUE however old it is, and leaves the mark |
| SubscriptionSafety.StatusMovesLegallyExactly | apps/billing/services.py:46-54 | A step moves a status along the table of legal transitions, or not at all, if and only if it does not blindly write a status, decided on an earlier read, that is illegal after the present one |
| SubscriptionSafety.CancellationIsFinalExactly | apps/billing/services.py:635-646 | A matching CANCELLED event is never stale and cancels the row; the row then stays as it is through a later run if and only if every blind write to it in that run is harmless |
| SubscriptionSafety.AppliedAtMostOnce | apps/billing/services.py:562-633 | However often a delivery id is delivered, processed or swept, under the row lock or without, it takes effect at most once |
| SubscriptionSafety.EffectsAreChronological | apps/billing/services.py:605-646 | Timed events other than cancellations that locked the subscription they match take effect on it in provider order, whatever else runs |
| SubscriptionSafety.RunsStayUnique | apps/billing/services.py:166-192 | One subscription per workspace and provider id, one checkout per workspace and provider id, one event per delivery id |
| SubscriptionSafety.ClassifyExactly | apps/billing/services.py:74-136 | Only a move from the BASIC to the PRO tier is an upgrade, the same plan is no change, everything else is refused |
| SubscriptionSafety.EventsOnlyUpgrade | apps/billing/services.py:712-748 | A webhook changes an existing plan only to that of its own workspace's checkout with the event's id, and only upwards from a row that was not canceled as the event read it |
| SubscriptionSafety.CheckoutReplacedExactly | apps/billing/services.py:316-405 | A raised checkout is replaced exactly when another plan is asked for, it is unconfirmed, an hour old, abandoned according to the provider, and a new id comes back |
| SubscriptionEffects.ProcessExactly | apps/billing/services.py:543-875 | Every event against every store, without reference to the handlers: a matching row takes the event's verdict unless the event is too old, and remembers the later time; without one a young charge waits, an activation runs the checkout raised for its id, and everything else is dropped; the event is then processed |
| SubscriptionEffects.RunExactly | apps/billing/services.py:205-925 | Whatever was delivered, swept, raised and overridden before: the next step leaves exactly what its rule on the rows says |
| SubscriptionEffects.FirstPeriod | apps/billing/services.py:691-710 | The first activation of a checkout adds one row that starts at the clock reading and ends 31536000000000 microseconds later for an annual plan, 2592000000000 for a monthly one |
| SubscriptionEffects.UndatedPeriod | apps/billing/services.py:818-842 | A charge without dates continues a live row from its old end for the same length |
| SubscriptionEffects.UnlockedExactly | apps/billing/services.py:571-875 | What a handler saves on a row it read earlier: exactly the columns it changes on what it read |
| SubscriptionEffects.CheckoutExactly | apps/billing/services.py:316-405 | For every workspace, with or without a checkout: what asking for a plan leaves, given the provider's answers |
| SubscriptionSweeps.TwoSweepsSettle | apps/billing/services.py:887-925 | After two sweeps only charges with an unmatched id and at most a day old are pending, and a third sweep at the same clock changes nothing |
| SubscriptionSweeps.SweepSettlesRest | apps/billing/services.py:887-925 | One sweep settles every event that is not a retryable charge |
| SubscriptionSweeps.SweepLeaves | apps/billing/services.py:887-925 | One sweep leaves only retryable charges, and only unmatched young ones if it began with nothing else |
| OneSweep.OneSweepEnoughExactly | apps/billing/services.py:887-925 | For any order with any repetition: one sweep leaves only charges that cannot be placed yet if and only if no young unmatched charge stands only before the first activation that gives a subscription its id, by creating it or by a paid upgrade that no cancellation standing before it stops |
| OneSweep.StepKeepsProper | apps/billing/services.py:316-380 | What that theorem asks of a store, unique rows and provider ids that belong to one workspace, is kept by every step under the row lock while the provider answers with new ids |
| OneSweep.OneSweepIsNotEnough | apps/billing/services.py:887-925 | A store where it is not enough: swept oldest first, the charge is still pending although its subscription exists |
| Convergence.EventsConverge | apps/billing/services.py:543-842 | All activations and charges of one checkout, for a new workspace or an upgrade, delivered within a day in any order and repetition among other subscriptions' events, checkouts, confirmations and overrides, then two sweeps: exactly one step creates the row, and it ends ACTIVE with the period of the latest charge effective at that step's clock, else the one it began with |
| Convergence.NewRowConverges | apps/billing/services.py:691-842 | For a new workspace the period is the last charge's if and only if that charge was not over at the clock reading that created the row, else it starts at that reading and runs 365 days for an annual plan and 30 for a monthly one; the mark is the last charge's timestamp |
| Convergence.UpgradeConverges | apps/billing/services.py:712-842 | For an upgrade the last charge is in force if and only if it ends after the old period began and is not timed before the inherited mark, whenever the activation comes |
| Convergence.WebhookOrderIrrelevant | apps/billing/services.py:543-842 | Two complete delivery histories end in the same row up to the mark if and only if it is an upgrade, or both created the row at the same clock reading, or the last charge outlasts both readings; the mark agrees too when the charge in force is timed |
| Convergence.ChargeApplies | apps/billing/services.py:756-842 | Staleness and period guards together move the row forward to exactly the latest effective charge seen |
| StoryRow.FirstTurn | apps/billing/services.py:691-753 | The first activation creates a row that starts at the clock reading and runs 365 days for an annual plan and 30 for a monthly one, without a mark, or upgrades the old row keeping its period and mark, and touches no other row |
| StoryRow.StoryStep | apps/billing/services.py:543-633 | Every delivery or processing step, of any subscription, turns the story's row as the row machine says and leaves it alone otherwise, as do other workspaces' checkouts, overrides and unlocked events; a charge that finds no row stays pending |
| TroubleConvergence.TwoOrdersAgreeExactly | apps/billing/services.py:856-875 | A fresh timed charge with a new period and a fresh timed failed payment on a live row: both orders of processing end in the same row if and only if the failed payment is strictly older |
| TroubleConvergence.OrderIrrelevantExactly | apps/billing/services.py:543-875 | With failed payments: over all complete histories the final row is one and the same if and only if, for a timed last charge, every failed payment is strictly older than it and none can take effect, or there is one activation, or no activation is newer than it; for an untimed one, if no failed payment and no earlier charge can leave another mark |
| TroubleConvergence.CalmConverges | apps/billing/services.py:543-875 | If every failed payment is strictly older than the last charge (and no newer activation can bring the row back), every history ends in the last charge's row, ACTIVE |
| WebhookService.WebhookProcessor.Record | apps/billing/services.py:444-477 | A delivery is stored once; a redelivery answers with the stored row |
| WebhookService.WebhookProcessor.HandleActivation | apps/billing/services.py:669-753 | A matched row is brought to ACTIVE exactly from TRIALING or PAST_DUE; an id without row and checkout changes nothing; a checkout whose workspace does not subscribe gets exactly one row, of its workspace and plan, starting now for 365 or 30 days, which then matches the id |
| WebhookService.WebhookProcessor.Activate | apps/billing/services.py:702-753 | The created row starts now and runs 365 days (annual) or 30 (monthly); a workspace that subscribes already has its live row brought to ACTIVE, with plan and id for a paid upgrade from BASIC to PRO, and a canceled row untouched |
| WebhookService.WebhookProcessor.HandleCharge | apps/billing/services.py:756-842 | Deferred if and only if the event has an id, no subscription matches it and it is at most a day old; applied if and only if the matched row is not CANCELED and the period does not end before the row's begins; only the matched row changes, and only status and period: to the dates the provider sent, or, without dates, on from its old end for 365 or 30 days |
| WebhookService.WebhookProcessor.Process | apps/billing/services.py:545-633 | Guard, dispatch, mark and processed flag as they run leave exactly what ProcessExactly says; no canceled row moves, no mark goes back |
| WebhookService.WebhookProcessor.FinishUnlocked | apps/billing/services.py:669-875 | The handlers on a row read without a lock save exactly the columns they change on what they read; a provider id held by another row rolls everything back; no mark moves back |
| WebhookService.WebhookProcessor.ProcessPending | apps/billing/services.py:887-925 | The sweep, oldest first, leaves only retryable charges, and none that can be matched when it started with only those |
| WebhookService.WebhookProcessor.OpenCheckout | apps/billing/services.py:316-380 | Checkout creation as it runs raises, replaces or keeps the workspace's one checkout exactly as CheckoutExactly says and keeps checkouts unique |
| WebhookService.Pending | apps/billing/services.py:903-905 | Exactly the unprocessed events, ordered by arrival |
| WorkspaceSafety.RunsStayValid | apps/tenants/services.py:88-564 | Over every run each open workspace has an active owner, a closed one no active member, memberships are unique, nobody has two pending invitations to one workspace or is both member and invited |
| WorkspaceEffects.RunExactly | apps/tenants/services.py:88-564 | Whatever happened before: the next operation leaves exactly what its rule on the rows says, with seats and owned workspaces counted as numbers of rows |
| WorkspaceSafety.ClosedForever | apps/tenants/services.py:133-166 | A closed workspace stays closed and never has an active member again |
| WorkspaceSafety.RootForever | apps/platform/services.py:402-466 | The platform always keeps an active root, across role changes and account deletion |
| WorkspaceSafety.LeaveKeeps | apps/tenants/services.py:197-233 | Leaving never takes the last owner |
| WorkspaceSafety.TransferKeeps | apps/tenants/services.py:264-301 | The new owner is in place when the old one steps down |
| WorkspaceSafety.CloseKeeps | apps/tenants/services.py:133-166 | Closing ends the last membership and every pending invitation together |
| WorkspaceSafety.DecideKeeps | apps/tenants/services.py:448-564 | Accepting or declining keeps every workspace invariant |
| WorkspaceSafety.SetRoleKeeps | apps/platform/services.py:546-576 | A platform role change never takes the last owner |
| WorkspaceSafety.DeleteKeeps | apps/users/account.py:99-155 | Deleting an account ends memberships and invitations without taking an owner from any open workspace |
| WorkspaceSafety.RootSurvives | apps/users/account.py:111-116 | The last active root can be neither demoted, disabled nor deleted |
| Seats.StepSeats | apps/tenants/limits.py:132-172 | No operation but a platform demotion pushes active members plus unexpired invitations beyond what they were or the plan allows |
| Seats.OverbookedExactly | apps/platform/services.py:534-576 | The bound breaks if and only if the step demotes an owner of that workspace who is not its last one while all its seats are in use |
| Seats.RunSeats | apps/tenants/limits.py:132-172 | Over any run at a fixed limit with clocks moving forward, demotions elsewhere included, seats in use never exceed their initial number or the limit unless a step overbooks this workspace |
| WorkspaceEffects.SeatsCounted | apps/tenants/limits.py:132-172 | The seats in use are the number of active residents plus the number of unexpired pending invitations |
| Seats.RunSeatsExactly | apps/tenants/limits.py:132-172 | A workspace within its limit stays within it at every point of a run if and only if no step of the run overbooks it |
| WorkspaceWitness.DemotionOverbooks | apps/platform/services.py:534-576 | A reachable run after which a demotion puts two seats in use out of one |
| Seats.ReservationHonoured | apps/tenants/limits.py:168-174 | A pending invitation can be accepted exactly when the workspace is available and has a free seat, and while seats in use are within the limit it always has one |
| Seats.AcceptYieldsOwnerExactly | apps/tenants/services.py:503-521 | Accepting yields an active owner if and only if the person's old membership row was an owner's |
| WorkspaceWitness.InvitationRestoresOwner | apps/tenants/services.py:503-521 | A reachable run in which a departed founder is invited as a resident, accepts and is owner again |
| Seats.CreateUsesSlot | apps/tenants/services.py:95-118 | Creating a workspace uses one slot of the account and stays within its limit |
| Seats.TransferUsesSlot | apps/tenants/services.py:264-301 | So does receiving one by transfer |
| WorkspaceService.Platform.CreateWorkspace | apps/tenants/services.py:95-118 | Creating adds an open workspace owned by its founder exactly while fewer workspaces than the limit are owned and open, and stays within the account's limit |
| WorkspaceService.Platform.CloseWorkspace | apps/tenants/services.py:133-166 | Closing is refused exactly while somebody else is active; it ends the actor's membership and the pending invitations of that workspace and nothing else, and afterwards nobody is active in it |
| WorkspaceService.Platform.LeaveWorkspace | apps/tenants/services.py:197-233 | Leaving ends exactly the leaver's active membership and is refused exactly for the only active owner |
| WorkspaceService.Platform.RemoveMember | apps/tenants/services.py:236-261 | Removing ends exactly that membership; owners cannot be removed, one who is gone stays as he is |
| WorkspaceService.Platform.TransferOwnership | apps/tenants/services.py:264-301 | A transfer makes the active resident owner and the actor resident and changes no other row; it needs a free slot of the account and stays within its limit |
| WorkspaceService.Platform.InviteUser | apps/tenants/services.py:323-392 | Inviting, with its rollback of expiries, succeeds exactly for an active user who is neither member nor waiting while a seat is free; it adds one invitation for 14 days, marks lapsed ones of that workspace and stays within the seats |
| WorkspaceService.Platform.Respond | apps/tenants/services.py:448-564 | Expiry is committed before the decision: a lapsed invitation ends EXPIRED and is refused; declining settles only the invitation; accepting needs an available workspace with a seat beside its residents and makes the person active, under their old row's role if there is one |
| WorkspaceService.Platform.SetMembershipRole | apps/platform/services.py:548-576 | The role changes on an active membership, and on no other row, unless it is the only active owner's |
| WorkspaceService.Platform.UpdateUserRoles | apps/platform/services.py:404-466 | Each named flag takes the requested value and the others stay; refused exactly when something would change and no active root would be left; a root remains |
| WorkspaceService.Platform.DeleteUser | apps/users/account.py:99-155 | Deleting ends the active memberships, cancels the pending invitations and strips the flags of exactly that account; owners and the last root are refused, and a root remains |

## Left out

- Row locks and races inside one transaction: a locked transaction is one atomic step; separate transactions stay separate. Unlocked reads of subscription rows are modelled (`UnlockedOp`, the overrides); an activation that read its checkout just before the checkout was replaced, and then creates the row of the old plan, is not.
- Column overflow: amounts are unbounded integers; the database would reject a value beyond 64 bits.
- Reason, description and message texts, and the refusals for blank ones, notifications, audit rows and timestamps that decide nothing.
- `apps/properties/services.py:1203-1362`: cycle status, `publish_all`, `close` and bill generation for a whole cycle, which repeat the bill operations; regenerating drafts also deletes the draft bill it replaces (`apps/properties/services.py:1301-1303`), and no operation of the model deletes a bill.
- Properties, units, leases, residents and meters as tables: their editing is easy and lease overlap is not an invariant of the code; a bill takes rent, due date and readings as arguments.
- `apps/properties/online_payments.py:87-135` and `523-541`: phone check, eligibility, display state, and the selection and counting of the scheduled sweep; the sweep of one attempt is modelled, its throttle is not.
- Which gateway: one provider's ids are modelled, its network calls are arbitrary answers, and a repeated refund id is one refund.
- References longer than 128 characters: the cut of `cashfree:` references is not modelled.
- Captured equals credited plus refunded: a refund uses the attempt's amount and second captures are only audited, so the conservation proved is between credited captures and settled attempts.
- CHARGED events without provider dates: their synthesized period depends on arrival order, so they are in the per-step theorems but not in the convergence theorem.
- Events of the subscription that is being upgraded, and CANCELLED events and overrides of the one followed: in the per-step and per-run theorems (frozen rows, marks, legal moves) but not in the convergence theorems.
- OneSweep.OneSweepEnoughExactly: for stores in which a provider id belongs to one workspace, which providers guarantee; `SubscriptionSweeps.TwoSweepsSettle` does not need that.
- SubscriptionSafety.EffectsAreChronological: events that locked nothing pass neither staleness guard nor mark, so they are not part of the chronological effects; `StaleUpgrade.UnlockedIsNeverStale` says so.
- Unexpected exceptions while an event is processed: the transaction rolls back, which equals not having processed it.
- `process_pending` with a clock that moves during the sweep: one clock reading per sweep.
- `apps/billing/services.py:929-1096` and `1184-1453`: usage metering, the recording of proration rows and provider reconciliation.
- `apps/properties/reporting.py:55-83` and `155-256`: period summary, electricity by unit, occupancy and the owner portfolio, sums of the same kind as the monthly series.
- `apps/properties/filters.py:80-88`: free-text search, and the property and cycle parameters, which work like the three id parameters modelled.
- Seats.RunSeats: states the bound for a fixed plan limit, because a limit lowered below the seats in use is allowed and evicts nobody.
- How the plan of a workspace or account yields its limits: limits are data of the workspace or arguments.
- HTTP, permissions, serializers and the front end.
