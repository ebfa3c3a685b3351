# Verification of the Bookora backend

This project models the parts of the Bookora bookshop backend whose correctness spans several
operations, and proves what they promise.

**Orders, payments and stock** (`OrderTypes`, `StockLedger`, `ProductWeight`, `OrderProtocol`,
`OrderInvariant`, `OrderSteps`, `OrderRuns`, `OrderGuarantees`, `OrderCallbacks`, `OrderAtomic`,
`StockEquation`, `OrderHistory`, `RetriedOrders`, `CancelledOrders`, `CheckoutEffects`, `PaymentEffects`,
`OrderEffects`, `OrderExamples`, `ShopDatabase`). Checkout takes stock; a VNPAY attempt
holds it; the notification (IPN), the browser's return, expiry, retry and cancellation race to consume or
release it; staff transitions and the customer's receipt carry the order to COMPLETED. `OrderProtocol`
states each serializable transaction as a step on the tables, `ShopDatabase` writes the same transactions
row by row on mutable tables and is proved to do what the steps say, and the other modules prove what every
run of requests keeps.

**The login lock and the hand-written ULID** (`LoginLock`, `Ulid`). One upsert is a state machine over
time; the rate of accepted failures it allows is bounded over unbounded traces.

**Categories and slugs** (`Text`, `Slug`, `Sorting`, `Collections`, `CategoryPlan`, `CategoryReconcile`,
`CategoryTree`, `CategoryEffects`, `CategoryStore`). A two-level tree whose slugs follow its names, the reconciliation of all
slugs, and two-phase rewrites under a unique index that is demanded at every single write.

**Product variants** (`CombinationKey`, `VariantMatrix`, `VariantPreparation`). The preview enumerates
choices one way, the creation of a variant recognises them another way, and both compute the same key.

**Galleries, branch assignments and the CSV export** (`MediaGallery`, `GalleryEffects`, `MediaStore`,
`BranchAssignments`, `AssignmentEffects`, `BranchRegister`, `CsvExport`).

The modules named after effects say of each operation exactly when it is accepted and what it then leaves in
each column, in terms of the rows themselves; through the methods that do what the steps say, this is what the
tables hold afterwards.

Where a natural promise is not kept by the code, the project keeps the code as it is and proves exactly
when the promise holds, with a concrete case of each that fails:

- CANCELLED is not terminal: `CancelledOrders.CancelledMovesExactly` says which requests move a cancelled order
  on, `OrderExamples.LateFailureExample` and `OrderExamples.CancelledRetryExample` do it.
- A retry may take the goods of one order twice: `RetriedOrders.StaleRetryTakesAgain` and
  `RetriedOrders.CodRetryTakesAgain` say when, in every reachable state; `OrderExamples.StaleRetryExample` and
  `OrderExamples.CodRetryExample` do it.
- A cancelled order may have goods out: `RetriedOrders.CancelledHasNothingOutExactly` says when, for both methods,
  and `RetriedOrders.CancellationGivesBackExactly` says it before the cancellation; `OrderExamples.CodCancelExample`
  and `OrderExamples.PaidCancelExample` do it.
- A paid order may leave PENDING to COMPLETED: `OrderAtomic.RunKeepsExactly` says in which runs;
  `OrderExamples.StaleRetryExample` does it.
- A retry may break the status chain: `OrderHistory.StaleRetryChain` says which, `OrderHistory.RunChainsExactly` in
  which runs, with the same concrete run.
- The plain rate bound fails inside some open windows: `LoginLock.RateBoundExactly`, `LoginLock.MidWindowExceeds`.
- A sound category move is refused: `CategoryTree.UpdateExactly`, `CategoryTree.SoundMoveRefused`.

Three guards elsewhere are modelled together with what they are for. The pattern of option codes and values
keeps separators out of variant keys (`VariantMatrix.ValidatedIsPlain`; `VariantMatrix.BarsConfuseKeys` is what
a bar would do). The distinct ids of a reordering are what keeps positions without gaps
(`MediaGallery.ReorderExactly`; `MediaGallery.RepeatedReorder` is what a repeated id would do). The check
constraint on primary assignments would stop one deactivation that the service never asks for
(`BranchAssignments.CheckStopsExactly`, `BranchAssignments.DeactivateKeeps`).

`dafny verify dfyconfig.toml` checks the project.

## Model

| member | source | states |
|---|---|---|
| OrderRuns.EveryRunKeeps | src/modules/payments/payments.service.ts:65-702 | after any sequence of checkout, callback, expiry, retry (however stale), cancellation, fulfilment and adjustment requests the invariant on stock, ledger, orders, payments, attempts and history holds |
| OrderRuns.RequestKeeps | src/modules/orders/order-cancellation.ts:70-173 | no single request breaks that invariant, in any state that satisfies it |
| OrderGuarantees.AttemptConserves | src/modules/payments/payments.service.ts:604-646 | the movements written under an attempt sum, per stock row, to minus the order's quantity while it is unreleased and to 0 once released |
| OrderGuarantees.CodConserves | src/modules/orders/order-cancellation.ts:135-149 | the movements written under a COD order sum to minus its quantities or to 0 on every row, so nothing is restored twice although a retry clears the restored mark |
| OrderGuarantees.UnretriedCod | src/modules/checkout/checkout.service.ts:187-261 | before its first retry, a COD order is live or cancelled, and which it is decides whether its goods are out |
| OrderGuarantees.VnpayOrderIsSilent | src/modules/checkout/checkout.service.ts:263-372 | a VNPAY order itself never moves stock; only its attempts do |
| OrderGuarantees.LedgerChains | src/modules/inventory/inventory-movement.ts:1-42 | consecutive movements of one stock row fit: before equals the previous after, after equals before plus change |
| OrderGuarantees.LedgerEnds | src/modules/checkout/checkout.service.ts:676-717 | the first movement of a row starts from its opening quantity, the last one ends at the stored quantity, and neither figure is ever negative |
| OrderGuarantees.StockNeverNegative | src/modules/inventory/inventory.repository.ts:423-498 | no stock row leaves 0 to the column's maximum, and the ledger's unique index is never violated |
| OrderGuarantees.AttemptStates | src/modules/payments/payments.service.ts:476-517 | PAID exactly when consumed; never both consumed and released; an open hold is PENDING; FAILED, CANCELLED and EXPIRED are released |
| OrderGuarantees.AttemptsAreUnique | src/modules/orders/order-cancellation.ts:109-134 | a payment has at most one pending attempt, one paid attempt and one active hold, so a search for the active hold has one answer |
| OrderGuarantees.LiveOrderLeftOnce | src/modules/payments/payments.service.ts:476-528 | an order from PENDING to COMPLETED has had its quantities taken under exactly one source, every other source nets to 0 and no hold is open |
| OrderGuarantees.CompletedIsPaidAndReceived | src/modules/admin-orders/admin-orders.service.ts:84-148 | COMPLETED implies payment PAID and receipt confirmed by the customer, for both payment methods |
| OrderGuarantees.AmountsAgree | src/modules/payments/payments.service.ts:554-586 | an order, its payment and every attempt are for one amount, and a callback passes only with a hundred times it |
| OrderCallbacks.FirstCallbackWins | src/modules/payments/payments.service.ts:65-177 | after any sequence of notifications and returns for one attempt the state is the one that the first effective callback left |
| OrderCallbacks.RunPersists | src/modules/payments/payments.service.ts:448-541 | no run deletes a row, changes a fixed column, reopens a closed attempt, unreleases or unconsumes a hold, or shortens the history |
| OrderCallbacks.ClosedForever | src/modules/payments/payments.service.ts:121-158 | once an attempt is closed no later callback for it acts, whatever requests come in between |
| OrderCallbacks.LateSuccessIsIgnored | src/modules/payments/payments.service.ts:460-517 | once a hold is released by failure, expiry or cancellation, a success that arrives later changes nothing |
| OrderCallbacks.SuccessActsExactly | src/modules/payments/payments.service.ts:554-586 | in a reachable state a success acts exactly when it is verified for an active hold of a VNPAY payment with the right amount and nothing supersedes the attempt |
| OrderCallbacks.OfferedRetryIsAllowed | src/modules/customer-orders/customer-orders.service.ts:229-236 | where the customer is shown a retry, its refusal cannot be the not-allowed check; only stock or a clash of new ids refuses it |
| OrderCallbacks.StaleNotification | src/modules/payments/payments.service.ts:65-177 | whatever runs between a notification's read and its transaction, it writes what a prompt one would write then, or nothing where its read answered; only a failure whose attempt has closed meanwhile answers "00" for "02" |
| OrderCallbacks.StaleRedirect | src/modules/payments/payments.service.ts:242-295 | the same of the browser's return, with the same result |
| OrderCallbacks.StaleExpiryActs | src/modules/payments/payments.service.ts:648-703 | whatever runs in between, the expiry of an attempt found expired does what a prompt one does if the attempt is still pending, and nothing if not |
| OrderAtomic.PaidStaysLiveExactly | src/modules/payments/payments.service.ts:328-428 | in a state that satisfies the invariant, the orders of all paid attempts are in PENDING to COMPLETED after a request exactly when they were before and the request is not a retry on a stale read that goes through for a paid order |
| OrderAtomic.RunKeepsExactly | src/modules/payments/payments.service.ts:297-428 | at the end of any run the orders of all paid attempts are in PENDING to COMPLETED exactly when no such retry was in it: an order that has left never comes back |
| OrderAtomic.PromptRunKeeps | src/modules/payments/payments.service.ts:297-345 | so where every retry acts on what it read, a paid attempt's order never leaves PENDING to COMPLETED |
| OrderAtomic.StatusDecidesStock | src/modules/payments/payments.service.ts:115-172 | there a VNPAY order in PENDING_PAYMENT or PENDING to COMPLETED has exactly one unreleased attempt, and in PAYMENT_FAILED or CANCELLED none |
| StockEquation.StockEquationOfEveryRun | src/modules/inventory/inventory.repository.ts:391-509 | in every reachable state a stock row is its opening quantity plus adjustments plus what all orders and attempts have netted |
| StockEquation.OutExactly | src/modules/payments/payments.service.ts:448-646 | in every reachable state, over all its sources, an order of either method has its quantities out once for good, if an attempt is paid or the COD order never gave them back, and once more while it is in PENDING_PAYMENT; otherwise nothing |
| StockEquation.StockIsOpeningPlusAdjustmentsMinusOut | src/modules/inventory/inventory.repository.ts:391-509 | in every reachable state, whatever was retried, a stock row is its opening quantity plus adjustments minus the sum of that over all orders |
| StockEquation.StockIsOpeningPlusAdjustmentsMinusOrders | src/modules/payments/payments.service.ts:448-541 | where retries act on what they read and never on a COD payment, a stock row is opening plus adjustments minus the quantities of the orders whose status holds stock |
| StockEquation.VnpayStatusDecidesStock | src/modules/payments/payments.service.ts:662-702 | where retries act on what they read, the status of a VNPAY order alone decides whether exactly its quantities are out or nothing is |
| OrderHistory.HistoryReplays | src/modules/orders/order-status-history.ts:21-40 | in every run replaying the STATUS_CHANGED entries gives each order's status; where retries act on what they read, every entry starts from the status the previous one ended in |
| OrderHistory.ReceiptMovesNoStatus | src/modules/customer-orders/customer-orders.service.ts:140-199 | confirming receipt adds one history entry, moves no status and touches no stock, payment or attempt |
| OrderHistory.StaleRetryChain | src/modules/payments/payments.service.ts:413-424 | in every reachable state the chain is sound after a committing retry exactly when it was before and the status that the retry read is still the order's |
| OrderHistory.RunChainsExactly | src/modules/payments/payments.service.ts:413-424 | at the end of any run every entry starts from the status the previous one ended in exactly when no retry of the run went through on a status that was no longer the order's |
| CheckoutEffects.TotalLaws | src/modules/checkout/checkout.service.ts:461-524 | an order of no lines costs its shipping, and a line anywhere in the basket adds its unit price times its quantity to the total |
| CheckoutEffects.CodPlacedExactly | src/modules/checkout/checkout.service.ts:187-261 | a COD order is placed exactly when its key and id are new, it has lines whose weights and quantities are positive safe integers with a safe total, the preview still holds, no variant comes twice and every shelf has enough |
| CheckoutEffects.VnpayPlacedExactly | src/modules/checkout/checkout.service.ts:263-372 | the same of a VNPAY order, with a new id and key for its attempt |
| CheckoutEffects.CodStores | src/modules/checkout/checkout.service.ts:187-261 | then the order is stored PENDING with the customer's lines and the total, its payment UNPAID for that total, each line's shelf has lost its quantity and nothing else changes |
| CheckoutEffects.VnpayStores | src/modules/checkout/checkout.service.ts:263-372 | then the order waits for payment, payment and attempt are for its total, the attempt holds the stock and expires in due time, each line's shelf has lost its quantity and nothing else changes |
| CheckoutEffects.RepeatedCheckout | src/modules/checkout/checkout.service.ts:192-207 | a second request under one key writes nothing, and is answered OK to the customer whose order it was |
| PaymentEffects.SuccessPaysExactly | src/modules/payments/payments.service.ts:448-541 | a notification of success acts exactly on a genuine one for the open hold of the latest attempt with no other paid; attempt and payment are then PAID, the order PENDING, and the goods stay out |
| PaymentEffects.FailureClosesExactly | src/modules/payments/payments.service.ts:115-172 | any other genuine notification acts exactly on a pending attempt whose goods fit back; code 24 makes attempt and payment CANCELLED, any other FAILED, the order is PAYMENT_FAILED and the goods are back |
| PaymentEffects.ExpiresExactly | src/modules/payments/payments.service.ts:648-703 | a status request expires an attempt exactly if it is the customer's own, pending, past its time and its goods fit back; attempt and payment are then EXPIRED, the order PAYMENT_FAILED and the goods back |
| PaymentEffects.NotificationAnswers | src/modules/payments/payments.service.ts:65-177 | the gateway is answered 97, 01, 04, 02, 00 or 99 exactly by signature, attempt, amount and what became of it |
| PaymentEffects.ReturnAnswers | src/modules/payments/payments.service.ts:242-295 | the browser's return writes exactly what a success would, and is told success exactly if the attempt is paid now or was before |
| PaymentEffects.RetryReservesExactly | src/modules/payments/payments.service.ts:328-428 | a retry's transaction commits exactly with a new key and id, nothing pending and enough on the shelves; it then has a pending attempt for the order's total with its own expiry, the order waits for payment and the quantities are off the shelves |
| PaymentEffects.OwnRetryExactly | src/modules/payments/payments.service.ts:297-446 | a prompt retry is also the order's own customer's and its payment is not PAID |
| PaymentEffects.ClosedOffersRetry | src/modules/customer-orders/customer-orders.service.ts:229-236 | after a failed or expired payment a retry is offered, exactly for a VNPAY order |
| OrderEffects.CustomerCancelsExactly | src/modules/customer-orders/customer-orders.service.ts:113-138 | a customer's cancellation goes through exactly for an own order in PENDING_PAYMENT, PAYMENT_FAILED or PENDING that is no paid VNPAY one and whose goods fit back; it then is CANCELLED, its open payment CANCELLED, its hold released and its goods back |
| OrderEffects.StaffCancelExactly | src/modules/admin-orders/admin-orders.service.ts:150-177 | the same of staff with permission, for an order of their branch, also in CONFIRMED and PACKING |
| OrderEffects.CancelRefusals | src/modules/orders/order-cancellation.ts:76-91 | a refused cancellation says why, to customers and to staff in their own words |
| OrderEffects.MovesExactly | src/modules/admin-orders/admin-orders.service.ts:84-148 | staff move an order exactly from PENDING to CONFIRMED, PACKING, SHIPPING and, once received, COMPLETED, one at a time; the last pays an unpaid COD order and nothing else changes |
| OrderEffects.ReceivesExactly | src/modules/customer-orders/customer-orders.service.ts:140-199 | receipt is confirmed exactly by the order's customer, once, in SHIPPING, and writes the mark and one entry |
| OrderEffects.AdjustsExactly | src/modules/inventory/inventory.repository.ts:391-509 | an adjustment is made exactly by 1 to 1000 copies on the quantity expected, within the column; the row has more if it adds and less if it takes away, and one movement says so |
| OrderEffects.ForeignChangesNothing | src/modules/customer-orders/customer-orders.service.ts:113-199 | a request on another customer's order or another branch's, or without permission, changes nothing |
| CancelledOrders.LateFailureReopens | src/modules/payments/payments.service.ts:121-158 | a notification for an attempt of a CANCELLED order moves the order exactly when it is a verified failure of an attempt left pending; the order becomes PAYMENT_FAILED and no stock moves |
| CancelledOrders.RetryCommitsExactly | src/modules/payments/payments.service.ts:328-428 | the transaction of a retry commits exactly when its key and id are new, nothing of the order is pending and every shelf has enough, whatever status the order has; the order then waits for payment |
| CancelledOrders.CancelledMovesExactly | src/modules/payments/payments.service.ts:297-428 | of all requests exactly these move a CANCELLED order: a verified failure of an attempt still pending, its owner's retry unless the payment is PAID, and a retry on a stale read, both where the transaction commits |
| RetriedOrders.CodRetryIsOpen | src/modules/payments/payments.service.ts:303-321 | a live COD order passes the checks of a retry exactly until it is completed |
| StockEquation.CodOwnNet | src/modules/orders/order-cancellation.ts:135-149 | a COD order's own movements sum to minus its quantities until one of them is a restoration, and to 0 from then on |
| RetriedOrders.StaleRetryTakesAgain | src/modules/payments/payments.service.ts:303-428 | in every reachable state, a retry of a VNPAY order, however stale its read, leaves the quantities out twice exactly when an attempt of the order has been paid, and otherwise once |
| RetriedOrders.CodRetryTakesAgain | src/modules/payments/payments.service.ts:328-428 | a retry of a COD order, the first or any later one, leaves the quantities out twice exactly when the order's own movements never gave them back, and otherwise once |
| RetriedOrders.CodNetIsFrozen | src/modules/orders/order-cancellation.ts:77-149 | once a COD order has an attempt, no run changes what the order's own movements sum to |
| RetriedOrders.FirstRetryDecides | src/modules/payments/payments.service.ts:328-428 | after the first retry of a COD order its own movements sum for ever to minus its quantities if it was live then, and to 0 if not |
| RetriedOrders.CancelledNet | src/modules/orders/order-cancellation.ts:70-173 | a CANCELLED order of either method has exactly its quantities out, over all its sources, if an attempt is paid or the COD order never gave them back, and otherwise nothing |
| RetriedOrders.CancelledHasNothingOutExactly | src/modules/orders/order-cancellation.ts:70-173 | so it has nothing out of any row exactly when neither is the case |
| RetriedOrders.CancellationGivesBackExactly | src/modules/orders/order-cancellation.ts:82-149 | a cancellation that goes through leaves nothing out exactly unless, before it, an attempt of the VNPAY order is paid or the COD order has been retried without having given anything back |
| RetriedOrders.CancelledAfterRetry | src/modules/orders/order-cancellation.ts:109-149 | a retried COD order that is CANCELLED after any run has its quantities out exactly when its first retry found it live |
| OrderExamples.CodRetryExample | src/modules/payments/payments.service.ts:297-321 | a concrete run: an order for 2 of 10 is placed as COD and retried, and 6 are left |
| OrderExamples.CodCancelExample | src/modules/orders/order-cancellation.ts:109-149 | the same order is then cancelled, and 8 of 10 are on the shelf |
| OrderExamples.LateFailureExample | src/modules/payments/payments.service.ts:121-158 | a concrete run: a VNPAY order is cancelled while its payment is pending, and the failure that follows makes it PAYMENT_FAILED |
| OrderExamples.CancelledRetryExample | src/modules/payments/payments.service.ts:303-428 | a concrete run: a COD order is cancelled, retried, and waits for payment |
| OrderExamples.StaleRetryExample | src/modules/payments/payments.service.ts:303-428 | a concrete run: a retry passes its checks, another one is made and paid, and the first then commits: 6 of 10 are left, the paid order waits for payment and the status chain is broken |
| OrderExamples.PaidCancelExample | src/modules/orders/order-cancellation.ts:82-90 | that order is then cancelled without a refund: it is CANCELLED with a paid attempt, and 8 of 10 are on the shelf |
| StockLedger.DeductSucceedsExactly | src/modules/checkout/checkout.service.ts:666-718 | a deduction goes through exactly when every line's variant is stocked and no row falls short of all its lines together |
| StockLedger.DeductAll | src/modules/checkout/checkout.service.ts:666-718 | a deduction in variant order moves each row and the ledger by exactly the lines' quantities under one source and keeps the ledger sound |
| StockLedger.VisitedAscending | src/modules/checkout/checkout.service.ts:666-680 | a deduction visits the variants in ascending order, lines without a variant first |
| StockLedger.RestoreAll | src/modules/orders/order-cancellation.ts:35-68 | a restoration gives back exactly the lines' quantities under one source, with the ledger sound and its index kept |
| StockLedger.RestoreFailsOnlyOnOverflow | src/modules/payments/payments.service.ts:604-646 | putting lines back on existing rows fails exactly when some row would leave its column's range |
| ProductWeight.TotalWeightExact | src/modules/checkout/product-weight.util.ts:14-30 | the reduce throws exactly on a non-positive or unsafe weight or quantity or on an unsafe total, and otherwise returns the sum |
| ShopDatabase.Database.DeductStock | src/modules/checkout/checkout.service.ts:666-718 | the loop of compare-and-set decrements and ledger rows does what the step says, or fails where it fails |
| ShopDatabase.Database.RestoreStock | src/modules/orders/order-cancellation.ts:35-68 | the loop of increments and ledger rows does what the step says, or fails where it fails |
| ShopDatabase.Database.PlaceCodOrder | src/modules/checkout/checkout.service.ts:187-261 | the COD transaction commits exactly the step's state and answer, or leaves everything unchanged, and keeps the invariant |
| ShopDatabase.Database.PlaceVnpayOrder | src/modules/checkout/checkout.service.ts:263-372 | the same for the VNPAY checkout with its first attempt; a key reused from a COD order ends in a missing transaction |
| ShopDatabase.Database.ApplySuccessful | src/modules/payments/payments.service.ts:448-541 | the success transaction changes attempt, payment, order and history exactly as the step does, or nothing, and keeps the invariant |
| ShopDatabase.Database.ReleaseReservedStock | src/modules/payments/payments.service.ts:604-646 | a hold is claimed and given back at most once, and a failed write undoes the claim |
| ShopDatabase.Database.CommitNotification | src/modules/payments/payments.service.ts:100-177 | the transaction of a notification whose read passed at any earlier time does what the step says and keeps the invariant |
| ShopDatabase.Database.HandleVnpayIpn | src/modules/payments/payments.service.ts:65-177 | a notification with nothing between its read and its transaction gives the step's state and response code on every branch and keeps the invariant |
| ShopDatabase.Database.BuildReturnRedirect | src/modules/payments/payments.service.ts:242-295 | the browser return, with nothing between its read and its transaction, gives the step's state and result; only a verified success writes |
| ShopDatabase.Database.ExpirePaymentIfNeeded | src/modules/payments/payments.service.ts:648-703 | expiry closes the one expired attempt exactly as the step does and keeps the invariant |
| ShopDatabase.Database.RetryTransaction | src/modules/payments/payments.service.ts:328-428 | the retry transaction, given any earlier status, does what the step says and keeps the invariant |
| ShopDatabase.Database.RetryPayment | src/modules/payments/payments.service.ts:297-446 | a retry whose read and transaction have nothing between them does what the step says and keeps the invariant |
| ShopDatabase.Database.CancelOrder | src/modules/orders/order-cancellation.ts:70-173 | cancellation releases the one active hold or the COD deduction, closes the payment where open, and does what the step says |
| ShopDatabase.Database.CancelByCustomer | src/modules/customer-orders/customer-orders.service.ts:113-138 | the customer's cancellation with its own allowed statuses and its own refusal |
| ShopDatabase.Database.CancelByAdmin | src/modules/admin-orders/admin-orders.service.ts:150-177 | the staff cancellation with its own allowed statuses and branch check |
| ShopDatabase.Database.MoveOn | src/modules/admin-orders/admin-orders.service.ts:84-148 | a staff transition moves one step along the chain, completes only received orders and pays a COD order on completion |
| ShopDatabase.Database.ConfirmReceipt | src/modules/customer-orders/customer-orders.service.ts:140-199 | receipt is confirmed once, only while SHIPPING |
| ShopDatabase.Database.AdjustQuantity | src/modules/inventory/inventory.repository.ts:391-509 | an adjustment is refused on a changed or insufficient quantity and otherwise moves the row and writes its movement |
| LoginLock.AuthAttempts.RecordFailedAttempt | src/modules/auth/auth-attempts.repository.ts:74-119 | the upsert's separate CASE columns together are the three-way machine: a locked row stays, a lapsed one restarts, any other counts up |
| LoginLock.AuthAttempts.ResetAttempt | src/modules/auth/auth-attempt.service.ts:135-146 | a reset clears an existing row and creates none |
| LoginLock.FailedKeeps | src/modules/auth/auth-attempts.repository.ts:74-119 | attempts stay within the limit, a lock is stored exactly when the limit is reached, and a failure while locked changes nothing |
| LoginLock.FailureCounts | src/modules/auth/auth-attempts.repository.ts:74-119 | an accepted failure counts on within its window and starts over after it; reaching the limit locks for exactly lockSeconds |
| LoginLock.LimitLocks | src/modules/auth/auth-attempts.repository.ts:74-119 | failures within one window lock a key exactly when as many as the limit have come, for lockSeconds from the last, and all of them are accepted |
| LoginLock.RateBound | src/modules/auth/auth-attempts.repository.ts:74-119 | from the first failure after a reset, the failures accepted over a span T number at most max(1, maxAttempts) * (1 + floor(T / min(lock, window))) |
| LoginLock.RateBoundAnywhere | src/modules/auth/auth-attempts.repository.ts:74-119 | from any moment between two resets that bound holds with the excess of the open window added, which is 0 for a row that is locked, lapsed, one failure from its limit or open for a whole spacing more |
| LoginLock.ExcessIsReached | src/modules/auth/auth-attempts.repository.ts:74-119 | for any other row a trace takes the allowance and the whole excess |
| LoginLock.RateBoundExactly | src/modules/auth/auth-attempts.repository.ts:74-119 | the plain bound holds of all spans beginning at a moment exactly when the row is of one of those four kinds then |
| LoginLock.MidWindowExceeds | src/modules/auth/auth-attempts.repository.ts:74-119 | a row of the other kind comes up after one failure, and four are accepted where the bound allows three |
| Ulid.CreateUlid | src/modules/auth/auth-attempts.repository.ts:133-151 | the two array loops give the ten base-32 digits of the time followed by sixteen random characters |
| Ulid.PrefixDecodes | src/modules/auth/auth-attempts.repository.ts:133-151 | the time prefix decodes to the time exactly when the time has no more digits than the prefix |
| Ulid.PrefixesSortAsTimes | src/modules/auth/auth-attempts.repository.ts:133-151 | prefixes compare as strings the way their times compare as numbers |
| Ulid.AcceptedExactly | src/common/pipes/parse-ulid.pipe.ts:3-3 | the whole string matches the accepted pattern exactly when the leading time digit is at most 7 |
| Ulid.PatternIsAlphabet | src/common/pipes/parse-ulid.pipe.ts:3-3 | the pattern admits exactly the characters of the encoding |
| Ulid.TimesBelow48Bits | src/common/pipes/parse-ulid.pipe.ts:3-3 | every time below 2^48 gives an accepted id, and the times from there to 2^50 do not |
| Slug.ToSlugShape | src/common/utils/slug.util.ts:1-11 | every slug is words of a-z and 0-9 joined by single hyphens, none at the ends, and holds nothing else |
| Slug.ToSlugIdempotent | src/common/utils/slug.util.ts:1-11 | where normalisation fixes a-z, 0-9 and the hyphen, a slug is its own slug |
| Slug.WordKept | src/common/utils/slug.util.ts:8-10 | a word of letters and digits is its own slug |
| Slug.SeparatorBecomesHyphen | src/common/utils/slug.util.ts:8-10 | for any two strings and any run of other characters between them, the slug is their slugs with one hyphen between, or the one that is not empty |
| Slug.SlugOfWords | src/common/utils/slug.util.ts:1-11 | what normalises to two slugs around a separator becomes these with a hyphen between |
| CategoryPlan.PathOfSlugs | src/modules/categories/category-slug.util.ts:28-33 | a path slug is the parent's slug, a hyphen and the name's own slug |
| CategoryPlan.BuildPlan | src/modules/categories/category-slug.util.ts:35-87 | a plan exists exactly when every record resolves to a root parent, has a slug, and no two slugs meet; it lists each out-of-date record once in plan order; a refusal names the first failing record or every contested slug with all its claimants |
| CategoryPlan.SingleClaimants | src/modules/categories/category-slug.util.ts:65-80 | grouping by slug finds no group of two exactly when all target slugs differ |
| CategoryPlan.RootsComeFirst | src/modules/categories/category-slug.util.ts:35-87 | in a plan the roots come before the children, each by id |
| CategoryReconcile.FreeTemporary | src/scripts/reconcile-category-slugs.ts:25-31 | the suffix loop terminates with the first unused temporary slug |
| CategoryReconcile.BuildTemporarySlugs | src/scripts/reconcile-category-slugs.ts:18-35 | each change gets a temporary slug that no record holds, no two alike, each with an underscore |
| CategoryReconcile.CategoryTable.MoveToTemporaries | src/scripts/reconcile-category-slugs.ts:89-94 | the first phase, with the unique index satisfied at every write |
| CategoryReconcile.CategoryTable.MoveToTargets | src/scripts/reconcile-category-slugs.ts:95-100 | the second phase, with the unique index satisfied at every write, ends with every record at the slug of its name path |
| CategoryReconcile.CategoryTable.Reconcile | src/scripts/reconcile-category-slugs.ts:81-101 | a refused plan changes nothing; an accepted one rewrites exactly to the slugs of the name paths |
| CategoryReconcile.ReplanIsEmpty | src/modules/categories/category-slug.util.ts:35-87 | planning again after the rewrite gives the empty plan |
| CategoryTree.CreateExactly | src/modules/categories/categories.repository.ts:88-123 | a new category is accepted exactly when the tree with it in place, under its path slug, has two levels, matching kinds, distinct sibling names and distinct following slugs |
| CategoryTree.UpdateExactly | src/modules/categories/categories.repository.ts:125-234 | an update is accepted exactly when the tree it asks for, children's slugs carried along, is a good one and no category with a parent changes kind |
| CategoryTree.SoundMoveRefused | src/modules/categories/categories.repository.ts:166-175 | a child that leaves its parent and changes kind in one request is refused although the result would be a good tree |
| CategoryTree.DeleteExactly | src/modules/categories/categories.repository.ts:244-266 | a deletion is accepted exactly when no product uses the category and the tree without it is a good one |
| CategoryTree.EveryRunKeepsTree | src/modules/categories/categories.repository.ts:125-336 | every run of create, update and delete keeps a two-level forest with equal kinds, sibling names distinct after normalisation, and distinct slugs equal to the name paths |
| CategoryEffects.TreeInColumns | src/modules/categories/categories.repository.ts:268-336 | that tree is exactly: every parent a root of its child's kind, siblings with different normalised names, every slug that of the path and no other's |
| CategoryEffects.TargetInColumns | src/modules/categories/category-slug.util.ts:35-64 | a record resolves exactly as a root or under a root that is present, and its target is the slug of its path |
| CategoryEffects.PlannableExactly | src/modules/categories/category-slug.util.ts:35-87 | a two-level tree can be planned exactly when its path slugs would make it a good one |
| CategoryEffects.GoodTreeNeedsNoChange | src/modules/categories/category-slug.util.ts:35-87 | the plan of a good tree is empty, so what the repository keeps is what the script would restore |
| CategoryEffects.CreateStores | src/modules/categories/categories.repository.ts:88-123 | an accepted category is stored as asked under its path slug, a refusal changes nothing |
| CategoryEffects.UpdateStores | src/modules/categories/categories.repository.ts:125-234 | an accepted update stores the fields given, keeps the absent ones, gives other slugs only to the category and its children, each that of its path now, and changes nothing else |
| CategoryEffects.DeleteStores | src/modules/categories/categories.repository.ts:244-266 | a deletion takes exactly the category, which has no children and no products |
| CategoryStore.SlugsAvailable | src/modules/categories/categories.repository.ts:308-336 | the set-size check and the conflict queries pass exactly when no two targets meet and no other category holds one |
| CategoryStore.TargetIsFree | src/modules/categories/categories.repository.ts:212-231 | between the phases no category but the target's own holds a slug that is about to be written |
| CategoryStore.Categories.CreateCategory | src/modules/categories/categories.repository.ts:88-123 | create does what the step says on every branch and keeps the tree good |
| CategoryStore.Categories.Rewrite | src/modules/categories/categories.repository.ts:212-231 | the temporary slugs, the row itself and the children are written with the unique index satisfied at every write, and end as the step says |
| CategoryStore.Categories.UpdateCategory | src/modules/categories/categories.repository.ts:125-234 | update does what the step says on every branch and keeps the tree good |
| CategoryStore.Categories.DeleteCategory | src/modules/categories/categories.repository.ts:244-266 | delete does what the step says on every branch and keeps the tree good |
| CombinationKey.KeyIgnoresOrder | src/modules/products/products.repository.ts:1193-1196 | sorting makes the key independent of the order of its parts |
| CombinationKey.KeyInjective | src/modules/products/products.repository.ts:913-913 | equal keys of bar-free parts come from the same parts |
| VariantMatrix.MatrixSize | src/modules/products/products.repository.ts:882-908 | the preview has as many rows as the product of the value counts, none twice |
| VariantMatrix.GeneratePreview | src/modules/products/products.repository.ts:845-922 | the preview lists every choice of one value per option exactly once and nothing else, each with its label, its key and whether that key is taken; more than 200 are refused with their count |
| VariantMatrix.KeysTellChoices | src/modules/products/products.repository.ts:906-915 | under plain codes two different choices never share a key |
| VariantMatrix.PresentExactly | src/modules/products/products.repository.ts:892-918 | where no part holds a bar, an item is marked as present exactly when some stored variant, made under whatever options, has exactly its choice's parts |
| VariantMatrix.MadeExactly | src/modules/products/products.repository.ts:892-918 | with the variants of the present options and older ones of fewer or more options stored, an item is marked exactly when its own choice was made |
| VariantMatrix.ValidatedIsPlain | src/modules/products/dto/product.dto.ts:35-35 | codes and values that match the pattern of the requests hold no bar and no equals sign |
| VariantMatrix.ValidatedKeysTellChoices | src/modules/products/dto/product.dto.ts:253-260 | of validated options two choices share a key exactly when they are the same |
| VariantMatrix.ValidatedPresentExactly | src/modules/products/products.repository.ts:892-918 | with validated codes in store and on offer the mark is exact |
| VariantPreparation.FindValues | src/modules/products/products.repository.ts:1154-1163 | the query returns each known id's row once, in any order |
| VariantPreparation.PrepareVariant | src/modules/products/products.repository.ts:1132-1223 | for a product with options the ids are accepted exactly when they are those of a choice in any order, and stored under that choice's key with a link per option; the scope error exactly on repeated, unknown or foreign ids; the default case exactly under its four conditions |
| MediaGallery.EveryRunKeepsMedia | src/modules/product-media/product-media.repository.ts:61-220 | every run of gallery operations and status changes keeps positions 0 to n-1, sizes within limits, one primary per non-empty gallery, and a picture for every active product |
| MediaGallery.ReorderExactly | src/modules/product-media/product-media.repository.ts:145-176 | an accepted reordering keeps the positions exactly when no unnamed row holds a position that a named row ends up with |
| MediaGallery.DistinctReorder | src/modules/product-media/dto/product-media.dto.ts:74-82 | naming every row once is enough |
| MediaGallery.ClosedPrimary | src/modules/product-media/product-media.repository.ts:202-209 | deleting the primary makes the first remaining row the one primary; deleting another row leaves the primary as it was |
| MediaGallery.ActivationExactly | src/modules/products/products.repository.ts:368-400 | in a good state activation fails only on an earlier check or an empty general gallery; the checks on primaries and scope never fire |
| MediaGallery.EveryPositionTaken | src/modules/product-media/product-media.repository.ts:210-217 | every position below a gallery's size is held by a row |
| GalleryEffects.AddsExactly | src/modules/product-media/product-media.repository.ts:61-105 | a picture is added exactly to a known gallery with fewer than 12, or 8 for a variant; it goes to the end and is primary if first or asked to be, in place of the one before |
| GalleryEffects.ChoosesPrimary | src/modules/product-media/product-media.repository.ts:124-143 | the chosen picture becomes the one primary of its gallery and nothing else changes |
| GalleryEffects.ReordersExactly | src/modules/product-media/product-media.repository.ts:145-176 | a reordering of distinct ids is accepted exactly when it names each picture of the gallery; each then has the position of its place in the request and nothing else changes |
| GalleryEffects.ReorderIsListed | src/modules/product-media/product-media.repository.ts:145-176 | afterwards the gallery is listed as the request was |
| GalleryEffects.DeletesExactly | src/modules/product-media/product-media.repository.ts:178-201 | a deletion is refused exactly for a foreign picture and for the last general one of an active product |
| GalleryEffects.DeleteStores | src/modules/product-media/product-media.repository.ts:202-220 | the rest of the gallery keeps its order, closed up, and no other gallery changes |
| GalleryEffects.StatusStores | src/modules/products/products.repository.ts:304-407 | a status change writes the status asked for and nothing else |
| MediaStore.Listing | src/modules/product-media/product-media.repository.ts:71-75 | a listing holds each row of the gallery once, by position and then by id |
| MediaStore.PlaceIsRank | src/modules/product-media/product-media.repository.ts:203-217 | a row's index in the listing is the number of rows before it |
| MediaStore.MediaTable.AddMedia | src/modules/product-media/product-media.repository.ts:61-105 | create does what the step says and keeps every gallery fine |
| MediaStore.MediaTable.MakePrimary | src/modules/product-media/product-media.repository.ts:124-143 | setPrimary does what the step says and keeps every gallery fine |
| MediaStore.MediaTable.ReorderMedia | src/modules/product-media/product-media.repository.ts:145-176 | reorder with distinct ids does what the step says and keeps every gallery fine |
| MediaStore.MediaTable.DeleteMedia | src/modules/product-media/product-media.repository.ts:178-220 | delete, with its renumbering loop, does what the step says and keeps every gallery fine; no write ever gives a gallery two primaries |
| MediaStore.MediaTable.ChangeStatus | src/modules/products/products.repository.ts:304-407 | a status change does what the step says and keeps every active product pictured |
| BranchAssignments.EveryRunKeepsPrimaries | src/modules/authorization/authorization.repository.ts:1152-2565 | in every run of the assignment mutators, with replacements chosen on reads however stale, a user has at most one primary assignment and it is active |
| BranchAssignments.CheckStopsExactly | prisma/migrations/20260623120000_branch_scoped_staff_assignments/migration.sql:113-115 | the check constraint rolls a deactivation back exactly when a primary assignment is named as its own replacement with nobody to take over |
| BranchAssignments.DeactivateKeeps | src/modules/authorization/authorization-management.service.ts:1279-1316 | the service never names the assignment itself, so its deactivations keep the one active primary and never meet the constraint, even on a stale read |
| BranchAssignments.TransferCountExactly | src/modules/authorization/authorization.repository.ts:2300-2313 | the closing count of a transfer fails exactly when neither the source nor any other serving assignment is primary |
| BranchAssignments.OffboardHandsOver | src/modules/authorization/authorization.repository.ts:1945-1963 | offboarding from the primary branch leaves exactly one primary among those that remain, the one listed first |
| BranchAssignments.LastAssignmentEndsAccess | src/modules/authorization/authorization.repository.ts:2388-2500 | deactivation, removal and offboarding disable the user and revoke every session exactly when no active assignment in an active branch is left |
| AssignmentEffects.HiresExactly | src/modules/authorization/authorization.repository.ts:1553-1678 | a user is created exactly with fitting roles at distinct open branches; a branch user then has exactly these, active, primary at the first, and any other user none |
| AssignmentEffects.MakesAdminExactly | src/modules/authorization/authorization.repository.ts:1680-1745 | exactly a customer is converted, loses all earlier assignments and is admin at exactly the branches named, primary at the first |
| AssignmentEffects.MakesStaffExactly | src/modules/authorization/authorization.repository.ts:1751-1858 | exactly an active customer is converted, with one branch marked among distinct open ones, and has exactly these, primary at the marked one |
| AssignmentEffects.AddsStaffExactly | src/modules/authorization/authorization.repository.ts:1152-1255 | a branch user gets an open branch they have no row for; it is primary exactly if no other is active |
| AssignmentEffects.AddsBranchExactly | src/modules/authorization/authorization.repository.ts:2066-2159 | the upsert activates a row, adds the role and keeps flag and other roles, or makes a new row that is not primary |
| AssignmentEffects.ChoosesPrimary | src/modules/authorization/authorization.repository.ts:2521-2565 | exactly an active assignment in an open branch with the role is chosen; of the user's assignments then it alone is primary, and nobody else's changes |
| AssignmentEffects.Reactivates | src/modules/authorization/authorization.repository.ts:2322-2345 | an assignment is reactivated exactly in an open branch, as it was |
| AssignmentEffects.DeactivatesExactly | src/modules/authorization/authorization.repository.ts:2322-2413 | a deactivated assignment is inactive and not primary; a primary one goes exactly with an heir that may take over, where there is one, who is primary and active then |
| AssignmentEffects.ServiceDeactivatesExactly | src/modules/authorization/authorization-management.service.ts:1279-1316 | on a fresh read the service deactivates exactly an assignment that needs no heir or is given one that may take over, and hands over to that one only where needed |
| AssignmentEffects.RemovesExactly | src/modules/authorization/authorization.repository.ts:2415-2504 | the same of a removed one, which is gone; an admin with other roles loses only that role |
| AssignmentEffects.TransfersExactly | src/modules/authorization/authorization.repository.ts:2161-2320 | a transfer goes through exactly for serving staff with a primary assignment and an open branch they are not active in; the target is primary exactly if the source was, and only the two rows change |
| AssignmentEffects.OffboardsExactly | src/modules/authorization/authorization.repository.ts:1913-1982 | offboarding closes exactly a serving staff assignment; a primary one hands over to the earliest that remains |
| AssignmentEffects.BranchOpensExactly | src/modules/authorization/authorization.repository.ts:991-1028 | a branch is closed exactly while no assignment there is active |
| AssignmentEffects.DisablesExactly | src/modules/authorization/authorization.repository.ts:1885-1911 | a disabled user is inactive without sessions |
| BranchRegister.AssignmentTables.CreateInternalUser | src/modules/authorization/authorization.repository.ts:1553-1678 | creation makes the first listed branch primary |
| BranchRegister.AssignmentTables.ConvertToBranchAdmin | src/modules/authorization/authorization.repository.ts:1680-1745 | conversion replaces earlier assignments, the first listed branch primary |
| BranchRegister.AssignmentTables.ConvertCustomerToStaff | src/modules/authorization/authorization.repository.ts:1751-1858 | conversion demands distinct branches and exactly one primary and creates the assignments as asked |
| BranchRegister.AssignmentTables.AssignExistingStaff | src/modules/authorization/authorization.repository.ts:1152-1255 | a new assignment is primary exactly when the user has no active one |
| BranchRegister.AssignmentTables.AssignUserBranch | src/modules/authorization/authorization.repository.ts:2066-2159 | the upsert reactivates or creates an assignment and leaves the primary flag alone |
| BranchRegister.AssignmentTables.TransferStaffBranch | src/modules/authorization/authorization.repository.ts:2161-2320 | a transfer moves the assignment and its primary flag, with both satisfied at every write, or rolls back |
| BranchRegister.AssignmentTables.SetUserBranchActive | src/modules/authorization/authorization.repository.ts:2322-2413 | (de)activation does what the step says on every branch, with the check constraint and the index on primaries satisfied at every write |
| BranchRegister.AssignmentTables.RemoveUserBranch | src/modules/authorization/authorization.repository.ts:2415-2504 | removal hands the primary flag over first and does what the step says |
| BranchRegister.AssignmentTables.SetPrimaryUserBranch | src/modules/authorization/authorization.repository.ts:2521-2565 | the chosen active assignment becomes the one primary |
| BranchRegister.AssignmentTables.OffboardUserFromBranch | src/modules/authorization/authorization.repository.ts:1913-1982 | offboarding closes the assignment, promotes the one listed first and settles access as the step says |
| CsvExport.ReadWritten | src/modules/revenue-reports/csv-export.service.ts:8-49 | a reader for section 2 of RFC 4180 gets back every field of every record, for all strings including quotes, commas, CR and LF |
| CsvExport.BuildReadsBack | src/modules/revenue-reports/csv-export.service.ts:15-50 | after its byte order mark the export reads back as the header and the rows of sanitised fields |
| CsvExport.CellsUnderHeadings | src/modules/revenue-reports/csv-export.service.ts:15-50 | read back, every cell holds what the heading of its column names |
| CsvExport.QuotedExactly | src/modules/revenue-reports/csv-export.service.ts:8-11 | exactly the fields with a quote, a comma or a line break are quoted |
| CsvExport.SanitizedCells | src/modules/revenue-reports/csv-export.service.ts:4-6 | a text that starts with =, +, - or @ gets a quote before it and no other text changes, so no cell starts a formula, and two texts share a cell only if they differ by the guard itself |

## Left out

- Controllers, guards, DTO decoration, logging, mail, image storage, seeds, list filters, paging and raw-SQL reports.
- VNPAY signing and URL building, HMAC, bcrypt and JWT: a callback's signature and its merchant fields are two flags; the method and amount checks are modelled.
- Refresh-token rotation, password recovery, stock receipts, shipping calculators and storefront prices; price and shipping fee are inputs.
- The order protocol does not model cart rows, notes, actors or the text of a movement; the stock and receipt timestamps are kept as present or absent.
- An attempt's id also stands for its merchant reference; a payment is stored under the unique id of its order; a variant's id is its rank in the collation that orders a deduction.
- A ULID or unique-key clash, a serialization conflict and a write outside a column's range are requests that change nothing; the three-try loops around conflicts are not modelled.
- A basket that names one variant twice is refused, as the cart's unique index on user, branch and variant makes it impossible.
- In a run, a request that reads before its transaction (notification, return, expiry) is one step; OrderCallbacks proves what it does when anything comes in between. A retry is both: one step, and one with an arbitrary stale status.
- A cancellation writes the order's status last within its transaction; the source claims it earlier in the same transaction.
- ToSlug and category names: trimming, lower-casing and Unicode normalisation are an abstract function on strings; only the three shaping replacements are written out.
- CategoryPlan.BuildPlan: the locale comparison of ids is any total preorder; the script's dry-run output is not modelled, and `latestRecords` is the one read that matters.
- CategoryTree: images, descriptions, sort orders and activity of categories play no part in the tree; a parent id is never the empty string, as its validation pattern demands; whether products use a category is an input.
- VariantPreparation.PrepareVariant: the price checks, names and SKUs are left out; the product exists and its price is valid. The editing of options and values is left out.
- MediaStore.MediaTable.ReorderMedia: requires distinct ids, which the request's validation demands; what repeated ids do is stated by MediaGallery.ReorderExactly.
- MediaGallery.EveryRunKeepsMedia: product and variant creation and deletion, image uploads and alternative texts are not steps; the activation checks on variants, categories and prices are one input.
- BranchAssignments: role and permission counts are one flag per request, and the time of an assignment stands for its place in a listing. Scope checks of the acting user are left out, and logging in, which opens sessions, is not a step.
- LoginLock: real time is an input that does not run back; bounds are in milliseconds.
- Ulid.CreateUlid: randomness is an input; the time is a natural number, as the clock gives it.
- MediaStore: a variant belongs to one product, so its partial index on the variant alone is taken as one on the gallery.
- Text.Le compares character by character, where JavaScript compares UTF-16 code units; the two agree on validated codes, which are ASCII.
- CsvExport: a number is any string without quotes, commas, CR or LF; the UTF-8 encoding of the text is left out.
- Customer addresses, authors, publishers, attributes and cart flags: the same shapes as what is modelled, with less to prove.
