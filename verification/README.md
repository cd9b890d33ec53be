# Book shop back end: checkout, order lifecycle and the caches beside them

A Dafny model of the stateful core of the shop's NestJS services, with proofs about every run of it.
`dafny verify dfyconfig.toml` checks the whole project.

| file | what it models |
|---|---|
| `Inventory.dfy` | the inventory table and its append-only movement log: reservation, release, manual movements |
| `Vouchers.dfy` | discount rules and arithmetic, the voucher service, and the usage counter under interleaved clients |
| `Saga.dfy` | the saga orchestrator over an arbitrary list of steps |
| `Checkout.dfy` | the three checkout steps over stock, vouchers and orders, run through the orchestrator |
| `Shop.dfy` | any number of checkouts, orders and stock movements interleaved call by call, with failures everywhere |
| `CheckoutInShop.dfy` | the orchestrator's checkout is a run of the shop |
| `Lifecycle.dfy` | one order with its shipment and return, as a state machine over all service operations |
| `ReturnJob.dfy` | the hourly job over many orders, with any order events between its writes |
| `Orders.dfy` | the orders and shipments services over their tables; each operation is the lifecycle's step |
| `Pricing.dfy` | promotion lookup, line discounts, totals, and agreement with the catalogue price |
| `CreateOrder.dfy` | createOrder as a whole: the selected cart lines, priced, through the checkout |
| `Sessions.dfy` | the per-user device registry in Redis with key expiry; the OTP attempt counter |
| `Permissions.dfy` | the role-permission cache in Redis against the database |
| `Sums.dfy`, `Options.dfy` | finite sums; optional values |

## How to read the model

- A database transaction, a single-row update and a single Redis pipeline are atomic; a failed transaction changes
  nothing. Code that loops or updates fields is written as methods and proved equal to a function of the old state;
  the theorems about runs are lemmas about those functions.
- An operation that reads first and writes later carries the row it `seen` in `Lifecycle`, which need not be the row
  it overwrites. Nothing is assumed of it unless a lemma says so: `Fresh` means nothing was written in between,
  `ReadBefore` that it was the row at some earlier point of the run.
- Where the code does not keep a promise in all runs, the condition under which it does is a guard on the next event
  that can be evaluated before it happens, and a lemma states both directions over whole runs.
- `released` counts how often an order's goods went back to stock. No column holds it.
- A call of a saga in `Shop` may return, fail without effect, or take effect and lose its reply. What lost replies
  and failed compensations leave behind is counted separately. Applying a voucher is two of its events, the check and
  the increment, because the service makes them separate statements.
- Quantities are at least one, as request validation demands. Inventory is keyed by book, because `bookId` is unique.
- Clocks, the carrier's replies and statuses, faults, generated tokens and session ids are inputs. Tokens and session
  ids are fresh, and clocks do not go back.

## What the proofs found

- *Goods can be put back twice.* An order stays settled - goods back at most once, and then closed - in a run of any
  events if and only if no event reopens it (`Lifecycle.SettledExactly`). `Lifecycle.Reopens` is that guard: the goods
  are back, and the event releases them again or writes an open status. After any reopening at most two undisturbed
  events do release the goods twice (`Lifecycle.ReopenedIsReleasedTwice`). Undisturbed, only PROCESSING, the generic
  status write and late words of the carrier reopen an order (`Lifecycle.UndisturbedReopensExactly`); cancelling,
  confirming or requesting a return does so only on a row read too early (`Lifecycle.OnlyStaleReadsReopen`). Five lemmas
  give concrete runs.
- *A rollback and a cancellation can each put the same goods back.* An order exists, and its customer can cancel it,
  before its saga has committed. If the saga then rolls back, or if cancelling the record fails and the orphan order is
  cancelled later, stock exceeds what was ever brought in (`Shop.CancelBeforeRollbackOverdraws`, with no fault at all,
  and `Shop.OrphanOrderOverdraws`). `Shop.NoOverdraftExactly` gives the exact guard over all runs, and apart from
  reopened orders it only ever fails under a saga that is rolling back (`Shop.OverdraftNeedsReopeningOrRollback`).
- *Overlapping webhooks can move a timestamp.* It stays if and only if no report overwrites it
  (`Lifecycle.TimestampsWrittenOnce`); among reads of earlier rows only one made before the first report was written
  does (`Lifecycle.OverwritesExactlyWhenReadTooEarly`).
- *The plain voucher application is only safe alone.* The checkout uses `applyVoucher`, whose check and increment are
  separate statements. It keeps the usage limit if and only if no two clients overlap
  (`VoucherRaces.PlainSafeExactly`).
- *Changing the limit races as well.* `updateVoucher` checks the new limit against a count it read, and writes it in a
  separate statement, so a compare-and-set client in between leaves the count above the limit without any plain client
  (`VoucherRaces.StaleLimitOvershoots`). Any mix is safe if and only if no plain client is in flight and no limit change
  is behind the count (`VoucherRaces.MixedSafeExactly`); `VoucherRaces.LimitKeptExactly` gives the guard step by step.
  A compare-and-set increment by itself never oversteps.
- *Cancelling an order does not give the voucher use back.* Only saga compensation does; in `Shop` a cancelled order
  keeps its use.
- *A failed cache invalidation is only logged, and a late fill is not noticed.* Answers about a role are right
  throughout a run if and only if no deletion fails while a differing entry is alive and no late fill brings a set the
  database does not hold (`Permissions.RightThroughoutExactly`). After such an event a revoked permission can still be
  granted (`Permissions.FailedInvalidationGrantsRevoked`, `Permissions.LateFillRestoresOld`), for at most two hours if
  expiries are set (`Permissions.AnswersHeal`).
- *A login can evict its own device,* but only if five others were used at the same millisecond and have greater names
  (`Sessions.LoginEvictsOldest`).
- *Line validation alone does not guarantee the reservation* when one book appears on several lines
  (`Inventory.RepeatedLinesDefeatLineChecks`). The cart's unique key on cart and book rules this out.
- The unlogged `decrementStockByTx` always breaks the log chain (`Inventory.UnloggedMoveBreaksChain`).
- `prisma/schema.prisma` lists no RETURNED status, while the migration
  `prisma/migrations/20260527130000_add_order_return_requested_at` and the service use it; the model follows those.

## Model

| member | source | states |
|---|---|---|
| Shop.StockConserved | src/modules/orders/sagas/order-saga.orchestrator.ts:22-92 | in every reachable state of any interleaving with failures anywhere, stock + units held by running sagas + by committed orders + left by aborted sagas = net manual movement, per book |
| Shop.VoucherUsesConserved | src/modules/vouchers/vouchers.repository.ts:168-203 | a voucher's count = running sagas that applied it + orders carrying it + uses leaked by aborted sagas, and is never negative |
| Shop.LogsAlwaysTelescope | src/modules/inventory/inventory.repository.ts:110-184 | in every reachable state each book's log is an unbroken chain from zero, and the quantity is the sum of all logged changes and not negative |
| Shop.CleanAbortHoldsNothing | src/modules/orders/sagas/order-saga.orchestrator.ts:76-92 | a saga that aborted with no lost reply and no failed compensation holds no voucher use, and of stock exactly minus what its order had given back on its own |
| Shop.VoucherReleaseNeverUnderflows | src/modules/vouchers/vouchers.repository.ts:198-203 | whenever a compensation gives a voucher use back, the count is at least one |
| Shop.NoOverdraftExactly | src/modules/orders/sagas/order-saga.orchestrator.ts:64-92 | in every run, no order ever gives back more than its checkout has standing if and only if no event overdraws: releasing goods already back or whose reservation the rollback gave back, or giving back the reservation of an order that released its goods |
| Shop.OverdrawnExactly | src/modules/inventory/inventory.repository.ts:209-225 | a checkout's stock account is negative for a book it ordered exactly when its order gave back more than stands |
| Shop.OverdraftNeedsReopeningOrRollback | src/modules/orders/orders.service.ts:500-526 | in runs that reopen no order, only an event on a saga that is rolling back can overdraw |
| Shop.CancelBeforeRollbackOverdraws | src/modules/orders/sagas/order-saga.orchestrator.ts:46-73 | cancelling the order before the final event fails turns one unit into two, with every call returning |
| Shop.OrphanOrderOverdraws | src/modules/orders/sagas/steps/create-order-record.step.ts:70-87 | when cancelling the record fails and is swallowed, cancelling the orphan order afterwards does the same |
| Shop.StockNeverExceedsSupply | src/modules/orders/orders.service.ts:250-272 | in every run in which no event overdraws, stock never exceeds the net manual movement, every order was released at most once, and a RETURNED one exactly once |
| Shop.ReturnedOrdersWereReleased | src/modules/orders/orders.service.ts:250-272 | in every run a RETURNED order's goods went back |
| Shop.OrdersLiveTheirLives | src/modules/orders/orders.service.ts:227-526 | in every run of the shop each order goes through a lifecycle run of its own events, so every law of those runs applies to it |
| Shop.NothingLeaksWithoutFaults | src/modules/orders/sagas/order-saga.orchestrator.ts:64-73 | with no faults, running sagas and committed orders account for all voucher uses, and for all stock exactly when no aborted saga's order gave goods back on its own |
| Shop.AlwaysValid | src/modules/inventory/inventory.repository.ts:186-225 | ledger, balance of stock and uses, and each saga's own account hold after every run |
| Shop.ExecuteBalanced | src/modules/orders/sagas/order-saga.orchestrator.ts:37-41 | each forward call moves stock and counts by exactly what the saga's account gains |
| Shop.CompensateBalanced | src/modules/orders/sagas/order-saga.orchestrator.ts:80-91 | each compensation, returning or failing, moves stock and counts by exactly what the account loses |
| Shop.OrderEventBalanced | src/modules/shipments/shipments.service.ts:119-154 | each order event moves stock by exactly the units the order releases |
| Shop.VouchersRace | src/modules/vouchers/vouchers.service.ts:237-253 | in every run of the shop a voucher's count is a race whose plain clients are the sagas between check and increment |
| Shop.UsesStayNearTheLimit | src/modules/vouchers/vouchers.service.ts:237-249 | over every run of the shop: with at most c such sagas at a time and limit changes at most d uses behind, a voucher's count exceeds its limit by at most c + d |
| CheckoutInShop.FailedCheckoutInShop | src/modules/orders/sagas/order-saga.orchestrator.ts:64-92 | the orchestrator's failed checkout and rollback, compensations failing or not, is a run of the shop with the same stock and counts, ending aborted, and at fault exactly if a compensation with something to undo failed |
| CheckoutInShop.SuccessfulCheckoutInShop | src/modules/orders/sagas/order-saga.orchestrator.ts:35-63 | the orchestrator's successful checkout is a committed run of the shop, whose order has the total of the stored record |
| Saga.OrderSagaOrchestrator.Execute | src/modules/orders/sagas/order-saga.orchestrator.ts:22-74 | for any steps: success runs all of them in order; a failure at step k, or of the final event, gives the trace exec 0..k-1, fail k, comp k-1..0, each once even if compensations throw |
| Saga.OrderSagaOrchestrator.Rollback | src/modules/orders/sagas/order-saga.orchestrator.ts:76-92 | pops the whole stack, last step first, whatever compensations throw |
| Saga.RollbackRestores | src/modules/orders/sagas/order-saga.orchestrator.ts:64-73 | if every compensation is a left inverse of its step, rolling back k steps leads to a state as good as the start |
| CreateOrder.PlaceOrder | src/modules/orders/orders.service.ts:68-130 | from the cart on: stock falls by exactly the copies the named cart lines ask for, the record lists them, one voucher use is counted, and the total is the sum of the charged lines less what the voucher takes off that sum, which reaches its minimum; declined exactly when nothing is named or a line is not in stock; any other reply leaves the books as they were |
| CreateOrder.ShownAmount | src/modules/orders/sagas/steps/apply-voucher.step.ts:19-22 | for validated carts the voucher is shown exactly the sum of the charged lines, which is not negative |
| CheckoutSaga.Checkout | src/modules/orders/sagas/order-saga.orchestrator.ts:22-74 | succeeds exactly when the voucher is usable for what the promotions leave of the subtotal, stock covers the demand, the record is new and the event is emitted; then the books change by exactly the order; a failure leaves exactly what failed compensations should have undone |
| CheckoutSaga.FailedCheckout | src/modules/orders/sagas/order-saga.orchestrator.ts:64-92 | with working compensations, failing after any number of completed steps restores quantities, vouchers and live orders |
| CheckoutSaga.FailedCheckoutLeaves | src/modules/orders/sagas/order-saga.orchestrator.ts:76-92 | whichever compensations fail: the books are as before if and only if every failed one had nothing to undo, and otherwise differ by exactly that |
| CheckoutSaga.SuccessfulCheckout | src/modules/orders/sagas/order-saga.orchestrator.ts:35-43 | all three steps complete if and only if the checkout is feasible, with the stated effect |
| CheckoutSaga.FailedStepChangesNothing | src/modules/orders/sagas/order-saga.orchestrator.ts:37-41 | a step of this saga that throws has changed nothing |
| CheckoutSaga.VoucherStepUndone | src/modules/orders/sagas/steps/apply-voucher.step.ts:38-52 | releasing the voucher undoes applying it |
| CheckoutSaga.StockStepUndone | src/modules/orders/sagas/steps/reserve-inventory.step.ts:32-51 | releasing the handed-over items undoes the reservation |
| CheckoutSaga.RecordStepUndone | src/modules/orders/sagas/steps/create-order-record.step.ts:70-87 | cancelling the record removes exactly it from the live orders |
| CheckoutSaga.SagaSteps.ExecuteApplyVoucher | src/modules/orders/sagas/steps/apply-voucher.step.ts:13-36 | succeeds exactly when there is no voucher or it is usable for subtotal less promotions; counts one use, and hands over its id and what it takes off that amount |
| CheckoutSaga.SagaSteps.CompensateApplyVoucher | src/modules/orders/sagas/steps/apply-voucher.step.ts:38-52 | takes one use off the applied voucher; a failed release, or a voucher that is gone, is swallowed and changes nothing |
| CheckoutSaga.SagaSteps.ExecuteReserveInventory | src/modules/orders/sagas/steps/reserve-inventory.step.ts:13-30 | succeeds exactly when every book's total demand is covered; hands the items over |
| CheckoutSaga.SagaSteps.CompensateReserveInventory | src/modules/orders/sagas/steps/reserve-inventory.step.ts:32-51 | adds back exactly the handed-over demand per book; a failed release is swallowed and changes nothing |
| CheckoutSaga.SagaSteps.ExecuteCreateOrderRecord | src/modules/orders/sagas/steps/create-order-record.step.ts:17-67 | stores the record with both discounts added up and the total clamped at zero |
| CheckoutSaga.SagaSteps.CompensateCreateOrderRecord | src/modules/orders/sagas/steps/create-order-record.step.ts:70-87 | takes exactly the created record out of the live orders; a failed update is swallowed and changes nothing |
| Inventory.ReserveExact | src/modules/inventory/inventory.repository.ts:186-207 | a reservation succeeds if and only if each book's total demand, repeats included, is covered, and takes exactly that demand |
| Inventory.ReserveOrderIrrelevant | src/modules/inventory/inventory.repository.ts:186-207 | the order of the items changes neither outcome nor final stock |
| Inventory.ReleaseExact | src/modules/inventory/inventory.repository.ts:209-225 | release adds back exactly the listed demand |
| Inventory.ReleaseUndoesReserve | src/modules/inventory/inventory.repository.ts:209-225 | releasing a reservation's items, in any order, restores every quantity |
| Inventory.LineChecksSuffice | src/modules/orders/orders.service.ts:570-584 | distinct books that pass the line checks can be reserved |
| Inventory.RepeatedLinesDefeatLineChecks | src/modules/orders/orders.service.ts:570-584 | with a repeated book the line checks can pass and the reservation fail |
| Inventory.ChainTelescopes | src/modules/inventory/inventory.repository.ts:110-184 | along an unbroken log the quantity is the sum of the changes |
| Inventory.ReserveKeepsLedger | src/modules/inventory/inventory.repository.ts:110-146 | reservation keeps every log an unbroken, correctly signed chain |
| Inventory.ReleaseKeepsLedger | src/modules/inventory/inventory.repository.ts:148-184 | so does release |
| Inventory.ManualKeepsLedger | src/modules/inventory/inventory.service.ts:150-182 | so does every manual movement that passes the sign checks |
| Inventory.UnloggedMoveBreaksChain | src/modules/inventory/inventory.repository.ts:81-94 | a movement without a log entry always breaks the chain |
| Inventory.InventoryRepository.DecrementStockByTx | src/modules/inventory/inventory.repository.ts:81-94 | guarded decrement, never below zero, leaving the log broken |
| Inventory.InventoryRepository.DecrementStockAndLogByTx | src/modules/inventory/inventory.repository.ts:110-146 | guarded decrement with its OUT entry, or count 0 and no change |
| Inventory.InventoryRepository.IncreaseStockAndLogByTx | src/modules/inventory/inventory.repository.ts:148-184 | increase with its IN entry, or count 0 for a book without a row |
| Inventory.InventoryRepository.ReserveStock | src/modules/inventory/inventory.repository.ts:186-207 | all or nothing: succeeds exactly when affordable, takes exactly the demand, keeps the ledger, and a failure changes nothing |
| Inventory.InventoryRepository.ReleaseStock | src/modules/inventory/inventory.repository.ts:209-225 | adds back exactly the demand, skipping books without a row, and keeps the ledger |
| Inventory.InventoryRepository.IncreaseStock | src/modules/inventory/inventory.repository.ts:386-413 | logged manual increase |
| Inventory.InventoryRepository.DecreaseStock | src/modules/inventory/inventory.repository.ts:416-447 | logged manual decrease by the absolute change, refused below zero |
| Inventory.InventoryRepository.AdjustStock | src/modules/inventory/inventory.repository.ts:451-482 | logged signed adjustment, refused below zero |
| Inventory.InventoryRepository.CreateInventoryLog | src/modules/inventory/inventory.service.ts:150-182 | accepted exactly for a stocked book with the right sign that does not go below zero; moves the quantity by the change, with its log entry, and keeps the ledger |
| Lifecycle.SettledExactly | src/modules/orders/orders.service.ts:227-402 | in every run of any events, stale reads and misuse included, the goods go back at most once and then leave the order closed, throughout, if and only if no event reopens it |
| Lifecycle.ReleasedAtMostOnce | src/modules/orders/orders.service.ts:250-272 | in every run that never reopens the order its goods go back at most once |
| Lifecycle.ReopenedIsReleasedTwice | src/modules/orders/orders.service.ts:293-307 | whatever reopened the order, at most two undisturbed events then put its goods back a second time |
| Lifecycle.UndisturbedReopensExactly | src/modules/shipments/shipments.service.ts:119-154 | undisturbed, exactly PROCESSING, the generic write and late words of the carrier reopen an order |
| Lifecycle.OnlyStaleReadsReopen | src/modules/orders/orders.service.ts:482-526 | cancelling, confirming and requesting a return reopen an order only on a row read too early |
| Lifecycle.ReturnedWasReleased | src/modules/orders/orders.service.ts:243-272 | in every run RETURNED implies that the goods went back |
| Lifecycle.CancelledUnreleasedWasShipped | src/modules/shipments/shipments.service.ts:126-153 | in every run whose reads are of earlier rows, an order cancelled without its goods going back has shippedAt set |
| Lifecycle.TerminalExactly | src/modules/orders/orders.service.ts:227-402 | a cancelled or returned order keeps its status for the rest of a run if and only if no guard that writes another one holds |
| Lifecycle.StaleCancelReleasesTwice | src/modules/orders/orders.service.ts:482-526 | two cancellations that both read the order as PENDING release its goods twice |
| Lifecycle.GenericWriteReleasesTwice | src/modules/orders/orders.service.ts:293-296 | reopening a cancelled order by the generic write and cancelling it again releases twice |
| Lifecycle.ProcessingACancelledOrderReleasesTwice | src/modules/orders/orders.service.ts:299-307 | so does processing a cancelled order that the carrier then cancels |
| Lifecycle.CarrierAfterReturnReleasesTwice | src/modules/shipments/shipments.service.ts:119-154 | so does a carrier's cancellation after a confirmed return |
| Lifecycle.LateWordReleasesTwice | src/modules/shipments/shipments.service.ts:119-159 | so does a late carrier word between two of its cancellations |
| Lifecycle.WebhookIdempotent | src/modules/shipments/shipments.service.ts:92-162 | delivering the same notification again, even later, changes nothing of the order and its shipment |
| Lifecycle.TimestampsWrittenOnce | src/modules/shipments/shipments.service.ts:104-111 | in every run of any events, shippedAt (deliveredAt) never changes once set if and only if no report overwrites it |
| Lifecycle.OverwritesExactlyWhenReadTooEarly | src/modules/shipments/shipments.service.ts:80-111 | a report on an earlier row overwrites the instant exactly if it was read before the first report was written, and is dated otherwise |
| Lifecycle.TimestampsRecordFirstReports | src/modules/shipments/shipments.service.ts:30-111 | unless overwritten, they are the instants of the first transit and first delivery report, however old the reads |
| Lifecycle.ConcurrentWebhooksMoveTimestamp | src/modules/shipments/shipments.service.ts:80-111 | two deliveries that both read first move deliveredAt |
| Lifecycle.OrderlyRunsAreDated | src/modules/orders/orders.service.ts:437-460 | a recorded return request is never earlier than the recorded delivery, nor in the future |
| Lifecycle.ReturnsAcceptedInWindow | docs/api.md:743-750 | unless a delivery is re-dated, every accepted return, on a row read however early, was requested from zero to seven days after the delivery still recorded at the end of the run |
| Lifecycle.NoReturnAfterRollback | src/modules/shipments/shipments.service.ts:225-266 | once the hourly job rolled an order's return back, no later request on it is accepted |
| ReturnJob.OrdersRunOnTheirOwn | src/modules/shipments/shipments.service.ts:242-256 | however the job's writes interleave with other events on many orders, each order goes through a run of its own events, so every run property applies to it |
| ReturnJob.JobWritesAreGuarded | src/modules/shipments/shipments.service.ts:243-256 | at any point of any interleaving, a write of the job changes an order exactly if it is the listed one, still RETURNING and overdue at that moment; a RETURNED order stays so |
| ReturnJob.JobChangesOnlyOverdue | src/modules/shipments/shipments.service.ts:242-256 | over any stretch in which nothing else writes an order, the job leaves it rolled back if it wrote it while overdue, and as it was otherwise |
| ReturnJob.ConfirmedReturnSurvivesTheJob | src/modules/shipments/shipments.service.ts:258-261 | a return confirmed between the job's read and its writes stays confirmed |
| ReturnJob.SecondPassChangesNothing | src/modules/shipments/shipments.service.ts:225-266 | after an undisturbed pass, a second one over any of its orders changes no row |
| Lifecycle.MoneyAlwaysAgrees | src/modules/orders/orders.service.ts:309-389 | in every run of all events, stale and misused ones included: total = subtotal - discount + shipping fee, the shipment's fee is the order's, and its COD amount is the amount before shipping or 0 |
| Lifecycle.Round | src/modules/orders/orders.service.ts:362-364 | the fee is rounded to the nearest whole amount, halves upwards |
| Lifecycle.HandOverChargesTheFee | src/modules/orders/orders.service.ts:362-365 | in every run, the event that gives an order its shipment raises the total by the carrier's fee, to within one half |
| Lifecycle.WordsMean | src/modules/shipments/shipments.service.ts:30-73 | word by word: handling makes the order PROCESSING, transit SHIPPED, delivery DELIVERED, cancelling CANCELLED, returning RETURNING, any other leaves it; goods go back exactly once more for a cancelling word on an order not cancelled that is PENDING or unshipped; timestamps as reported, amounts untouched |
| Lifecycle.ReturningWordThenConfirmation | src/modules/shipments/shipments.service.ts:68-70 | after a returning word nothing is released, and a confirmation then releases the goods once |
| Lifecycle.RollBackMeans | src/modules/shipments/shipments.service.ts:230-256 | exactly the returns requested more than seven days ago are overdue, and become DELIVERED with the request cleared |
| Orders.OrderTables.UpdateOrderStatus | src/modules/orders/orders.service.ts:227-402 | accepted exactly when the order exists and its branch's guard holds, and then writes, field by field, what that branch owes; stock rises by the ordered items exactly on an accepted return or cancellation; a refusal leaves the order alone |
| Orders.OrderTables.SetOrderStatus | src/modules/orders/orders.service.ts:243-307 | the same after the lookup: dispatch on the target status |
| Orders.OrderTables.ConfirmReturn | src/modules/orders/orders.service.ts:243-272 | accepted exactly from RETURNING with every book stocked; otherwise neither row nor stock changes |
| Orders.OrderTables.ProcessOrder | src/modules/orders/orders.service.ts:299-385 | accepted exactly with a shipment, or a complete address and a carrier reply with a free code; then one new shipment under that code, at the carrier's fee rounded, with the COD amount and no timestamps, and the total raised by the fee; otherwise nothing |
| Orders.OrderTables.CancelOrder | src/modules/orders/orders.service.ts:482-526 | accepted exactly for the owner's, or an admin's, PENDING order whose books are stocked; every refusal changes nothing |
| Orders.OrderTables.Restock | src/modules/orders/orders.service.ts:250-266 | one transaction: all items return to stock, or none if a book has no row |
| Orders.OrderTables.RequestReturnOrder | src/modules/orders/orders.service.ts:423-460 | accepted exactly for the owner's DELIVERED order up to seven days after delivery; then RETURNING, requested now |
| Orders.OrderTables.HandleGhnWebhook | src/modules/shipments/shipments.service.ts:75-162 | the order behind the carrier code takes what its word means; stock rises and sold counts fall by the ordered units exactly when a cancelling word sends the goods back |
| Orders.OrderTables.RedeliverGhnWebhook | src/modules/shipments/shipments.service.ts:75-162 | the same notification twice in a row leaves orders, timestamps, stock, log and sold counts as once |
| Orders.OrderTables.FollowShipment | src/modules/shipments/shipments.service.ts:92-159 | the transaction of that webhook, row by row |
| Orders.OrderTables.RestockUnshipped | src/modules/shipments/shipments.service.ts:126-147 | a carrier's cancellation restocks exactly an order that is not cancelled and is PENDING or unshipped |
| Orders.OrderTables.RestockAndUnsell | src/modules/shipments/shipments.service.ts:132-147 | every item returns to stock where it has a row, and every sold count falls by the book's total demand |
| Orders.OrderTables.FindExpired | src/modules/shipments/shipments.service.ts:230-240 | the query lists exactly the overdue returns |
| Orders.OrderTables.RollBackOne | src/modules/shipments/shipments.service.ts:243-256 | the guarded write: count 1 and rolled back if still overdue, else nothing |
| Orders.OrderTables.RollbackExpiredReturnOrders | src/modules/shipments/shipments.service.ts:225-266 | undisturbed, the job flips and notifies exactly the overdue set |
| Orders.OrderTables.RollbackExpiredReturnOrdersTwice | src/modules/shipments/shipments.service.ts:225-266 | a second run at the same instant lists nothing and leaves every row as the first did |
| Vouchers.DiscountBounded | src/modules/vouchers/vouchers.service.ts:268-316 | for a voucher passing the rules, the discount is between zero and the order, within its cap, and is what the voucher takes off: the floor of the share, the cap or the fixed amount |
| Vouchers.RefusalMeans | src/modules/vouchers/vouchers.service.ts:203-235 | accepted exactly if active, within dates, not used up and at or above the minimum; each refusal names the first of these that fails |
| Vouchers.RefusalForOrderMeans | src/modules/vouchers/vouchers.service.ts:136-197 | the same for the transactional application, in its own order, with history and rule |
| Vouchers.PayableMonotone | src/modules/vouchers/vouchers.service.ts:299-316 | the payable amount never falls as the order grows, for every voucher |
| Vouchers.VouchersService.CreateVoucher | src/modules/vouchers/vouchers.service.ts:23-46 | accepted exactly with good dates, a good rule and a free code; all stored vouchers stay well kept |
| Vouchers.VouchersService.UpdateVoucher | src/modules/vouchers/vouchers.service.ts:62-122 | checks the row it saw, writes the row as it is by then; the vouchers stay well kept exactly if the new limit and dates fit that row |
| Vouchers.VouchersService.ApplyVoucher | src/modules/vouchers/vouchers.service.ts:203-249 | run alone: applied exactly when active, within dates, below its limit and at or above its minimum; takes off its share, counts one use and changes nothing else |
| Vouchers.VouchersService.ApplyVoucherForOrder | src/modules/vouchers/vouchers.service.ts:136-197 | the same with history and rule checks in their order; the discount lies within the order |
| Vouchers.VouchersService.IncrementUsedCountIfAvailable | src/modules/vouchers/vouchers.repository.ts:175-196 | counts a use exactly when the row still matches what was read |
| Vouchers.VouchersService.ReleaseVoucher | src/modules/vouchers/vouchers.service.ts:251-253 | takes one use back, keeping every count within its limit |
| VoucherRaces.LimitKeptExactly | src/modules/vouchers/vouchers.service.ts:79-83 | in every run of any mix of clients, releases and limit changes, the count stays within the limit throughout if and only if no step oversteps it |
| VoucherRaces.CompareAndSetKeepsLimit | src/modules/vouchers/vouchers.repository.ts:175-196 | under any interleaving of compare-and-set clients, releases and limit changes that read the current count, the count stays within the limit |
| VoucherRaces.OvershootBounded | src/modules/vouchers/vouchers.service.ts:237-249 | with at most c plain clients in flight and limit changes at most d uses behind, any mix exceeds the limit by at most c + d |
| VoucherRaces.PlainOvershootBounded | src/modules/vouchers/vouchers.service.ts:237-249 | plain clients alone exceed it by at most c - 1 |
| VoucherRaces.WorstPlainRun | src/modules/vouchers/vouchers.service.ts:237-249 | and some run reaches that bound |
| VoucherRaces.PlainSafeExactly | src/modules/vouchers/vouchers.service.ts:237-249 | the plain application keeps the limit in all runs if and only if at most one client is between check and increment |
| VoucherRaces.MixedClientsOvershoot | src/modules/vouchers/vouchers.service.ts:136-197 | one plain client beside a compare-and-set client exceeds the limit |
| VoucherRaces.StaleLimitOvershoots | src/modules/vouchers/vouchers.service.ts:79-121 | a limit change that read the count before another client's use leaves the count above the limit |
| VoucherRaces.MixedSafeExactly | src/modules/vouchers/vouchers.service.ts:79-121 | any mix keeps the limit in all runs if and only if no plain client is in flight and no limit change is behind the count |
| Pricing.BuildPromotionLookup | src/modules/orders/orders.service.ts:92-101 | the nested loops give each book the maximum rate over the promotions covering it, zero if none |
| Pricing.BestRateIsUnique | src/modules/orders/orders.service.ts:92-101 | that maximum is unique |
| Pricing.ValidateAndPrepareOrderItems | src/modules/orders/orders.service.ts:551-605 | prepared exactly when every line is available, else refused for the first that is not; subtotal = discount + line totals; flooring over n lines loses less than n units |
| Pricing.PrepareOrder | src/modules/orders/orders.service.ts:68-112 | prepared exactly when some cart line is named and every named one is in stock; priced at the best rates, and ordering of every book the copies the named cart lines ask for |
| Pricing.PricedLineCharges | src/modules/orders/orders.service.ts:585-603 | a line keeps its cart line's book, quantity and price; discount and total add up to price times quantity, the discount being the promotion's share rounded down |
| Pricing.LinesOrder | src/modules/orders/orders.service.ts:596-603 | the prepared lines order of every book exactly the copies on the cart |
| Pricing.SelectedCopies | src/modules/orders/orders.service.ts:78-80 | selection keeps each named line as often as the cart lists it |
| Pricing.Selected | src/modules/orders/orders.service.ts:78-80 | exactly the cart lines the request names |
| Pricing.PreparedCartReserves | src/modules/orders/orders.service.ts:570-584 | a prepared cart of distinct books never fails reservation if nothing runs in between |
| Pricing.MoneyEndToEnd | src/modules/orders/sagas/steps/create-order-record.step.ts:18-39 | from cart to every later state of the order: no clamp bites, total = line totals - voucher + shipping fee, and the carrier collects the same without the fee, or nothing |
| Pricing.MaxDiscountIsGreatest | src/modules/book/book.service.ts:93-98 | the catalogue's rate is the greatest of the list |
| Pricing.RatesForCovering | src/modules/book/book.service.ts:93-98 | its list holds exactly the rates of the promotions covering the book |
| Pricing.LookupAgreesWithCatalogue | src/modules/book/book.service.ts:93-98 | checkout and catalogue agree on the rate |
| Pricing.ChargedLineMatchesCatalogue | src/modules/book/book.service.ts:100-106 | a charged line exceeds quantity times catalogue price by at least 0 and less than 1 |
| Sessions.AtMostFiveDevices | src/modules/auth/auth.service.ts:91-136 | after any run and any passing of time at most five device sessions are unexpired, each a member of the unexpired set |
| Sessions.LoginEvictsOldest | src/modules/auth/auth.service.ts:115-136 | a login evicts exactly the least recently used device when a sixth joins, nothing otherwise; it evicts its own device exactly if the others tie with it at that instant and have greater names |
| Sessions.LaterLoginIsKept | src/modules/auth/auth.service.ts:104-136 | a login later than every other use keeps its own device |
| Sessions.AcceptedExactlyLatest | src/modules/auth/auth.service.ts:310-328 | a refresh token is accepted if and only if it is the latest given to that device and unexpired |
| Sessions.TokensLastSevenDays | src/modules/auth/auth.service.ts:310-386 | told from the events alone: a token is accepted on a device if and only if it was the last one given to it by a login or an accepted rotation, less than seven days ago, with no logout or eviction since |
| Sessions.SuccessorIsGoodForSevenDays | src/modules/auth/auth.service.ts:356-376 | after an accepted rotation the successor is accepted for exactly seven days, through any events that leave the device alone |
| Sessions.LoginIsGoodForSevenDays | src/modules/auth/auth.service.ts:91-104 | so is the token of a login that keeps its device |
| Sessions.ScoresAreLastUses | src/modules/auth/auth.service.ts:378-382 | over every run a member of the set is scored with the instant of its last login or accepted rotation, and has not logged out since |
| Sessions.SupersededTokensRetire | src/modules/auth/auth.service.ts:330-376 | rotation, new login, logout and eviction retire the device's token |
| Sessions.RetiredForever | src/modules/auth/auth.service.ts:330-376 | a retired token is never anyone's latest again |
| Sessions.RetiredTokensRefused | src/modules/auth/auth.service.ts:310-328 | and is refused on every device in every later state |
| Sessions.NewestCount | src/modules/auth/auth.service.ts:116-124 | exactly five newest devices are kept, or all of fewer, ties broken by name |
| Sessions.AlwaysConsistent | src/modules/auth/auth.service.ts:91-136 | after every run sessions, tokens and the set describe the same devices, and no session outlives the set |
| Sessions.AuthService.Login | src/modules/auth/auth.service.ts:91-136 | pipeline and eviction together leave the specified registry |
| Sessions.AuthService.LimitDevices | src/modules/auth/auth.service.ts:115-136 | keeps the five newest devices and drops session and token of every other |
| Sessions.AuthService.OldestDevices | src/modules/auth/auth.service.ts:120-124 | the range query lists exactly all but the newest five, oldest first |
| Sessions.AuthService.EvictAll | src/modules/auth/auth.service.ts:125-135 | the loop removes token, session and membership of exactly the listed devices |
| Sessions.AuthService.RefreshToken | src/modules/auth/auth.service.ts:310-386 | succeeds exactly for an accepted token, then rotates it and renews all three structures |
| Sessions.AuthService.Logout | src/modules/auth/auth.service.ts:452-466 | succeeds exactly for a live device session, and removes all its traces |
| Otp.AtMostFiveGuesses | src/modules/auth/auth.service.ts:606-629 | over the life of one OTP at most five guesses are compared and at most one succeeds, for any timing |
| Otp.SucceedsExactlyWithTheCode | src/modules/auth/auth.service.ts:606-629 | a run of guesses succeeds if and only if one of the first five, made within five minutes, is the code |
| Otp.SucceedsAtTheFirstRightGuess | src/modules/auth/auth.service.ts:619-627 | a guess succeeds exactly if it is the code, in time, among the first five, and none before it was the code |
| Otp.GuessesAreCounted | src/modules/auth/auth.service.ts:223-226 | the counter cannot expire while the OTP it guards is alive |
| Permissions.LookupsAreRight | src/modules/permissions/permissions.service.ts:55-106 | in all runs whose invalidations succeed, whatever Redis commands fail or keys expire, both lookups answer with the database's set |
| Permissions.CacheMirrorsDatabase | src/modules/roles/role.service.ts:47-65 | in such runs every cache entry is the role's database set |
| Permissions.RightThroughoutExactly | src/modules/permissions/permissions.service.ts:55-116 | in every run, with failed invalidations, late fills, expiries and Redis failures anywhere, answers about a role are right throughout if and only if no event corrupts its entry |
| Permissions.LookupsAreCachedForTwoHours | src/modules/permissions/permissions.service.ts:58-76 | after a healthy lookup, lookups answer from the entry for exactly two hours, whatever the database holds by then |
| Permissions.StalenessIsBounded | src/modules/permissions/permissions.service.ts:69-74 | a wrong entry expires within two hours of the last assignment or late fill, if expiries are set |
| Permissions.AnswersHeal | src/modules/permissions/permissions.service.ts:108-116 | whatever failed, answers are right two hours after the role's last assignment or late fill |
| Permissions.FailedInvalidationGrantsRevoked | src/modules/permissions/permissions.service.ts:108-116 | until then a revoked permission is still granted |
| Permissions.LateFillRestoresOld | src/modules/permissions/permissions.service.ts:58-76 | a fill that read before an assignment brings the old set back |
| Permissions.PermissionsService.GetPermissionsByRoleId | src/modules/permissions/permissions.service.ts:55-82 | returns the cached or the database set, and fills the cache on a miss; a coherent entry stays coherent |
| Permissions.PermissionsService.HasPermission | src/modules/permissions/permissions.service.ts:84-106 | with a coherent entry, true exactly when the permission is in the database set |
| Permissions.PermissionsService.AssignPermissions | src/modules/roles/role.service.ts:47-65 | writes, then invalidates; when that succeeds the role is coherent at every later instant |

## Left out

- Lifecycle.ReturnsAcceptedInWindow: a run in which a delivery is re-dated is outside it; `Lifecycle.OverwritesExactlyWhenReadTooEarly` says when that happens. The service reads the clock twice in one request; the model reads it once.
- Lifecycle.CancelledUnreleasedWasShipped: the cancellation of a record by its own saga is outside it.
- Orders.OrderTables.UpdateOrderStatus: the separate reads of order and shipment in one operation count as one read.
- Sessions.AcceptedExactlyLatest: real tokens signed within one second for one session coincide; the model takes every issued token as new. Each auth operation is atomic; interleavings of two of them are not covered.
- Sessions.AuthService.EvictAll: the source executes one pipeline again after each device; the model removes each device once.
- Permissions.LookupsAreRight: operations run one at a time; what a fill between two other operations leaves is in `Permissions.RightThroughoutExactly`, but the answer of a lookup whose own reads are interrupted is not.
- Lifecycle.WordsMean: the carrier's words are taken as trimmed and lower-cased already.
- Pricing.ChargedLineMatchesCatalogue: exact arithmetic; binary floating-point rounding of the catalogue price is not modelled.
- Pricing.MoneyEndToEnd: amounts are whole units, and prices and rates lie in their validated ranges.
- Vouchers.VouchersService.ApplyVoucher: one voucher is identified by its normalised code; its row id is not kept apart.
- CreateOrder.PlaceOrder: looking up the address and generating the order code are left out; the code is an input.
- CheckoutSaga.FailedStepChangesNothing: a step whose effect was committed before it threw is only in `Shop`, as a lost reply.
- Shop.UsesStayNearTheLimit: compare-and-set clients are not in the shop, because no saga uses them; dates and minimum orders are among the failing calls.
- The unique index on user and voucher of an order appears only as a failing creation of the record.
- The unlogged `increaseStockByTx` and `createLogByTx`, and deletion of inventory rows, vouchers and roles: they remove or bypass the rows the conservation claims are about.
- Listeners of the order events (sold count on creation, emptying the cart) and notifications; only the webhook's decrease of sold counts is modelled.
- Registration and reset rate limits, passwords, cookies, CSRF tokens, device fingerprints, hashing and signing.
- The carrier's HTTP interface, parcel weight, Cloudinary, Firebase, mail and queues: foreign I/O.
- Listing, filtering and pagination, the CRUD modules, controllers, guards, exception filters and logging: thin wrappers that keep no state of their own.
