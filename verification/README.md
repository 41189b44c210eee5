# A verified model of the auto-store back end

This project models the stateful core of the auto-store API in Dafny and proves what it keeps over
whole runs: notification delivery, the stock ledger with carts and orders, quotes with bookings and
payments, the vehicle-compatibility migrations, quote matching, slugs, idempotency keys and the
rounding of amounts.

Run `dafny verify dfyconfig.toml` in this directory.

## How it is built

Each stateful part has three layers.

1. A snapshot datatype (`World`, `Shop`, `Market`, `Content`) and, for every service call or worker
   statement, a function from snapshot to snapshot with the code's branches, errors and constants.
2. A class whose fields are the tables (`NotificationSystem`, `Store`, `Marketplace`,
   `VehicleStore`). Its methods update those fields in the code's own order, with the code's own
   loops, early returns and rollbacks, and are proved to change the snapshot exactly as the function says.
3. Lemmas about the functions. `Next` applies one step, `Run` any sequence of steps in any order, and
   the main results hold for every `Run` from the empty tables.

A service call is one atomic step, except in delivery, where every statement of the dequeue loop and of
the poller is its own step, and in the migration, which can stop after any statement. Answers of the mail
server, Redis and the payment provider, the clock and fresh random ids are parameters, so a result
holds whatever they are. Fields called `log`, `sent`, `cancels` and `resets` record history for the
statements and are read by no operation.

| file | models |
|---|---|
| `Delivery.dfy` | `Notify`, `ProcessDelivery`, the worker's loop, the poller, the Redis list |
| `Keys.dfy` | the idempotency-key formats |
| `Stock.dfy` | stock adjustments, the low-stock latch, scans |
| `Orders.dfy` | carts, order creation and cancellation over the ledger |
| `Bookings.dfy` | quotes, bookings, checkout, refunds, webhooks |
| `Money.dfy` | minor units, the platform fee, the split, partial refunds |
| `Matching.dfy` | `buildQuoteLines` |
| `Vehicles.dfy` | the catalog repository and both migrations |
| `Slugs.dfy` | `Slugify`, the slug grammar, `uniqueSlug` |
| `Text.dfy`, `Wrappers.dfy` | joining and splitting, `Option` and `Result` |

## What the code does that one might not expect

- The retry maximum does not bound retries. A refusal that gives a row up marks it `failed`, but
  `ProcessDelivery` skips only `sent` rows, and each poll that fails below the maximum adds a job. A row
  can be refused exactly twice the maximum times (`RefusalsBounded`, `RefusalBoundAttained`);
  `docs/notifications.md` presents the maximum as the number of delivery retries.
  `RetriesWithinMaximumIff` names the one kind of attempt that goes past it.
- A poll that fails before sending (unreadable row or recipient) counts no retry and still adds a job, so
  such polls appear as a separate term of the bound.
- An idempotency key names no recipient. A second recipient of the same event gets nothing on the
  channels the first one got: a call changes nothing exactly when the keys it needs are taken
  (`NotifyChangesNothingIff`). `docs/endpoints.md` says low-stock alerts notify all administrators: one is
  alerted on a channel exactly if none before has that channel on (`RecipientReachedIff`), so all are on all their
  channels exactly if no two have a channel on in common (`AllAdminsAlertedIff`).
- Setting an order back to pending allows it to be cancelled, and restocked, again (`SecondRestock`): exactly if it
  was given back before and all its products are still there (`RestockedAgainIff`).
- A change of threshold does not touch the latch (`ThresholdChangeKeepsLatchIff`), and the product update
  takes a negative threshold, which acts as the default one.
- `refunded` is not final: a late charge event makes a booking `paid` again (`RefundedReopenedIff`). If it was not
  cancelled its refund id stays, and its customer can then not cancel it while the provider is enabled, provided the
  event carried a reference (`ReopenedCancelFailsIff`).
- A refund event marks a row refunded whether it reports success or failure (`RefundEventMarksBookingIff`,
  `RefundEventMarksOrderIff`), so a booking whose refund failed stands as refunded (`FailedRefundMarksRefunded`);
  `docs/payments.md` speaks of `refund.processed` as the confirmation. `MarkedWithoutRefundIff` lists every way a
  booking is marked refunded without a refund.
- For labour below five minor units the platform fee rounds to nothing and a split checkout is refused
  (`SplitOutcome`).

## Model

| member | source | states |
|---|---|---|
| Delivery.NextKeeps | internal/services/notification_service.go:65-218 | every statement of the API, the dequeue loop, the poller, and every fault, keeps: keys distinct; retry count = refusals; accepted once iff sent; given up only at the cap; and the potential (retries + copies of the job + what is left) within its bound |
| Delivery.RunKeeps | cmd/worker/main.go:79-127 | so does every interleaving of them |
| Delivery.RefusalsBounded | internal/services/notification_service.go:205-218 | in any interleaving a row's refusals equal its retry count and are at most 2·max(MaxRetries,1) plus its polls that failed before sending |
| Delivery.RefusalBoundAttained | internal/services/notification_service.go:274-289 | the bound is exact: for every configured maximum and every number m of such missed polls some run has 2·max(MaxRetries,1) + m refusals |
| Delivery.RetriesWithinMaximumIff | internal/services/notification_service.go:169-218 | an attempt keeps the count within the configured maximum iff it is not a refused send of a row already given up (under a maximum below one: of any unsent row) |
| Delivery.AttemptSpends | internal/services/notification_service.go:169-218 | what each outcome of an attempt costs: sent, counted with or without an error, or not counted |
| Delivery.AttemptOutcome | internal/services/notification_service.go:169-218 | exactly when an attempt returns an error before sending, when it leaves its row sent, and what a refusal does to it; every other row stays |
| Delivery.NotifyRowOutcome | internal/services/notification_service.go:86-138 | an iteration adds a row iff the channel is on and the key is free; the row is the recipient's, sent if in-app and else one the poller finds, with a job iff the push was stored |
| Delivery.ChosenIff | internal/services/notification_service.go:75-78 | a call naming no channel goes to the in-app and e-mail channels the recipient has on |
| Delivery.FirstInFirstOut | pkg/queue/notification.go:19-46 | on runs that lose no job, what was on the list and what was pushed, in that order, is what was popped and what is left |
| Delivery.JobTurn | pkg/queue/notification.go:19-46 | a job with k before it is the one in hand after k + 1 dequeues |
| Delivery.NoOvertaking | pkg/queue/notification.go:19-46 | a push does not change which job is popped next |
| Delivery.WorkerTurnOutcome | cmd/worker/main.go:79-107 | a turn attempts the oldest job and puts it back as the newest exactly on an error |
| Delivery.PollTurnOutcome | internal/services/notification_service.go:279-289 | the poller attempts the next listed row and pushes its job exactly on an error |
| Delivery.PollDelivers | internal/services/notification_service.go:273-290 | whatever became of the job list, a poll whose sends are accepted leaves every row it lists sent and changes no other; what is undelivered afterwards is younger than 50 listed rows |
| Delivery.ListingFacts | internal/repositories/notification_repository.go:101-108 | the poll's list: pending or queued external rows, oldest first, at most the limit, and any such row left out is younger than all of a full list |
| Delivery.AcceptedAtMostOnce | internal/services/notification_service.go:169-203 | the mail server accepts each row at most once, exactly once iff it is a sent e-mail row |
| Delivery.RowsPersist | internal/services/notification_service.go:174-176 | rows are never lost, keep user, channel and key; sent is absorbing |
| Delivery.OneRowPerEvent | internal/models/notification.go:53 | in every run two rows are the same row iff they stand for the same event and channel |
| Delivery.NotifyReachesIff | internal/services/notification_service.go:86-138 | a channel's key is taken after a call iff it was or the channel is asked for and allowed; the recipient gets a row there iff so and the key was free |
| Delivery.NotifyChangesNothingIff | internal/services/notification_service.go:90-94 | a call changes nothing iff every channel asked for and allowed already has a row under its key, whoever it is for |
| Delivery.RecipientReachedIff | internal/services/notification_service.go:86-94 | of recipients notified in turn under one key, one gets a row on a channel iff none before has that channel on too |
| Delivery.AllAdminsAlertedIff | internal/services/inventory_service.go:131-143 | a low-stock alert reaches all administrators on all their channels iff no two have a channel on in common |
| Delivery.NotifyIsARun | internal/services/notification_service.go:86-138 | a call is a run of its per-channel steps, so results over runs cover calls interleaved with deliveries |
| Delivery.NotificationSystem.Notify | internal/services/notification_service.go:65-140 | the loop over channels computes the specified snapshot; it ends early exactly at the first channel whose lookup or creation fails; refused inputs change nothing |
| Delivery.NotificationSystem.ProcessDelivery | internal/services/notification_service.go:169-203 | updates row and log exactly as specified, with the specified error |
| Delivery.NotificationSystem.MarkFailed | internal/services/notification_service.go:205-218 | counts the retry; gives up at the maximum, returning no error then |
| Delivery.NotificationSystem.ListPendingExternal | internal/repositories/notification_repository.go:101-108 | the oldest listable rows up to the limit |
| Delivery.NotificationSystem.WorkerTurn | cmd/worker/main.go:79-107 | one turn of the loop is pop, process, requeue |
| Delivery.NotificationSystem.PollNext | internal/services/notification_service.go:280-287 | one row of a poll is an attempt and, on an error, its requeue |
| Delivery.NotificationSystem.PollAndProcessPending | internal/services/notification_service.go:273-290 | one poll is a list step and two poller steps for each listed row, and it returns the number of attempts that gave no error |
| Keys.RowKeyRoundTrip | internal/services/notifier.go:24-205 | the key text of any event and channel decodes to that event and channel |
| Keys.RowKeyInjective | internal/services/notification_service.go:90 | keys are equal iff events, arguments and channels are |
| Keys.ShortKeyTexts | internal/services/notifier.go:24-145 | the texts of the keys with one argument |
| Keys.LongKeyTexts | internal/services/notifier.go:66-205 | the texts of the longer keys |
| Keys.ChannelTexts | internal/models/notification.go:12-17 | the text each channel ends a row's key with |
| Keys.DecimalRoundTrip | internal/services/notifier.go:194 | a printed cycle number determines the number and holds no colon |
| Keys.DecimalCanonical | internal/services/notifier.go:194 | a printed number is its sign if negative and its digits, without leading zeros |
| Text.SplitJoin | internal/services/notification_service.go:90 | splitting a join of separator-free fields gives the fields back |
| Stock.AdjustKeepsBalanced | internal/services/inventory_service.go:68-102 | an adjustment keeps stock = sum of deltas, every balance a prefix sum, none negative |
| Stock.AdjustOutcome | internal/services/inventory_service.go:68-102 | an adjustment succeeds iff the product is there and its stock stays non-negative; one movement records it, and no other product or field changes |
| Stock.AdjustKeepsLatch | internal/services/inventory_service.go:104-129 | an adjustment of any product keeps each product's latch: once moved, flagged iff low, and its cycle counts the times its history went low |
| Stock.ScanSparesMoved | internal/services/inventory_service.go:145-160 | under the latch no product that has moved is selected by a scan, whatever its threshold |
| Stock.ScanSelectsIff | internal/repositories/inventory_repository.go:48-54 | under the latch a scan selects exactly the products that never moved, are not flagged and hold at most their stored threshold |
| Stock.ScanEffect | internal/services/inventory_service.go:145-160 | a scan touches the listed products alone, each committed one once |
| Stock.ScanStep | internal/repositories/inventory_repository.go:48-54 | a committed scan takes min(100, n) products out of the selection and raises exactly their cycles by one |
| Stock.ScansConverge | internal/services/inventory_service.go:145-160 | k scans leave max(0, n − 100k) selected and alert every other one exactly once |
| Stock.ThresholdChangeKeepsLatchIff | internal/services/inventory_service.go:212-225 | a threshold change leaves the latch right iff the product is low under both thresholds or neither |
| Orders.NextKeeps | internal/services/order_service.go:47-205 | every service call keeps the ledger, the order rows, their net movements, the cancel count and one cart line a product |
| Orders.StockConserved | internal/services/inventory_service.go:68-102 | in every reachable shop stock = manual movements − Σ orders qty·(1 − cancels) ≥ 0, and every balance is a non-negative prefix sum |
| Orders.TotalSplits | internal/models/inventory.go:22-33 | the ledger splits into manual movements and those referring to each order |
| Orders.CancelsBounded | internal/services/order_service.go:150-181 | an order is given back at most once more than it is moved back to pending |
| Orders.CancelledAtMostOnce | internal/services/order_service.go:194-205 | on runs with no admin update of an order to pending it is given back at most once |
| Orders.RestockedAgainIff | internal/services/order_service.go:194-205 | setting a status and cancelling gives an order back a further time iff it was given back before, the status is pending and all its products are still there |
| Orders.SecondRestock | internal/services/order_service.go:194-205 | cancel, set back, cancel restocks any pending order twice |
| Orders.CancelUndoesPlacing | internal/services/order_service.go:150-181 | cancelling an order just placed succeeds and restores every stock |
| Orders.LatchCountsExcursions | internal/services/inventory_service.go:104-160 | for a product whose own threshold stays as created, with level its threshold if positive and else 5: flagged iff at or below the level once moved, never scanned then; its cycle is the number of low stretches of its history, one more only if a scan listed it and its first balance is high or still to come |
| Orders.TakeSucceedsIff | internal/services/order_service.go:104-118 | the stock transaction succeeds iff every product is there and holds all items naming it |
| Orders.PlaceOrderOutcome | internal/services/order_service.go:47-126 | in every reachable shop an order is placed iff addresses are found and something in the cart can be taken, never failing for stock; refused: nothing changes; placed: subtotal = total = sum of its items, exactly its quantities taken, cart emptied unless that fails |
| Orders.PlacedItems | internal/services/order_service.go:61-98 | an order's items are the cart lines that can be taken, one for one and in order, each at its product's price; subtotal and total are the sum of price by quantity over those lines |
| Orders.AdjustItemsRecords | internal/services/order_service.go:104-118 | the transaction records one movement an item, in order, with its delta, reason and reference |
| Orders.CancelOrderOutcome | internal/services/order_service.go:150-181 | for any caller, which error a cancellation ends with, exactly when it succeeds, and what it then changes |
| Orders.StatusOutcome | internal/services/order_service.go:194-205 | a status update writes that order's status and nothing else |
| Orders.PaymentStatusOutcome | internal/services/payment_service.go:380-386 | a payment confirms a pending order only; a refund cancels the order |
| Orders.ProductStepOutcome | internal/services/inventory_service.go:212-240 | what each product call stores: thresholds, prices, defaults, deletion, and nothing else |
| Orders.AdjustItemsMoves | internal/services/order_service.go:104-118 | the transaction moves each product by its quantity under the order's own reference and changes nothing else but the latch |
| Orders.AddItemOutcome | internal/services/cart_service.go:29-60 | adding succeeds iff the product has that much stock; the cart gains the quantity up to the stock and keeps the rest |
| Orders.UpdateItemOutcome | internal/services/cart_service.go:62-72 | an update succeeds iff the line is there; it then holds the quantity asked for, capped at the stock of a product that is there, and the rest of the cart stays |
| Orders.RemoveItemOutcome | internal/services/cart_service.go:74-80 | removing a line empties the cart of its product and keeps the rest |
| Orders.CartStepOutcome | internal/services/cart_service.go:29-80 | a cart call changes its user's cart alone |
| Orders.Store.AdjustStock | internal/services/inventory_service.go:55-102 | the in-place adjustment is the specified one; an error changes nothing |
| Orders.Store.HandleThreshold | internal/services/inventory_service.go:104-129 | sets or clears the latch as specified |
| Orders.Store.AdjustAll | internal/services/order_service.go:104-118 | the item loop is the specified transaction; on an error nothing of it remains |
| Orders.Store.CollectItems | internal/services/order_service.go:61-80 | the loop over cart lines gives the items of exactly the lines that can be taken, in order and at their products' prices, and their sum |
| Orders.Store.Create | internal/services/order_service.go:47-126 | both loops of order creation compute the specified result |
| Orders.Store.Cancel | internal/services/order_service.go:150-181 | cancellation computes the specified result |
| Orders.Store.UpdateStatus | internal/services/order_service.go:194-205 | sets any status without touching stock |
| Orders.Store.ScanLowStock | internal/services/inventory_service.go:145-160 | the scan loop is the specified one and returns the number of committed alerts |
| Orders.Store.UpdateSettings | internal/services/inventory_service.go:212-225 | sets a non-negative threshold and nothing else |
| Orders.Store.AddItem | internal/services/cart_service.go:29-60 | updates the cart as specified |
| Orders.Store.UpdateItem | internal/services/cart_service.go:62-72 | caps a line at the stock |
| Money.MinorRoundTrip | internal/services/payment_service.go:432-446 | whole positive minor units survive conversion; others are refused |
| Money.BookingAmountsClosed | internal/services/installation_service.go:376-378 | stored fee = labour/10 rounded, stored total = parts + labour + fee |
| Money.SplitConserves | internal/services/payment_service.go:162-177 | for all amounts the charge can be computed iff labour ≥ 5 minor units; then charge = fee, remainder = parts + labour, never an invalid split |
| Money.ToMinorUnitsNearest | internal/services/payment_service.go:432-446 | an amount converts iff it is at least half a minor unit, and then to the nearest number of them, halves up |
| Money.SplitChargeIff | internal/services/payment_service.go:162-177 | a split is made iff the fee is positive and less than the total; a fee not less is the invalid split |
| Money.PartialRefundWithinCharge | internal/services/payment_refund.go:192-200 | a partial amount is sendable iff between half a minor unit and the total; what is sent is then the nearest number of minor units, between 1 and the charge; a full refund sends 0 |
| Bookings.TwoRows | internal/services/payment_service.go:389-426 | in every reachable market (booking, row) payment statuses are one of four pairs and no booking under way is unpaid |
| Bookings.BookingHistory | internal/services/installation_service.go:566-609 | over any run a booking's status never falls, completed and cancelled stay, its deal stays, it never becomes unpaid, its refund id is never cleared |
| Bookings.AllowedTransitionIff | internal/services/installation_service.go:593-609 | the transition table: stay, cancel, climb one rank, or start a confirmed job directly |
| Bookings.MoveOutcome | internal/services/installation_service.go:566-591 | a mechanic moves a booking iff it is the mechanic's and the transition is allowed; the status is written, and a manual confirmation pays the booking alone |
| Bookings.CheckoutOutcome | internal/services/payment_service.go:113-139 | exactly when a booking's checkout opens; the payment row then carries the reference |
| Bookings.OrderCheckoutOutcome | internal/services/payment_service.go:91-111 | the same for an order |
| Bookings.RefundAtMostOnce | internal/services/payment_refund.go:84-165 | over any run the provider accepts at most one refund of each order and booking, of at most its total |
| Bookings.NextRefundStep | internal/services/payment_refund.go:202-278 | each step sends at most one refund, of a row with none recorded, and records it; no step clears a recorded one |
| Bookings.BookingRefundAcceptedIff | internal/services/payment_refund.go:52-165 | for any caller, exactly when a requested booking refund goes out, that the provider is sent the amount asked, and what it changes |
| Bookings.CancelOutcome | internal/services/installation_service.go:451-484 | for any caller, exactly when a cancellation fails; otherwise cancelled, paid on neither row, refunded in full by the provider, and that recorded, iff it could be asked; nothing else changes |
| Bookings.RefundedReopenedIff | internal/services/payment_service.go:389-426 | a refunded booking is reopened by a charge event for it and by nothing else, if its total is positive |
| Bookings.ReopenedCancelFailsIff | internal/services/installation_service.go:451-484 | in every reachable market an open refunded booking has a refund id, so after a charge event its customer's cancellation fails iff the provider is enabled and the event carried a reference |
| Bookings.RefundEventMarksBookingIff | internal/services/payment_refund.go:236-278 | a refund event marks a booking iff it comes under its reference and is final, success or failure alike |
| Bookings.RefundEventMarksOrderIff | internal/services/payment_refund.go:236-278 | the same for an order, whose status it leaves alone |
| Bookings.FailedRefundMarksRefunded | internal/services/payment_refund.go:271-278 | a run with no refund accepted and one reported failed, after which the paid booking stands as refunded |
| Bookings.MarkedWithoutRefundIff | internal/services/payment_refund.go:236-268 | a booking is marked refunded in a step that sends no refund iff the step is a final event under its reference, or its customer's cancellation of it, paid, when the provider could not be asked |
| Bookings.OrderMarkedWithoutRefundIff | internal/services/payment_refund.go:236-259 | for an order, iff the step is a final event under its reference |
| Bookings.EventsIdempotent | internal/services/payment_refund.go:236-278 | delivering a charge or refund event twice is delivering it once |
| Bookings.ChargeThenRefund | internal/services/payment_service.go:389-426 | a charge event pays both rows under its reference iff the total is positive, confirming a booking that awaits payment; the refund that follows succeeds iff a reference came with it, none was recorded and the work is not completed |
| Bookings.OrderChargeThenRefund | internal/services/payment_service.go:360-387 | the same for an order, confirmed if it was pending, refundable until shipped |
| Bookings.ChargeAgain | internal/services/payment_service.go:360-400 | a charge event for a paid row changes nothing, one for no row is an error |
| Bookings.OrderRefundAcceptedIff | internal/services/payment_refund.go:38-121 | the same for an order, which is then cancelled |
| Bookings.QuoteAgreement | internal/services/installation_service.go:330-434 | in every reachable market a quote is booked iff exactly one booking refers to it; then that line alone is selected and the booking's labour is its price; otherwise all lines are offered |
| Bookings.BookSucceedsIff | internal/services/installation_service.go:330-361 | exactly when a line can be booked; the already-booked error is unreachable; a failure adds no booking |
| Bookings.BookedLine | internal/services/installation_service.go:352-425 | a booking made is of the line asked for, at its mechanic and price, with the fee and total that follow; that line is selected, the quote's others declined |
| Bookings.BookRefusal | internal/services/installation_service.go:330-345 | which error a booking is refused with |
| Bookings.RespondOutcome | internal/services/installation_service.go:490-523 | exactly when a mechanic's answer is taken, and what it changes of the line |
| Bookings.ExpireOutcome | internal/repositories/installation_repository.go:194-198 | expiry leaves no ready quote past its time and changes nothing else |
| Bookings.QuoteCreated | internal/services/installation_service.go:153-171 | a new quote is ready, for its user, all its lines offered |
| Bookings.SplitOutcome | internal/services/payment_service.go:143-178 | for every booking of a reachable market the invalid-split error never comes; exactly when a checkout is split, goes unsplit or is refused; a split keeps the fee and leaves labour and parts |
| Bookings.Marketplace.ExpireQuotesBefore | internal/repositories/installation_repository.go:194-198 | expires exactly the ready quotes past their time |
| Bookings.Marketplace.RespondToQuoteLine | internal/services/installation_service.go:490-523 | changes price, hours and message only on a ready, unexpired quote |
| Bookings.Marketplace.CreateBooking | internal/services/installation_service.go:330-434 | books as specified |
| Bookings.Marketplace.UpdateBookingStatus | internal/services/installation_service.go:566-591 | moves as specified; a manual confirm pays the booking only |
| Bookings.Marketplace.CancelBooking | internal/services/installation_service.go:451-484 | cancels as specified |
| Bookings.Marketplace.MarkBookingPaid | internal/services/payment_service.go:389-426 | pays both rows unless already paid |
| Bookings.Marketplace.RefundRow | internal/services/payment_refund.go:123-165 | refunds as specified |
| Bookings.Marketplace.MarkOrderPaid | internal/services/payment_service.go:360-387 | pays an order unless already paid |
| Bookings.Marketplace.RefundOrder | internal/services/payment_refund.go:84-121 | refunds an order as specified |
| Bookings.Marketplace.HandleRefundWebhook | internal/services/payment_refund.go:236-278 | looks the reference up and marks the row it names; does nothing otherwise |
| Bookings.Marketplace.ResolveReference | internal/services/payment_service.go:331-347 | finds a row with the reference, by its prefix, iff there is one |
| Matching.BuildQuoteLines | internal/services/installation_service.go:228-308 | lines are exactly the wanted ones, one for each mechanic and job |
| Matching.LinesOf | internal/services/installation_service.go:264-305 | one mechanic's lines, in whatever order the map of needed jobs is walked |
| Matching.LinesDetermined | internal/services/installation_service.go:273-305 | any two results are permutations of each other |
| Matching.WantedIff | internal/services/installation_service.go:228-308 | with one active service a pair and one active job an id, the wanted lines are those of near mechanics for needed jobs they offer, priced at their own service if that is positive, else at the job's base price |
| Matching.MatchLineIff | internal/services/installation_service.go:251-305 | the loop's lookups decide the declarative match |
| Matching.OffersIff | internal/repositories/installation_repository.go:54-60 | offering a job, or listing none, in terms of the query's rows |
| Matching.UniqueJobTypeIds | internal/services/installation_service.go:611-621 | the same ids, each once, in order of first appearance |
| Matching.FirstOccurrencesOrder | internal/services/installation_service.go:611-621 | before an id appears at all, every id listed before it has appeared |
| Vehicles.CrashesConverge | internal/database/migrate_vehicle_compat.go:155-211 | any sequence of attempts stopped after any statements, then one to the end, gives what one uninterrupted run gives |
| Vehicles.StartupConverges | internal/database/migrate_vehicle_compat.go:50-61 | the same for the whole start-up, rename and table creation included, from any table layout without a renamed table beside a product-owned one |
| Vehicles.MigrationKeepsKeys | internal/database/migrate_vehicle_compat.go:168-208 | two entries never share a normalised key at any stop; a finished migration has catalogued and linked every legacy row |
| Vehicles.MigrationOutcome | internal/database/migrate_vehicle_compat.go:168-210 | a finished migration has every legacy row's vehicle in the catalog with its years, trim, make, model and engine, and the product linked to it; what is new comes from the rows alone, with their notes |
| Vehicles.AttemptFinishes | internal/database/migrate_vehicle_compat.go:168-210 | an attempt drops the legacy table, and is then a finished one, iff it gets past two statements a row |
| Vehicles.StoppedInBackfill | internal/database/migrate_vehicle_compat.go:155-211 | a start-up stopped in the backfill leaves what the migration had done by then |
| Vehicles.StartupMigrates | internal/database/migrate_vehicle_compat.go:50-61 | start-up ends with both tables there and the product-owned rows, renamed before or just now, migrated |
| Vehicles.KeyIff | internal/repositories/vehicle_compat_repository.go:74-101 | two vehicles have one key iff generation, trim and years agree and the other texts agree but for case |
| Vehicles.RelinkedOutcome | internal/repositories/vehicle_compat_repository.go:112-133 | a link by hand stands with the notes given, or the old ones if none are given; every other link stays |
| Vehicles.DefaultedOutcome | internal/repositories/vehicle_compat_repository.go:74-80 | a vehicle without a market is put on the default one |
| Vehicles.RerunFinishes | internal/database/migrate_vehicle_compat.go:179-207 | rows done are done again to no effect, a row half done is finished |
| Vehicles.VehicleStore.MigrateRow | internal/database/migrate_vehicle_compat.go:168-207 | one legacy row: its entry, then its link, stopped after neither, one or both |
| Vehicles.VehicleStore.MigrateVehicleCompatibilityM2M | internal/database/migrate_vehicle_compat.go:155-211 | the loop over real ids, stopped after any number of statements, is the specified attempt |
| Vehicles.VehicleStore.FindOrCreate | internal/repositories/vehicle_compat_repository.go:74-101 | returns the one entry under the key, added only if there was none |
| Vehicles.VehicleStore.FirstOrCreateLink | internal/database/migrate_vehicle_compat.go:199-207 | adds a link unless one is there |
| Vehicles.VehicleStore.LinkProduct | internal/repositories/vehicle_compat_repository.go:112-133 | adds a link, or replaces its notes if new ones are given |
| Vehicles.MigrateVehicleCompatibilityIntToUuid | internal/database/migrate_vehicle_compat.go:81-152 | which product fits which vehicle, with what notes, is the same before and after; the number of links is the number that resolved |
| Vehicles.RekeyCatalog | internal/database/migrate_vehicle_compat.go:93-116 | each row keeps its attributes, market defaulted, under its new id, and the id map says which |
| Slugs.SlugifyJoinsWords | internal/validators/validators.go:47-54 | a slug is the maximal runs of slug characters of the lower-cased text, joined by dashes |
| Slugs.SlugifyWellFormed | internal/validators/validators.go:47-54 | empty or in the grammar, empty iff there is no slug character, no longer than the text, idempotent, the identity on slugs |
| Slugs.MatchesIffJoin | internal/validators/validators.go:28-35 | the grammar's texts are exactly the joins of one or more words |
| Slugs.MatchesSlugIff | internal/validators/validators.go:28-35 | the grammar character by character: letters, digits and dashes, no dash first, last or twice in a row |
| Slugs.ValidateSlugIff | internal/validators/validators.go:28-35 | validation accepts exactly the texts of that form of 1 to 100 characters |
| Slugs.WordsOfJoin | internal/validators/validators.go:47-54 | words joined by dashes are found again |
| Slugs.BaseMatches | internal/services/question_service.go:293-300 | the default, cut and trimmed base is a slug of 1 to 80 characters |
| Slugs.BaseOutcome | internal/services/question_service.go:293-300 | the base is the title's slug, or the default word; of a long one the longest beginning of at most 80 characters that does not end in a dash |
| Slugs.CandidateValid | internal/services/question_service.go:301-312 | every candidate passes slug validation |
| Slugs.TrimSuffixDash | internal/services/question_service.go:316-321 | drops all trailing dashes |
| Slugs.UniqueSlug | internal/services/question_service.go:292-314 | a returned slug is valid, free, and the first free candidate; none is found iff ten lookups succeed and all ten are taken |

## Left out

- Overlapping transactions: the code takes no row locks, so two calls that read and save one row at once are not modelled.
- A crash or database error between an external call and its database write: the code gives no guarantee there.
- Notification text, type and payload, read marks, preference updates and guest e-mail: carried along, with no effect on delivery.
- Sending of low-stock alerts: only the flag and the cycle number are modelled, not the goroutine that calls `Notify`.
- Floating point: amounts are exact reals or integers in minor units, and the distance is an arbitrary function of the coordinates.
- The amount reported by a charge event: the code only logs a mismatch. A checkout whose user is missing: one more refusal.
- Collisions of payment references: over runs a refund event may act on any row that carries its reference; the lookup takes the first.
- Vehicles.Lower: case folding is ASCII; where the database and the program fold other letters differently the catalog key is not modelled.
- Slugs.Slugify: texts are sequences of characters, and lengths count characters; case folding and white space are arbitrary outside slug characters.
- Integers are unbounded; the 64-bit ranges of counts and amounts are not modelled.
- Vehicles.StartupConverges: a product-owned table beside a renamed one is left out, because the columns and constraints start-up then adds to the product-owned table are the database's; and the integer-to-UUID conversion is one transaction, modelled on its own and not as a statement of start-up.
- Matching.BuildQuoteLines: the default search radius and the resolution of a quote's products are plumbing before the loop.
- Access checks by role, addresses, handlers, search, chat, reviews, categories, wishlists and Q&A beyond slugs: single-branch code.
