# Order, coupon and approval-ticket workflow

A Dafny model of the sparkling-backend core. That core places orders against
variant stock, prices them with an optional coupon, and moves orders through
return and refund. Admins approve coupons and finance approves refunds through
tickets. It also keeps one site-wide banner offer. Every management route sits
behind a role gate; the customer routes need only a logged-in user.

The model keeps the source's own shape:

- **Tables are classes.** `VariantTable` holds the stock and price of each
  variant as a map. `OrderTable`, `CouponTable`, `TicketTable` and `OfferTable`
  hold their rows as a sequence in insertion order, and the next serial id.
  `OrderTable`, `TicketTable` and `OfferTable` also hold an abstract clock that
  stands in for `NOW()`. Only the writes that stamp a time advance it: an order
  insert, a ticket insert or resolution, an offer insert. Coupons carry no
  timestamp, so `CouponTable` has no clock. `Valid()` states that ids and
  timestamps grow with insertion. Coupon codes are also unique.
- **Writes are methods.** Each method's postcondition gives the whole new
  state, on success and on every failure. That includes the partial writes
  left inside `createOrder`'s transaction before ROLLBACK.
- **Queries are recursive functions** over the rows
  (`findById`, `findOpen`, `findOrdersByCustomerId`, ...).
- **Handlers are methods over the tables** (`createOrder`, `requestReturn`,
  `processCouponTicket`, ...). They run the source's guards in the source's
  order and fail with the source's error. `Api.Error.Code` gives the HTTP status
  each error is answered with.
- **`createOrder` keeps its two loops.** The first checks each line and adds up
  the subtotal (`CheckLines`). The second inserts the items and lowers stock
  (`StoreLines`). Both are proved against the specification functions
  `FirstUnavailable`, `Priced`, `Subtotal`, `ResolveCoupon`, `Total` and
  `Decremented`.
- **Failed writes are parameters.** The database rejecting a write is a
  parameter: `failingWrite`, `insertFails`, `ticketInsertFails` or
  `ticketWriteFails`. With it the model states what BEGIN/ROLLBACK restores.
  It also states which intermediate states stay visible where the source has no
  transaction.
- **Scenarios.** `Workflow` runs whole journeys on fresh tables: coupon
  approval, a discounted order, return and refund, and a rollback.

The following behaviours are modelled as the code has them, not as one might
expect:

- `updateOrderStatus` moves an order from any status to any allowed status.
- Refund approval does not re-check that the order is still `Returned`.
- Ticket resolution writes the coupon or order first and the ticket second,
  with no transaction.
- The stock check runs per line against the stock read before any decrement.
  So a variant listed twice can drive the stock below zero
  (`Inventory.DuplicateLinesCanOversell`).

Where one might expect otherwise, the model follows the code:

- The code never checks `quantity >= 1`, so a negative quantity raises stock
  (`Inventory.NegativeQuantityRestocks`).
- Stock is not kept non-negative (see the oversell behaviour above).
- Coupon and ticket creation are two separate inserts, not one transaction.
- Ticket resolution is not atomic.
- Refund approval does not re-validate the order's status.
- Status changes made by a manager are not limited to the lifecycle.
- A wrong-type, already-resolved or missing ticket all get the same 404.
  Separate errors for the three cases would be clearer.
- The subtotal is computed but not stored on the order.
- The discount type is matched against the exact string `"percentage"`.
  Any other spelling counts as a fixed amount.

## Model

| member | source | states |
|---|---|---|
| Api.Error.Code | src/app.js:39-46 | every error is answered with a 4xx or 5xx status; only the storage errors are 5xx, and only a missing user is 401 |
| Roles.CheckRole | src/middlewares/role.middleware.js:7-26 | 401 exactly when no user is on the request; passes exactly when the user's role name is in the allowed list; 403 exactly when a user's role name is not in it |
| Roles.IsAdmin | src/middlewares/role.middleware.js:29 | passes exactly the users whose role name is "Admin" |
| Roles.IsProductManager | src/middlewares/role.middleware.js:30 | passes exactly the users whose role name is "Product Manager" |
| Roles.IsOrderManager | src/middlewares/role.middleware.js:31 | passes exactly the users whose role name is "Order Manager" |
| Roles.IsFinanceManager | src/middlewares/role.middleware.js:32 | passes exactly the users whose role name is "Finance Manager" |
| Roles.IsAdminOrProductManager | src/middlewares/role.middleware.js:35 | passes exactly the users whose role name is "Admin" or "Product Manager" |
| Roles.RoleMatchIsExact | src/middlewares/role.middleware.js:14-21 | the role match is exact: "admin" and "Admin " are refused by the admin gate with 403 |
| Roles.WiderGateAdmitsMore | src/middlewares/role.middleware.js:16 | admitting more role names never turns away a user that passed, and never changes the 401 case |
| Inventory.Decremented | src/controllers/order.controller.js:72 | the stock UPDATE of every line, in order, keeps the set of variants (an UPDATE of a missing id changes nothing) |
| Inventory.DecrementedStock | src/controllers/order.controller.js:70-73 | after the decrements each variant's stock is its old stock minus the total quantity ordered of it, and its price is unchanged |
| Inventory.DecrementedStep | src/controllers/order.controller.js:70-73 | decrementing one more line composes with the decrements of the lines before it |
| Inventory.UnorderedVariantUntouched | src/controllers/order.controller.js:72 | a variant no line names keeps its row exactly |
| Inventory.DuplicateLinesCanOversell | src/controllers/order.controller.js:45 | two lines of 2 for a variant with stock 3 both pass the per-line check, and the stock ends at -1 |
| Inventory.NegativeQuantityRestocks | src/controllers/order.controller.js:45 | a negative quantity passes the stock check and raises the stock |
| Inventory.VariantTable.Decrement | src/controllers/order.controller.js:72 | one stock UPDATE: the variant's stock drops by the quantity, everything else is unchanged |
| Pricing.FirstUnavailable | src/controllers/order.controller.js:32-47 | the first line whose variant is missing or short of stock, every earlier line being available; none exactly when every line is available |
| Pricing.Priced | src/controllers/order.controller.js:49 | each line keeps its variant and quantity and takes its variant's unit price at order time as its purchase price |
| Pricing.AvailableCases | src/controllers/order.controller.js:45 | a line whose variant is missing never passes; a quantity of zero or less passes whenever the stock is not negative, since nothing bounds it from below |
| Pricing.Subtotal | src/controllers/order.controller.js:48 | the sum of price times quantity over the lines; with non-negative prices and quantities it is not negative |
| Pricing.SubtotalAppend | src/controllers/order.controller.js:48 | the subtotal adds up over a split of the lines |
| Pricing.Discount | src/controllers/order.controller.js:59 | a "percentage" coupon of 0 to 100 takes at least nothing and at most the whole of a non-negative subtotal |
| Pricing.ResolveCoupon | src/controllers/order.controller.js:56-58 | no code gives no coupon; a supplied code fails with "Invalid coupon." exactly when no coupon has it or that coupon is not 'Active'; a coupon returned is active and has that code |
| Pricing.Total | src/controllers/order.controller.js:52-60 | with no coupon the total is the subtotal; with one it is subtotal minus discount clamped at zero, never negative, and at most the subtotal when subtotal and discount are non-negative |
| Pricing.FixedDiscountBeyondSubtotalIsFree | src/controllers/order.controller.js:59-60 | a fixed discount larger than the subtotal makes the order free |
| Pricing.PercentageTakesShare | src/controllers/order.controller.js:59-60 | a percentage of at most 100 takes exactly that share of a non-negative subtotal |
| Pricing.TenPercentOfHundred | src/controllers/order.controller.js:59-60 | ten per cent off 100 leaves 90 |
| Pricing.PercentageTypeIsCaseSensitive | src/controllers/order.controller.js:59 | the type "Percentage" is taken as a fixed amount |
| OrderController.Requested | src/controllers/order.controller.js:19 | the guard passes exactly when both address ids are present and non-zero and there is at least one product; an id of 0 counts as missing, as the truthiness test does |
| OrderController.AppliedCouponId | src/controllers/order.controller.js:53-61 | the order stores the applied coupon's id, and null exactly when no coupon was applied |
| OrderController.ItemRows | src/controllers/order.controller.js:71 | one item row per priced line, carrying the order id, variant, quantity and purchase price |
| OrderController.CheckLines | src/controllers/order.controller.js:28-50 | the first loop fails at the first unavailable line, carrying that line's variant id, or yields the priced lines and their subtotal |
| OrderController.StoreLines | src/controllers/order.controller.js:69-73 | the second loop succeeds exactly when no item insert or stock update is rejected, and then has appended the item rows and decremented the stock of every line; when a write is rejected, the item rows and decrements before it stay |
| OrderController.PlaceOrder | src/controllers/order.controller.js:28-73 | the body of the transaction: its failures in the source's order (stock, coupon, write), and on success the new 'Processing' order with the clamped total and applied coupon id, its items and the decremented stock; a check failure or a rejected order insert writes nothing, a later rejected write leaves the order row and the writes before it for ROLLBACK to undo |
| OrderController.CreateOrder | src/controllers/order.controller.js:14-83 | missing addresses (an id of 0 included) or no products fail with 400 before any table is touched; every failure leaves stock, orders, items, serial and clock as before; success is what PlaceOrder commits |
| OrderController.ParseAllowedStatus | src/controllers/order.controller.js:133-134 | a status is accepted exactly when its name is one of the five allowed names, and it reads back as that name; 'Refunded' is never accepted |
| OrderController.ParseStatusName | src/controllers/order.controller.js:133 | every status but 'Refunded' round-trips through its name; 'Refunded' is refused |
| OrderController.RequestReturn | src/controllers/order.controller.js:95-112 | 404 when the order is not found, 403 when the caller is not its customer, 400 unless it is 'Delivered'; otherwise only that order's status becomes 'Returned' |
| OrderController.UpdateOrderStatus | src/controllers/order.controller.js:130-142 | 400 for a status outside the allowed list (before the lookup), 404 for an unknown id; otherwise the order takes the new status whatever its old one, and nothing else changes |
| OrderController.RaiseRefundTicket | src/controllers/order.controller.js:144-169 | 404 for an absent order, 400 unless 'Returned'; otherwise exactly one open 'Refund Request' ticket snapshotting the order's id, customer and total, raised by the manager, with the ticket serial and clock advanced by one; orders are untouched |
| OrderModel.IndexOfId | src/models/order.model.js:101 | the position of the order with that id; none exactly when no order has it |
| OrderModel.IndexOfIdIsTheRow | src/models/order.model.js:101 | in a well-formed table each order's id leads back to its own position |
| OrderModel.ItemsOf | src/models/order.model.js:71-84 | exactly the item rows of that order, each as many times as the table holds it |
| OrderModel.FindById | src/models/order.model.js:58-94 | the order with that id joined with its items; none exactly when no order has that id or it has no items (inner join) |
| OrderModel.FindOrdersByCustomerId | src/models/order.model.js:7-37 | only that customer's orders, each with its items, and every such order that has items |
| OrderModel.HistoryNewestFirst | src/models/order.model.js:33 | the history is ordered newest first |
| OrderModel.FindAll | src/models/order.model.js:42-53 | every order, in reverse insertion order |
| OrderModel.FindAllNewestFirst | src/models/order.model.js:49 | the listing holds exactly the orders, newest first |
| OrderModel.PrependNewer | src/models/order.model.js:33 | placing an order newer than all others in front keeps a listing newest first |
| OrderModel.StatusChangeKeepsWellFormed | src/models/order.model.js:99-105 | changing one order's status keeps ids and timestamps ordered |
| OrderModel.OrderTable.Insert | src/controllers/order.controller.js:65-67 | appends one 'Processing' order stamped with the clock and returns its new id |
| OrderModel.OrderTable.InsertItem | src/controllers/order.controller.js:71 | appends one item row, nothing else changes |
| OrderModel.OrderTable.UpdateStatus | src/models/order.model.js:99-105 | changes only the status of the order with that id and returns it; none and no change when no order has it |
| CouponModel.IndexOfId | src/models/coupon.model.js:23 | the position of the coupon with that id; none exactly when no coupon has it |
| CouponModel.FindById | src/models/coupon.model.js:16-19 | the coupon with that id, or none exactly when no coupon has it |
| CouponModel.FindByCode | src/models/coupon.model.js:36-39 | a coupon whose code equals the given one exactly, or none exactly when no coupon has it |
| CouponModel.FindByIdIsTheRow | src/models/coupon.model.js:16-19 | in a well-formed table each coupon is found by its id |
| CouponModel.FindByCodeIsTheRow | src/models/coupon.model.js:36-39 | with unique codes each coupon is found by its code |
| CouponModel.StatusChangeKeepsWellFormed | src/models/coupon.model.js:22-28 | changing a status keeps ids ordered and codes unique |
| CouponModel.CouponTable.Create | src/models/coupon.model.js:4-13 | inserts one 'Pending Approval' coupon with the given code, type, value, expiry, limit and creator; a code already present is refused and nothing changes |
| CouponModel.CouponTable.UpdateStatus | src/models/coupon.model.js:22-28 | changes only the status of the coupon with that id, whatever it was; none and no change when absent |
| CouponController.CreateCoupon | src/controllers/coupon.controller.js:6-26 | inserts the pending coupon for the requesting user, then one open 'Coupon Approval' ticket naming its id and code raised by the same user; a failed ticket insert leaves the coupon in place |
| TicketModel.IndexOfId | src/models/ticket.model.js:76 | the position of the ticket with that id; none exactly when no ticket has it |
| TicketModel.FindById | src/models/ticket.model.js:59-63 | the ticket with that id, or none exactly when no ticket has it |
| TicketModel.FindByIdIsTheRow | src/models/ticket.model.js:59-63 | in a well-formed table each ticket is found by its id |
| TicketModel.FindOpen | src/models/ticket.model.js:25-35 | exactly the open tickets |
| TicketModel.FindOpenByType | src/models/ticket.model.js:42-52 | exactly the open tickets of the given type |
| TicketModel.OpenListsOldestFirst | src/models/ticket.model.js:25-52 | both open listings are ordered oldest first |
| TicketModel.OpenByTypeNarrowsOpen | src/models/ticket.model.js:47 | the typed listing is the open listing filtered by type, order kept |
| TicketModel.OfTypeAppend | src/models/ticket.model.js:47 | filtering by type distributes over concatenation |
| TicketModel.ResolutionKeepsWellFormed | src/models/ticket.model.js:72-80 | resolving one ticket keeps ids and timestamps ordered |
| TicketModel.TicketTable.Create | src/models/ticket.model.js:9-18 | inserts exactly one open, unassigned, unresolved ticket with the given type, details and creator, and returns it |
| TicketModel.TicketTable.UpdateStatus | src/models/ticket.model.js:72-80 | sets status, resolver and resolution time of that ticket only, without checking it is open; none and no change when absent |
| TicketController.ActionStatus | src/controllers/ticket.controller.js:30-32 | only "Approved" and "Denied" name a resolution, and neither is 'Open' |
| TicketController.CouponStatusFor | src/controllers/ticket.controller.js:40 | an approval makes the coupon 'Active', a denial 'Denied'; neither leaves it pending |
| TicketController.OpenTicketOfType | src/controllers/ticket.controller.js:34-37 | the ticket is offered exactly when it exists, is 'Open' and has the endpoint's type |
| TicketController.ResolvedTicketIsClosed | src/controllers/ticket.controller.js:34-37 | once a ticket's status is set to anything but 'Open' it is no longer offered under any type: a ticket is resolved at most once |
| TicketController.GetOpenTickets | src/controllers/ticket.controller.js:13-18 | exactly the open tickets |
| TicketController.GetRefundTickets | src/controllers/ticket.controller.js:58-63 | the open listing narrowed to 'Refund Request' tickets, order kept |
| TicketController.ProcessCouponTicket | src/controllers/ticket.controller.js:25-51 | 400 for another action, 404 unless an open coupon ticket, 404 when its coupon is gone (ticket still open); otherwise the coupon becomes 'Active' or 'Denied', then the ticket takes the action and resolver; a failed ticket write leaves the coupon changed and the ticket open |
| TicketController.ProcessRefundTicket | src/controllers/ticket.controller.js:70-98 | 400 for another action, 404 unless an open refund ticket; approval sets the named order to 'Refunded' whatever its status (404 when gone), denial leaves orders alone; then the ticket takes the action and resolver; a failed ticket write leaves the order refunded and the ticket open |
| OfferModel.FindActive | src/models/offer.model.js:8-18 | an active offer, or none exactly when no offer is active |
| OfferModel.FindActiveIsLatest | src/models/offer.model.js:12-14 | the offer found has the latest update time of all active offers |
| OfferModel.Deactivated | src/models/offer.model.js:30 | every row kept, each inactive |
| OfferModel.NewOfferIsOnlyActive | src/models/offer.model.js:30-37 | after set the inserted offer is the only active row and the one found |
| OfferModel.OfferTable.Set | src/models/offer.model.js:26-44 | on success every old row is kept inactive and one active offer is appended; when the insert fails ROLLBACK leaves the table as before |
| Workflow.PendingCouponIsRefused | src/controllers/order.controller.js:58 | a coupon still pending approval is refused at checkout |
| Workflow.CouponApprovalIsOneShot | src/controllers/ticket.controller.js:34-46 | after approval the coupon is usable and a second resolution of its ticket fails with 404 |
| Workflow.DeniedCouponStaysUnusable | src/controllers/ticket.controller.js:39-41 | a denied coupon is refused at checkout |
| Workflow.DiscountedOrder | src/controllers/order.controller.js:14-83 | two units at 50 with an approved ten per cent coupon store a total of 90 and lower the stock from 10 to 8 |
| Workflow.DeliveredThenReturned | src/controllers/order.controller.js:95-112 | another customer cannot return the order; its own customer can once it is delivered |
| Workflow.RefundRaised | src/controllers/order.controller.js:144-169 | the refund ticket snapshots order id, customer and total 100 |
| Workflow.RefundJourney | src/controllers/ticket.controller.js:84-93 | finance approval marks the returned order 'Refunded' |
| Workflow.RefundDenied | src/controllers/ticket.controller.js:84-93 | a denied refund leaves the order 'Returned' |
| Workflow.NoSecondRefund | src/controllers/order.controller.js:151-153 | a refunded order cannot be ticketed for a refund again |
| Workflow.SkippedToReturned | src/controllers/order.controller.js:133-137 | a manager sets a 'Processing' order straight to 'Returned' and can then raise a refund ticket for it |
| Workflow.SkippedOrderIsRefunded | src/controllers/ticket.controller.js:84-93 | the order that skipped delivery is refunded through its ticket |
| Workflow.FailedWriteRollsBack | src/controllers/order.controller.js:79-81 | a rejected stock update on the second line rolls back the order and all stock |

## Left out

- HTTP plumbing is not modelled: routes, `asyncHandler`, response shaping and
  messages (including the `message` and `customerEmail` fields of ticket
  details). Errors are values; `Api.Error.Code` gives their HTTP status.
- Authentication (JWT verification, password hashing) is a foreign call. The
  role gate takes the request's user as a parameter.
- The joins with users, addresses, products, colours and sizes are assumed to
  find their rows. Only the inner join on order_items, which decides whether an
  order is found, is modelled. The JSON shape of the joined rows and the order
  of items inside JSON_AGG are not modelled.
- The database's `NOW()` is one abstract clock per table that stamps rows,
  advanced by each write that stamps a time. The model does not say how the
  clocks of different tables relate.
- The database rejecting a write is a parameter only where the model names
  one: `failingWrite` (createOrder), `insertFails` (`Offer.set`),
  `ticketInsertFails` (createCoupon) and `ticketWriteFails` (the ticket write
  of both ticket resolutions). The model does not say why a write fails. A
  failed insert into coupons other than a duplicate code is not modelled.
- A rejected write is not modelled for the order update of `requestReturn`
  and `updateOrderStatus`, the ticket insert of `raiseRefundTicket`, or the
  coupon or order update inside `processCouponTicket` and
  `processRefundTicket`. There the source answers 500 and, the write being
  the handler's first, changes nothing.
- OrderController.CreateOrder: a rollback also restores the order serial. The
  database would leave a gap in the sequence.
- CouponModel.CouponTable.Create: a duplicate code keeps the coupon serial.
  PostgreSQL's serial would use up a value before the unique check fails.
- OrderController.CheckLines: the failure carries the line's variant id. The
  source's message names the product instead, and reads `undefined` for a
  missing variant; messages are not modelled.
- Concurrency is not modelled: there is no row locking, so two concurrent
  orders for one variant can oversell. Each handler runs alone.
- `db.query` is `pool.query` (src/config/db.config.js:34), so BEGIN, the
  writes and ROLLBACK may run on different pooled clients. They act as one
  transaction only when one request runs at a time and the pool hands back
  the same client, which is what the model assumes.
- Logging is dropped: the request-body log of `createCoupon`
  (src/controllers/coupon.controller.js:9) and the refund log of
  `processRefundTicket` (src/controllers/ticket.controller.js:90).
- Money is exact `real` arithmetic, not JavaScript floating point.
- Quantities are integers. A missing or non-numeric quantity is not modelled.
  The source lets such a line pass the stock check, since the comparison is
  false, and the subtotal becomes NaN.
- New rows take their status and creation time from column defaults that no
  source file shows. The model assumes an order starts 'Processing', a ticket
  'Open' and a coupon 'Pending Approval', and that `created_at` is `NOW()`.
- Coupon expiry and usage limit are stored but not checked, as in the source.
- The `updated_at` of site offers is the insert time. No database trigger
  refreshes it when `set` deactivates a row.
- The offer handler around `Offer.set`, the user, address, product and
  analytics code, and the database driver are not part of this model.
- TicketController.ProcessCouponTicket and
  TicketController.ProcessRefundTicket: the ticket update after a successful
  subject update is assumed to find its row, as no other request runs between
  the two writes.
