/** The order handlers (src/controllers/order.controller.js): placing an order in
    one transaction, the customer's return request, the manager's status update
    and the manager's refund ticket. */
module OrderController {
  import opened Api
  import opened Inventory
  import opened CouponModel
  import opened Pricing
  import opened OrderModel
  import opened TicketModel

  /** Both addresses and at least one product were supplied. The handler tests
      the address ids for truthiness, so an id of 0 counts as missing. */
  function Requested(shippingAddressId: Option<nat>, billingAddressId: Option<nat>, products: seq<LineRequest>): (ok: bool)
    ensures shippingAddressId == Some(0) || billingAddressId == Some(0) ==> !ok
    ensures ok ==> shippingAddressId.Some? && billingAddressId.Some? && |products| >= 1
    ensures (&& shippingAddressId.Some? && shippingAddressId.value > 0
             && billingAddressId.Some? && billingAddressId.value > 0
             && |products| >= 1) ==> ok
  {
    && shippingAddressId.Some? && shippingAddressId.value != 0
    && billingAddressId.Some? && billingAddressId.value != 0
    && products != []
  }

  /** The database rejects one of the transaction's writes. The writes are
      numbered in order: 0 is the order row, then 2k+1 the item row and 2k+2 the
      stock update of line k. */
  predicate WriteFails(failingWrite: Option<nat>, lineCount: nat)
  {
    failingWrite.Some? && failingWrite.value <= 2 * lineCount
  }

  /** The order_items rows createOrder inserts for the priced lines. */
  function ItemRows(orderId: nat, lines: seq<PricedLine>): (r: seq<OrderItem>)
    ensures |r| == |lines|
    ensures forall j :: 0 <= j < |lines| ==>
              r[j] == OrderItem(orderId, lines[j].variantId, lines[j].quantity, lines[j].priceAtPurchase)
  {
    seq(|lines|, j requires 0 <= j < |lines| =>
      OrderItem(orderId, lines[j].variantId, lines[j].quantity, lines[j].priceAtPurchase))
  }

  /** The coupon id stored on the order: the applied coupon's, null without one. */
  function AppliedCouponId(coupon: Option<Coupon>): (id: Option<nat>)
    ensures id.None? <==> coupon.None?
    ensures id.Some? ==> id.value == coupon.value.id
  {
    if coupon.Some? then Some(coupon.value.id) else None
  }

  /** The first loop of createOrder: check every line against the stock it reads,
      add up the subtotal and copy each line's price. It stops at the first line
      that fails. */
  method CheckLines(inventory: VariantTable, products: seq<LineRequest>) returns (r: Result<(real, seq<PricedLine>)>)
    ensures FirstUnavailable(inventory.variants, products).Some? ==>
              r == Failure(Unavailable(products[FirstUnavailable(inventory.variants, products).value].variantId))
    ensures FirstUnavailable(inventory.variants, products).None? ==>
              r == Success((Subtotal(Priced(inventory.variants, products)), Priced(inventory.variants, products)))
  {
    var subtotal := 0.0;
    var lines: seq<PricedLine> := [];
    var i := 0;
    while i < |products|
      invariant 0 <= i <= |products|
      invariant forall j :: 0 <= j < i ==> Available(inventory.variants, products[j])
      invariant lines == Priced(inventory.variants, products[..i])
      invariant subtotal == Subtotal(lines)
    {
      var item := products[i];
      if !Available(inventory.variants, item) {
        return Failure(Unavailable(item.variantId));
      }
      var price := inventory.variants[item.variantId].unitPrice;
      var line := PricedLine(item.variantId, item.quantity, price);
      subtotal := subtotal + price * (item.quantity as real);
      PricedStep(inventory.variants, products, i);
      assert (lines + [line])[..|lines|] == lines;
      lines := lines + [line];
      i := i + 1;
    }
    assert products[..i] == products;
    r := Success((subtotal, lines));
  }

  /** The body of createOrder's try block, run after BEGIN: check the lines,
      resolve the coupon, insert the order, then insert each item and lower its
      stock. On failure it leaves whatever it had written; CreateOrder undoes it. */
  method PlaceOrder(inventory: VariantTable, orders: OrderTable, coupons: CouponTable, customerId: UserId,
                    shippingAddressId: nat, billingAddressId: nat, products: seq<LineRequest>,
                    couponCode: string, failingWrite: Option<nat>)
    returns (r: Result<nat>)
    requires orders.Valid()
    modifies inventory, orders
    ensures orders.Valid()
    ensures r.Failure? && (r.error != StorageFailure || failingWrite == Some(0)) ==>
              && inventory.variants == old(inventory.variants)
              && orders.rows == old(orders.rows) && orders.items == old(orders.items)
              && orders.nextId == old(orders.nextId) && orders.now == old(orders.now)
    ensures FirstUnavailable(old(inventory.variants), products).None? && ResolveCoupon(coupons.rows, couponCode).Success?
            && WriteFails(failingWrite, |products|) && failingWrite != Some(0) ==>
              var lines := Priced(old(inventory.variants), products);
              var coupon := ResolveCoupon(coupons.rows, couponCode).value;
              var w := failingWrite.value;
              && orders.rows == old(orders.rows) + [Order(old(orders.nextId), customerId, shippingAddressId, billingAddressId,
                                                          Total(Subtotal(lines), coupon), AppliedCouponId(coupon),
                                                          Processing, old(orders.now))]
              && orders.items == old(orders.items) + ItemRows(old(orders.nextId), lines[..w / 2])
              && inventory.variants == Decremented(old(inventory.variants), products[..(w - 1) / 2])
              && orders.nextId == old(orders.nextId) + 1 && orders.now == old(orders.now) + 1
    ensures FirstUnavailable(old(inventory.variants), products).Some? ==>
              r == Failure(Unavailable(products[FirstUnavailable(old(inventory.variants), products).value].variantId))
    ensures FirstUnavailable(old(inventory.variants), products).None? && ResolveCoupon(coupons.rows, couponCode).Failure? ==>
              r == Failure(InvalidCoupon)
    ensures FirstUnavailable(old(inventory.variants), products).None? && ResolveCoupon(coupons.rows, couponCode).Success?
            && WriteFails(failingWrite, |products|) ==>
              r == Failure(StorageFailure)
    ensures FirstUnavailable(old(inventory.variants), products).None? && ResolveCoupon(coupons.rows, couponCode).Success?
            && !WriteFails(failingWrite, |products|) ==>
              var lines := Priced(old(inventory.variants), products);
              var coupon := ResolveCoupon(coupons.rows, couponCode).value;
              && r == Success(old(orders.nextId))
              && orders.rows == old(orders.rows) + [Order(r.value, customerId, shippingAddressId, billingAddressId,
                                                          Total(Subtotal(lines), coupon), AppliedCouponId(coupon),
                                                          Processing, old(orders.now))]
              && orders.items == old(orders.items) + ItemRows(r.value, lines)
              && inventory.variants == Decremented(old(inventory.variants), products)
              && orders.nextId == old(orders.nextId) + 1 && orders.now == old(orders.now) + 1
  {
    // 1. Validate the variants and compute the subtotal.
    var checked := CheckLines(inventory, products);
    if checked.Failure? {
      return Failure(checked.error);
    }
    var (subtotal, lines) := checked.value;

    // 2. Validate the coupon and compute the total.
    var coupon := ResolveCoupon(coupons.rows, couponCode);
    if coupon.Failure? {
      return Failure(InvalidCoupon);
    }
    var totalAmount := Total(subtotal, coupon.value);

    // 3. Create the order.
    if failingWrite == Some(0) {
      return Failure(StorageFailure);
    }
    var orderId := orders.Insert(customerId, shippingAddressId, billingAddressId, totalAmount, AppliedCouponId(coupon.value));

    // 4. Create the order items and update the stock.
    var stored := StoreLines(inventory, orders, orderId, products, lines, failingWrite);
    if !stored {
      return Failure(StorageFailure);
    }
    r := Success(orderId);
  }

  /** The second loop of createOrder: for each priced line, insert its item row,
      then lower its variant's stock. It stops at the first write the database
      rejects. */
  method StoreLines(inventory: VariantTable, orders: OrderTable, orderId: nat, products: seq<LineRequest>,
                    lines: seq<PricedLine>, failingWrite: Option<nat>)
    returns (stored: bool)
    requires |lines| == |products|
    requires forall j :: 0 <= j < |lines| ==>
               lines[j].variantId == products[j].variantId && lines[j].quantity == products[j].quantity
    requires failingWrite != Some(0)
    modifies inventory, orders
    ensures orders.rows == old(orders.rows) && orders.nextId == old(orders.nextId) && orders.now == old(orders.now)
    ensures stored <==> !WriteFails(failingWrite, |products|)
    ensures stored ==> orders.items == old(orders.items) + ItemRows(orderId, lines)
                       && inventory.variants == Decremented(old(inventory.variants), products)
    ensures !stored ==>
              var w := failingWrite.value;
              && orders.items == old(orders.items) + ItemRows(orderId, lines[..w / 2])
              && inventory.variants == Decremented(old(inventory.variants), products[..(w - 1) / 2])
  {
    var k := 0;
    while k < |lines|
      invariant 0 <= k <= |lines|
      invariant orders.rows == old(orders.rows) && orders.nextId == old(orders.nextId) && orders.now == old(orders.now)
      invariant orders.items == old(orders.items) + ItemRows(orderId, lines[..k])
      invariant inventory.variants == Decremented(old(inventory.variants), products[..k])
      invariant failingWrite.Some? ==> failingWrite.value > 2 * k
    {
      if failingWrite == Some(2 * k + 1) {
        return false;
      }
      orders.InsertItem(OrderItem(orderId, lines[k].variantId, lines[k].quantity, lines[k].priceAtPurchase));
      assert ItemRows(orderId, lines[..k + 1]) == ItemRows(orderId, lines[..k]) + [ItemRows(orderId, lines)[k]];
      if failingWrite == Some(2 * k + 2) {
        return false;
      }
      inventory.Decrement(lines[k].variantId, lines[k].quantity);
      DecrementedStep(old(inventory.variants), products, k);
      k := k + 1;
    }
    assert lines[..k] == lines && products[..k] == products;
    stored := true;
  }

  /** `createOrder`: reject a request without addresses or products before any
      table is touched; otherwise run PlaceOrder between BEGIN and COMMIT, and on
      any failure ROLLBACK to the state before BEGIN. */
  method CreateOrder(inventory: VariantTable, orders: OrderTable, coupons: CouponTable, customerId: UserId,
                     shippingAddressId: Option<nat>, billingAddressId: Option<nat>, products: seq<LineRequest>,
                     couponCode: string, failingWrite: Option<nat>)
    returns (r: Result<nat>)
    requires orders.Valid()
    modifies inventory, orders
    ensures orders.Valid()
    ensures !Requested(shippingAddressId, billingAddressId, products) ==> r == Failure(MissingOrderFields)
    ensures r.Failure? ==>
              && inventory.variants == old(inventory.variants)
              && orders.rows == old(orders.rows) && orders.items == old(orders.items)
              && orders.nextId == old(orders.nextId) && orders.now == old(orders.now)
    ensures Requested(shippingAddressId, billingAddressId, products) && FirstUnavailable(old(inventory.variants), products).Some? ==>
              r == Failure(Unavailable(products[FirstUnavailable(old(inventory.variants), products).value].variantId))
    ensures Requested(shippingAddressId, billingAddressId, products) && FirstUnavailable(old(inventory.variants), products).None?
            && ResolveCoupon(coupons.rows, couponCode).Failure? ==>
              r == Failure(InvalidCoupon)
    ensures Requested(shippingAddressId, billingAddressId, products) && FirstUnavailable(old(inventory.variants), products).None?
            && ResolveCoupon(coupons.rows, couponCode).Success? && WriteFails(failingWrite, |products|) ==>
              r == Failure(StorageFailure)
    ensures Requested(shippingAddressId, billingAddressId, products) && FirstUnavailable(old(inventory.variants), products).None?
            && ResolveCoupon(coupons.rows, couponCode).Success? && !WriteFails(failingWrite, |products|) ==>
              var lines := Priced(old(inventory.variants), products);
              var coupon := ResolveCoupon(coupons.rows, couponCode).value;
              && r == Success(old(orders.nextId))
              && orders.rows == old(orders.rows) + [Order(r.value, customerId, shippingAddressId.value, billingAddressId.value,
                                                          Total(Subtotal(lines), coupon), AppliedCouponId(coupon),
                                                          Processing, old(orders.now))]
              && orders.items == old(orders.items) + ItemRows(r.value, lines)
              && inventory.variants == Decremented(old(inventory.variants), products)
              && orders.nextId == old(orders.nextId) + 1 && orders.now == old(orders.now) + 1
  {
    if !Requested(shippingAddressId, billingAddressId, products) {
      return Failure(MissingOrderFields);
    }
    // BEGIN: the state ROLLBACK returns to.
    var variantsBefore := inventory.variants;
    var rowsBefore, itemsBefore, nextIdBefore, nowBefore := orders.rows, orders.items, orders.nextId, orders.now;
    r := PlaceOrder(inventory, orders, coupons, customerId, shippingAddressId.value, billingAddressId.value,
                    products, couponCode, failingWrite);
    if r.Failure? {
      // ROLLBACK
      inventory.variants := variantsBefore;
      orders.rows, orders.items, orders.nextId, orders.now := rowsBefore, itemsBefore, nextIdBefore, nowBefore;
    }
    // COMMIT
  }

  /** The status names updateOrderStatus accepts; 'Refunded' is not among them. */
  const AllowedStatuses: seq<string> := ["Processing", "Dispatched", "Delivered", "Cancelled", "Returned"]

  /** The name the database stores for each status: a representation
      accessor, read through ParseStatusName's round trip. */
  function StatusName(s: OrderStatus): string
  {
    match s
    case Processing => "Processing"
    case Dispatched => "Dispatched"
    case Delivered => "Delivered"
    case Cancelled => "Cancelled"
    case Returned => "Returned"
    case Refunded => "Refunded"
  }

  /** The status a manager's request names, when it is one of the allowed names. */
  function ParseAllowedStatus(name: string): (s: Option<OrderStatus>)
    ensures s.Some? <==> name in AllowedStatuses
    ensures s.Some? ==> StatusName(s.value) == name && s.value != Refunded
  {
    if name == "Processing" then Some(Processing)
    else if name == "Dispatched" then Some(Dispatched)
    else if name == "Delivered" then Some(Delivered)
    else if name == "Cancelled" then Some(Cancelled)
    else if name == "Returned" then Some(Returned)
    else None
  }

  /** Every status but 'Refunded' can be set by name, and reads back as itself. */
  lemma ParseStatusName(s: OrderStatus)
    ensures s != Refunded ==> ParseAllowedStatus(StatusName(s)) == Some(s)
    ensures ParseAllowedStatus(StatusName(Refunded)) == None
  {
    assert StatusName(Refunded) == "Refunded";
    assert "Refunded"[2] != "Returned"[2];
  }

  /** `requestReturn`: the customer who owns a 'Delivered' order marks it 'Returned'. */
  method RequestReturn(orders: OrderTable, orderId: nat, customerId: UserId) returns (r: Result<Order>)
    requires orders.Valid()
    modifies orders
    ensures orders.Valid()
    ensures OrderModel.FindById(old(orders.rows), old(orders.items), orderId).None? ==> r == Failure(OrderNotFound)
    ensures OrderModel.FindById(old(orders.rows), old(orders.items), orderId).Some? ==>
              var order := OrderModel.FindById(old(orders.rows), old(orders.items), orderId).value.order;
              && (order.customerId != customerId ==> r == Failure(NotOrderOwner))
              && (order.customerId == customerId && order.status != Delivered ==> r == Failure(NotDelivered))
              && (order.customerId == customerId && order.status == Delivered ==> r == Success(order.(status := Returned)))
    ensures r.Failure? ==> orders.rows == old(orders.rows)
    ensures r.Success? ==> orders.rows == old(orders.rows)[OrderModel.IndexOfId(old(orders.rows), orderId).value := r.value]
    ensures orders.items == old(orders.items) && orders.nextId == old(orders.nextId) && orders.now == old(orders.now)
  {
    var order := OrderModel.FindById(orders.rows, orders.items, orderId);
    if order.None? {
      return Failure(OrderNotFound);
    }
    if order.value.order.customerId != customerId {
      return Failure(NotOrderOwner);
    }
    if order.value.order.status != Delivered {
      return Failure(NotDelivered);
    }
    var updated := orders.UpdateStatus(orderId, Returned);
    r := Success(updated.value);
  }

  /** `updateOrderStatus`: set any allowed status on an existing order, whatever
      its current status. */
  method UpdateOrderStatus(orders: OrderTable, orderId: nat, status: string) returns (r: Result<Order>)
    requires orders.Valid()
    modifies orders
    ensures orders.Valid()
    ensures ParseAllowedStatus(status).None? ==> r == Failure(InvalidStatus)
    ensures ParseAllowedStatus(status).Some? && OrderModel.IndexOfId(old(orders.rows), orderId).None? ==> r == Failure(OrderNotFound)
    ensures ParseAllowedStatus(status).Some? && OrderModel.IndexOfId(old(orders.rows), orderId).Some? ==>
              r == Success(old(orders.rows)[OrderModel.IndexOfId(old(orders.rows), orderId).value].(status := ParseAllowedStatus(status).value))
    ensures r.Failure? ==> orders.rows == old(orders.rows)
    ensures r.Success? ==> orders.rows == old(orders.rows)[OrderModel.IndexOfId(old(orders.rows), orderId).value := r.value]
    ensures orders.items == old(orders.items) && orders.nextId == old(orders.nextId) && orders.now == old(orders.now)
  {
    var target := ParseAllowedStatus(status);
    if target.None? {
      return Failure(InvalidStatus);
    }
    var updated := orders.UpdateStatus(orderId, target.value);
    if updated.None? {
      return Failure(OrderNotFound);
    }
    r := Success(updated.value);
  }

  /** `raiseRefundTicket`: for a 'Returned' order, open one 'Refund Request'
      ticket that snapshots the order id, its customer and its total. The order
      itself is not changed. */
  method RaiseRefundTicket(orders: OrderTable, tickets: TicketTable, orderId: nat, managerId: UserId)
    returns (r: Result<Ticket>)
    requires tickets.Valid()
    modifies tickets
    ensures tickets.Valid()
    ensures OrderModel.FindById(orders.rows, orders.items, orderId).None? ==> r == Failure(OrderNotFound)
    ensures OrderModel.FindById(orders.rows, orders.items, orderId).Some? ==>
              var order := OrderModel.FindById(orders.rows, orders.items, orderId).value.order;
              && (order.status != Returned ==> r == Failure(NotReturned))
              && (order.status == Returned ==>
                    r == Success(Ticket(old(tickets.nextId), RefundRequestType,
                                        RefundDetails(order.id, order.customerId, order.totalAmount),
                                        Open, managerId, None, None, old(tickets.now))))
    ensures r.Failure? ==> tickets.rows == old(tickets.rows) && tickets.nextId == old(tickets.nextId) && tickets.now == old(tickets.now)
    ensures r.Success? ==>
              && tickets.rows == old(tickets.rows) + [r.value]
              && tickets.nextId == old(tickets.nextId) + 1 && tickets.now == old(tickets.now) + 1
  {
    var order := OrderModel.FindById(orders.rows, orders.items, orderId);
    if order.None? {
      return Failure(OrderNotFound);
    }
    if order.value.order.status != Returned {
      return Failure(NotReturned);
    }
    var o := order.value.order;
    var ticket := tickets.Create(RefundRequestType, RefundDetails(o.id, o.customerId, o.totalAmount), managerId);
    r := Success(ticket);
  }
}
