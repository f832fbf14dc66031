/** Whole journeys through the handlers, each on fresh tables: a coupon from
    creation to use, and an order from placement to refund. */
module Workflow {
  import opened Api
  import opened Inventory
  import opened CouponModel
  import opened OrderModel
  import opened TicketModel
  import opened Pricing
  import opened CouponController
  import opened OrderController
  import opened TicketController

  const Admin: UserId := 1
  const ProductManager: UserId := 2
  const Customer: UserId := 3
  const OrderManager: UserId := 4

  /** A product manager submits a coupon on fresh tables: it is pending and one
      open approval ticket names it. */
  method SubmittedCoupon(code: string, discountType: string, discountValue: real)
    returns (coupons: CouponTable, tickets: TicketTable)
    ensures fresh(coupons) && fresh(tickets) && coupons.Valid() && tickets.Valid()
    ensures coupons.rows == [Coupon(1, code, discountType, discountValue, None, None, ProductManager, PendingApproval)]
    ensures tickets.rows == [Ticket(1, CouponApprovalType, CouponDetails(1, code), Open, ProductManager, None, None, 0)]
    ensures tickets.now == 1
  {
    coupons := new CouponTable();
    tickets := new TicketTable();
    var created := CreateCoupon(coupons, tickets, code, discountType, discountValue, None, None, ProductManager, false);
  }

  /** The coupon SAVE10, ten per cent off, submitted and then approved by an
      admin: the coupon is 'Active' and the ticket 'Approved'. */
  method ApprovedCoupon() returns (coupons: CouponTable, tickets: TicketTable, approval: Result<(Ticket, Coupon)>)
    ensures fresh(coupons) && fresh(tickets) && coupons.Valid() && tickets.Valid()
    ensures coupons.rows == [Coupon(1, "SAVE10", "percentage", 10.0, None, None, ProductManager, Active)]
    ensures tickets.rows == [Ticket(1, CouponApprovalType, CouponDetails(1, "SAVE10"), Approved, ProductManager,
                                    Some(Admin), Some(1), 0)]
    ensures approval.Success?
  {
    coupons, tickets := SubmittedCoupon("SAVE10", "percentage", 10.0);
    approval := ProcessCouponTicket(tickets, coupons, 1, "Approved", Admin, false);
  }

  /** A pending coupon cannot be used at checkout. */
  method PendingCouponIsRefused() returns (use: Result<Option<Coupon>>)
    ensures use == Failure(InvalidCoupon)
  {
    var coupons, tickets := SubmittedCoupon("SAVE10", "percentage", 10.0);
    use := ResolveCoupon(coupons.rows, "SAVE10");
  }

  /** Once approved the coupon is usable, and its ticket cannot be resolved a
      second time. */
  method CouponApprovalIsOneShot() returns (use: Result<Option<Coupon>>, second: Result<(Ticket, Coupon)>)
    ensures use.Success? && use.value.Some? && use.value.value.code == "SAVE10"
    ensures second == Failure(TicketNotFound)
  {
    var coupons, tickets, approval := ApprovedCoupon();
    use := ResolveCoupon(coupons.rows, "SAVE10");
    second := ProcessCouponTicket(tickets, coupons, 1, "Denied", Admin, false);
  }

  /** A denied coupon never becomes usable. */
  method DeniedCouponStaysUnusable() returns (resolved: Result<(Ticket, Coupon)>, use: Result<Option<Coupon>>)
    ensures resolved.Success? && resolved.value.0.status == TicketStatus.Denied
    ensures use == Failure(InvalidCoupon)
  {
    var coupons, tickets := SubmittedCoupon("FREESHIP", "fixed", 5.0);
    resolved := ProcessCouponTicket(tickets, coupons, 1, "Denied", Admin, false);
    use := ResolveCoupon(coupons.rows, "FREESHIP");
  }

  /** Two units at 50.0 with the approved ten per cent coupon: the order stores
      the discounted total 90.0 and the stock drops from 10 to 8. */
  method DiscountedOrder() returns (placed: Result<nat>, total: real, stock: int)
    ensures placed == Success(1)
    ensures total == 90.0 && stock == 8
  {
    var coupons, tickets, approval := ApprovedCoupon();
    var coupon := coupons.rows[0];
    var inventory := new VariantTable(map[5 := Variant(10, 50.0)]);
    var orders := new OrderTable();
    var products := [LineRequest(5, 2)];
    assert FirstUnavailable(inventory.variants, products) == None;
    assert Priced(inventory.variants, products) == [PricedLine(5, 2, 50.0)];
    assert Subtotal([PricedLine(5, 2, 50.0)]) == 100.0;
    assert ResolveCoupon(coupons.rows, "SAVE10") == Success(Some(coupon));
    TenPercentOfHundred(coupon);
    assert Decremented(map[5 := Variant(10, 50.0)], products) == map[5 := Variant(8, 50.0)] by {
      DecrementedStock(map[5 := Variant(10, 50.0)], products, 5);
    }
    placed := CreateOrder(inventory, orders, coupons, Customer, Some(11), Some(12), products, "SAVE10", None);
    total := orders.rows[0].totalAmount;
    stock := inventory.variants[5].stock;
  }

  /** A customer's order of two units at 50.0, placed without a coupon on fresh
      tables: the total is the subtotal 100.0 and the stock drops from 10 to 8. */
  method PlaceSampleOrder() returns (inventory: VariantTable, orders: OrderTable, placed: Result<nat>)
    ensures fresh(inventory) && fresh(orders) && orders.Valid()
    ensures placed == Success(1)
    ensures orders.rows == [Order(1, Customer, 11, 12, 100.0, None, Processing, 0)]
    ensures orders.items == [OrderItem(1, 5, 2, 50.0)]
    ensures inventory.variants == map[5 := Variant(8, 50.0)]
  {
    inventory := new VariantTable(map[5 := Variant(10, 50.0)]);
    orders := new OrderTable();
    var coupons := new CouponTable();
    var products := [LineRequest(5, 2)];
    assert FirstUnavailable(inventory.variants, products) == None;
    assert Priced(inventory.variants, products) == [PricedLine(5, 2, 50.0)];
    assert Subtotal([PricedLine(5, 2, 50.0)]) == 100.0;
    assert ResolveCoupon(coupons.rows, "") == Success(None);
    assert Decremented(map[5 := Variant(10, 50.0)], products) == map[5 := Variant(8, 50.0)] by {
      DecrementedStock(map[5 := Variant(10, 50.0)], products, 5);
    }
    placed := CreateOrder(inventory, orders, coupons, Customer, Some(11), Some(12), products, "", None);
  }

  /** The sample order is delivered and then returned by its customer; another
      customer's return request for it is refused. */
  method DeliveredThenReturned() returns (orders: OrderTable, stranger: Result<Order>, returned: Result<Order>)
    ensures fresh(orders) && orders.Valid()
    ensures stranger == Failure(NotOrderOwner)
    ensures returned.Success? && returned.value.status == Returned
    ensures orders.rows == [Order(1, Customer, 11, 12, 100.0, None, Returned, 0)]
    ensures orders.items == [OrderItem(1, 5, 2, 50.0)]
  {
    var inventory, placed;
    inventory, orders, placed := PlaceSampleOrder();
    assert ItemsOf(orders.items, 1) == orders.items;
    var delivered := UpdateOrderStatus(orders, 1, "Delivered");
    assert orders.rows == [Order(1, Customer, 11, 12, 100.0, None, Delivered, 0)];
    assert OrderModel.FindById(orders.rows, orders.items, 1) == Some(OrderDetails(orders.rows[0], orders.items));
    stranger := RequestReturn(orders, 1, Customer + 10);
    returned := RequestReturn(orders, 1, Customer);
  }

  /** For the returned order a manager raises a refund ticket, which snapshots
      the order's id, customer and total. */
  method RefundRaised() returns (orders: OrderTable, tickets: TicketTable, ticket: Result<Ticket>)
    ensures fresh(orders) && fresh(tickets) && orders.Valid() && tickets.Valid()
    ensures ticket.Success? && ticket.value.details == RefundDetails(1, Customer, 100.0)
    ensures tickets.rows == [Ticket(1, RefundRequestType, RefundDetails(1, Customer, 100.0), Open, OrderManager, None, None, 0)]
    ensures orders.rows == [Order(1, Customer, 11, 12, 100.0, None, Returned, 0)]
    ensures orders.items == [OrderItem(1, 5, 2, 50.0)]
  {
    var stranger, returned;
    orders, stranger, returned := DeliveredThenReturned();
    tickets := new TicketTable();
    assert ItemsOf(orders.items, 1) == orders.items;
    assert OrderModel.FindById(orders.rows, orders.items, 1) == Some(OrderDetails(orders.rows[0], orders.items));
    ticket := RaiseRefundTicket(orders, tickets, 1, OrderManager);
  }

  /** Finance approves the refund ticket, which marks the order 'Refunded'. */
  method RefundJourney() returns (orders: OrderTable, refund: Result<Ticket>)
    ensures fresh(orders) && orders.Valid()
    ensures refund.Success? && refund.value.status == Approved
    ensures orders.rows == [Order(1, Customer, 11, 12, 100.0, None, Refunded, 0)]
    ensures orders.items == [OrderItem(1, 5, 2, 50.0)]
  {
    var tickets, ticket;
    orders, tickets, ticket := RefundRaised();
    refund := ProcessRefundTicket(tickets, orders, 1, "Approved", Admin, false);
  }

  /** A denied refund leaves the order 'Returned'. */
  method RefundDenied() returns (refund: Result<Ticket>, status: OrderStatus)
    ensures refund.Success? && refund.value.status == TicketStatus.Denied
    ensures status == Returned
  {
    var orders, tickets, ticket := RefundRaised();
    refund := ProcessRefundTicket(tickets, orders, 1, "Denied", Admin, false);
    status := orders.rows[0].status;
  }

  /** Once refunded, the order is no longer 'Returned' and cannot be ticketed
      for a refund again. */
  method NoSecondRefund() returns (again: Result<Ticket>)
    ensures again == Failure(NotReturned)
  {
    var orders, refund := RefundJourney();
    var tickets := new TicketTable();
    assert ItemsOf(orders.items, 1) == orders.items;
    assert OrderModel.FindById(orders.rows, orders.items, 1) == Some(OrderDetails(orders.rows[0], orders.items));
    again := RaiseRefundTicket(orders, tickets, 1, OrderManager);
  }

  /** The manager's status update accepts any transition: the sample order,
      still 'Processing', is set straight to 'Returned', and a refund ticket is
      raised for it. */
  method SkippedToReturned() returns (orders: OrderTable, tickets: TicketTable, ticket: Result<Ticket>)
    ensures fresh(orders) && fresh(tickets) && orders.Valid() && tickets.Valid()
    ensures ticket.Success?
    ensures tickets.rows == [Ticket(1, RefundRequestType, RefundDetails(1, Customer, 100.0), Open, OrderManager, None, None, 0)]
    ensures orders.rows == [Order(1, Customer, 11, 12, 100.0, None, Returned, 0)]
  {
    var inventory, placed;
    inventory, orders, placed := PlaceSampleOrder();
    var skipped := UpdateOrderStatus(orders, 1, "Returned");
    tickets := new TicketTable();
    assert ItemsOf(orders.items, 1) == orders.items;
    assert OrderModel.FindById(orders.rows, orders.items, 1) == Some(OrderDetails(orders.rows[0], orders.items));
    ticket := RaiseRefundTicket(orders, tickets, 1, OrderManager);
  }

  /** An order that skipped delivery is refunded through its ticket. */
  method SkippedOrderIsRefunded() returns (refund: Result<Ticket>, status: OrderStatus)
    ensures refund.Success?
    ensures status == Refunded
  {
    var orders, tickets, ticket := SkippedToReturned();
    refund := ProcessRefundTicket(tickets, orders, 1, "Approved", Admin, false);
    status := orders.rows[0].status;
  }

  /** A failing stock update on the second line rolls the whole order back: no
      order, no items, stock as before. */
  method FailedWriteRollsBack() returns (placed: Result<nat>, orderCount: nat, stock: map<nat, Variant>)
    ensures placed == Failure(StorageFailure)
    ensures orderCount == 0 && stock == map[5 := Variant(10, 50.0), 6 := Variant(4, 20.0)]
  {
    var initial := map[5 := Variant(10, 50.0), 6 := Variant(4, 20.0)];
    var inventory := new VariantTable(initial);
    var orders := new OrderTable();
    var coupons := new CouponTable();
    var products := [LineRequest(5, 1), LineRequest(6, 1)];
    assert FirstUnavailable(inventory.variants, products) == None;
    placed := CreateOrder(inventory, orders, coupons, Customer, Some(11), Some(12), products, "", Some(4));
    orderCount := |orders.rows|;
    stock := inventory.variants;
  }
}
