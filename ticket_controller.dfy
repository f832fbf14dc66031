/** The approval handlers (src/controllers/ticket.controller.js): the two open
    ticket listings, and the resolution of coupon approval and refund tickets.
    A resolution writes the target first and the ticket second, with no
    transaction around the two writes. */
module TicketController {
  import opened Api
  import opened CouponModel
  import opened OrderModel
  import opened TicketModel

  /** The ticket status an admin's action names: only "Approved" and "Denied". */
  function ActionStatus(action: string): (s: Option<TicketStatus>)
    ensures s == Some(Approved) <==> action == "Approved"
    ensures s == Some(TicketStatus.Denied) <==> action == "Denied"
    ensures s != Some(Open)
  {
    if action == "Approved" then Some(Approved)
    else if action == "Denied" then Some(TicketStatus.Denied)
    else None
  }

  /** The coupon status an approval action leads to. */
  function CouponStatusFor(s: TicketStatus): (c: CouponStatus)
    ensures c == Active <==> s == Approved
    ensures c != PendingApproval
  {
    if s == Approved then Active else CouponStatus.Denied
  }

  /** The ticket with that id when it is still 'Open' and of the given type;
      both handlers answer 404 otherwise. */
  function OpenTicketOfType(rows: seq<Ticket>, id: nat, ticketType: string): (r: Option<Ticket>)
    ensures r.Some? <==> TicketModel.FindById(rows, id).Some? && TicketModel.FindById(rows, id).value.status == Open
                         && TicketModel.FindById(rows, id).value.ticketType == ticketType
    ensures r.Some? ==> r.value in rows && r.value.id == id
  {
    var t := TicketModel.FindById(rows, id);
    if t.Some? && t.value.status == Open && t.value.ticketType == ticketType then t else None
  }

  /** The coupon a ticket's details name (`details.couponId`); none for details
      of another shape. A representation accessor of the details column. */
  function CouponIdOf(d: Details): Option<nat>
  {
    if d.CouponDetails? then Some(d.couponId) else None
  }

  /** The order a ticket's details name (`details.orderId`); none for details
      of another shape. A representation accessor of the details column. */
  function OrderIdOf(d: Details): Option<nat>
  {
    if d.RefundDetails? then Some(d.orderId) else None
  }

  /** A ticket whose status was set to anything but 'Open' is no longer offered
      for resolution, under either type: a ticket is resolved at most once. */
  lemma ResolvedTicketIsClosed(rows: seq<Ticket>, nextId: nat, now: nat, k: nat, t: Ticket, ticketType: string)
    requires TicketModel.WellFormed(rows, nextId, now) && k < |rows|
    requires t.id == rows[k].id && t.createdAt == rows[k].createdAt && t.status != Open
    ensures OpenTicketOfType(rows[k := t], t.id, ticketType).None?
  {
    ResolutionKeepsWellFormed(rows, nextId, now, k, t);
    TicketModel.FindByIdIsTheRow(rows[k := t], nextId, now + 1, k);
  }

  /** `getOpenTickets`: every open ticket, of any type. */
  function GetOpenTickets(rows: seq<Ticket>): (r: seq<Ticket>)
    ensures forall t :: t in r <==> t in rows && t.status == Open
  {
    FindOpen(rows)
  }

  /** `getRefundTickets`: the open listing narrowed to refund requests. */
  function GetRefundTickets(rows: seq<Ticket>): (r: seq<Ticket>)
    ensures forall t :: t in r <==> t in GetOpenTickets(rows) && t.ticketType == RefundRequestType
    ensures r == OfType(GetOpenTickets(rows), RefundRequestType)
  {
    OpenByTypeNarrowsOpen(rows, RefundRequestType);
    FindOpenByType(rows, RefundRequestType)
  }

  /** `processCouponTicket`. The action is checked first, then the ticket; the
      coupon is updated before the ticket, so a failing ticket write
      (`ticketWriteFails`) leaves the coupon changed and the ticket 'Open'. */
  method ProcessCouponTicket(tickets: TicketTable, coupons: CouponTable, ticketId: nat, action: string,
                             resolvedById: UserId, ticketWriteFails: bool)
    returns (r: Result<(Ticket, Coupon)>)
    requires tickets.Valid() && coupons.Valid()
    modifies tickets, coupons
    ensures tickets.Valid() && coupons.Valid()
    ensures tickets.nextId == old(tickets.nextId) && coupons.nextId == old(coupons.nextId)
    ensures ActionStatus(action).None? ==> r == Failure(InvalidAction)
    ensures ActionStatus(action).Some? && OpenTicketOfType(old(tickets.rows), ticketId, CouponApprovalType).None? ==>
              r == Failure(TicketNotFound)
    ensures ActionStatus(action).Some? && OpenTicketOfType(old(tickets.rows), ticketId, CouponApprovalType).Some? ==>
              var status := ActionStatus(action).value;
              var ticket := OpenTicketOfType(old(tickets.rows), ticketId, CouponApprovalType).value;
              var couponId := CouponIdOf(ticket.details);
              if couponId.None? || CouponModel.FindById(old(coupons.rows), couponId.value).None? then
                r == Failure(CouponNotFound)
              else
                var coupon := CouponModel.FindById(old(coupons.rows), couponId.value).value.(status := CouponStatusFor(status));
                && coupons.rows == old(coupons.rows)[CouponModel.IndexOfId(old(coupons.rows), couponId.value).value := coupon]
                && (ticketWriteFails ==> r == Failure(StorageFailure))
                && (!ticketWriteFails ==>
                      var resolved := ticket.(status := status, assignedToId := Some(resolvedById), resolvedAt := Some(old(tickets.now)));
                      && r == Success((resolved, coupon))
                      && tickets.rows == old(tickets.rows)[TicketModel.IndexOfId(old(tickets.rows), ticketId).value := resolved]
                      && tickets.now == old(tickets.now) + 1)
    ensures r.Failure? && r.error != StorageFailure ==> coupons.rows == old(coupons.rows)
    ensures r.Failure? ==> tickets.rows == old(tickets.rows) && tickets.now == old(tickets.now)
  {
    var status := ActionStatus(action);
    if status.None? {
      return Failure(InvalidAction);
    }
    var ticket := OpenTicketOfType(tickets.rows, ticketId, CouponApprovalType);
    if ticket.None? {
      return Failure(TicketNotFound);
    }
    var couponId := CouponIdOf(ticket.value.details);
    if couponId.None? {
      return Failure(CouponNotFound);
    }
    var coupon := coupons.UpdateStatus(couponId.value, CouponStatusFor(status.value));
    if coupon.None? {
      return Failure(CouponNotFound);
    }
    if ticketWriteFails {
      return Failure(StorageFailure);
    }
    var resolved := tickets.UpdateStatus(ticketId, status.value, resolvedById);
    r := Success((resolved.value, coupon.value));
  }

  /** `processRefundTicket`. Approval sets the order named in the ticket to
      'Refunded' whatever its current status; denial leaves the order alone.
      The ticket is written last, so a failing ticket write (`ticketWriteFails`)
      after an approval leaves the order 'Refunded' and the ticket 'Open'. */
  method ProcessRefundTicket(tickets: TicketTable, orders: OrderTable, ticketId: nat, action: string,
                             resolvedById: UserId, ticketWriteFails: bool)
    returns (r: Result<Ticket>)
    requires tickets.Valid() && orders.Valid()
    modifies tickets, orders
    ensures tickets.Valid() && orders.Valid()
    ensures tickets.nextId == old(tickets.nextId)
    ensures orders.items == old(orders.items) && orders.nextId == old(orders.nextId) && orders.now == old(orders.now)
    ensures ActionStatus(action).None? ==> r == Failure(InvalidAction)
    ensures ActionStatus(action).Some? && OpenTicketOfType(old(tickets.rows), ticketId, RefundRequestType).None? ==>
              r == Failure(TicketNotFound)
    ensures ActionStatus(action) == Some(TicketStatus.Denied) ==> orders.rows == old(orders.rows) && r != Failure(RefundOrderNotFound)
    ensures ActionStatus(action) == Some(Approved) && OpenTicketOfType(old(tickets.rows), ticketId, RefundRequestType).Some? ==>
              var orderId := OrderIdOf(OpenTicketOfType(old(tickets.rows), ticketId, RefundRequestType).value.details);
              if orderId.None? || OrderModel.IndexOfId(old(orders.rows), orderId.value).None? then
                r == Failure(RefundOrderNotFound) && orders.rows == old(orders.rows)
              else
                var k := OrderModel.IndexOfId(old(orders.rows), orderId.value).value;
                && r != Failure(RefundOrderNotFound)
                && orders.rows == old(orders.rows)[k := old(orders.rows)[k].(status := Refunded)]
    ensures ActionStatus(action).Some? && OpenTicketOfType(old(tickets.rows), ticketId, RefundRequestType).Some?
            && r != Failure(RefundOrderNotFound) ==>
              var ticket := OpenTicketOfType(old(tickets.rows), ticketId, RefundRequestType).value;
              var resolved := ticket.(status := ActionStatus(action).value, assignedToId := Some(resolvedById),
                                      resolvedAt := Some(old(tickets.now)));
              && (ticketWriteFails ==> r == Failure(StorageFailure))
              && (!ticketWriteFails ==>
                    && r == Success(resolved)
                    && tickets.rows == old(tickets.rows)[TicketModel.IndexOfId(old(tickets.rows), ticketId).value := resolved]
                    && tickets.now == old(tickets.now) + 1)
    ensures r.Failure? ==> tickets.rows == old(tickets.rows) && tickets.now == old(tickets.now)
    ensures r.Failure? && r.error != StorageFailure ==> orders.rows == old(orders.rows)
  {
    var status := ActionStatus(action);
    if status.None? {
      return Failure(InvalidAction);
    }
    var ticket := OpenTicketOfType(tickets.rows, ticketId, RefundRequestType);
    if ticket.None? {
      return Failure(TicketNotFound);
    }
    if status.value == Approved {
      var orderId := OrderIdOf(ticket.value.details);
      if orderId.None? {
        return Failure(RefundOrderNotFound);
      }
      var order := orders.UpdateStatus(orderId.value, Refunded);
      if order.None? {
        return Failure(RefundOrderNotFound);
      }
    }
    if ticketWriteFails {
      return Failure(StorageFailure);
    }
    var resolved := tickets.UpdateStatus(ticketId, status.value, resolvedById);
    r := Success(resolved.value);
  }
}
