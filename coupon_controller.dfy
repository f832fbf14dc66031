/** The coupon handler (src/controllers/coupon.controller.js): a product manager
    creates a coupon, which waits for an admin behind an approval ticket. */
module CouponController {
  import opened Api
  import opened CouponModel
  import opened TicketModel

  /** `createCoupon`: insert the coupon ('Pending Approval'), then open one
      'Coupon Approval' ticket naming it, raised by the same user. The two
      inserts are separate statements: when the ticket insert fails
      (`ticketInsertFails`) the coupon stays, pending, with no ticket. */
  method CreateCoupon(coupons: CouponTable, tickets: TicketTable, code: string, discountType: string,
                      discountValue: real, expiryDate: Option<nat>, usageLimit: Option<int>,
                      createdBy: UserId, ticketInsertFails: bool)
    returns (r: Result<Coupon>)
    requires coupons.Valid() && tickets.Valid()
    modifies coupons, tickets
    ensures coupons.Valid() && tickets.Valid()
    ensures CouponModel.FindByCode(old(coupons.rows), code).Some? ==>
              && r == Failure(DuplicateCode)
              && coupons.rows == old(coupons.rows) && coupons.nextId == old(coupons.nextId)
    ensures CouponModel.FindByCode(old(coupons.rows), code).None? ==>
              var c := Coupon(old(coupons.nextId), code, discountType, discountValue, expiryDate, usageLimit,
                              createdBy, PendingApproval);
              && coupons.rows == old(coupons.rows) + [c]
              && coupons.nextId == old(coupons.nextId) + 1
              && (ticketInsertFails ==> r == Failure(StorageFailure))
              && (!ticketInsertFails ==>
                    && r == Success(c)
                    && tickets.rows == old(tickets.rows)
                                       + [Ticket(old(tickets.nextId), CouponApprovalType, CouponDetails(c.id, c.code),
                                                 Open, createdBy, None, None, old(tickets.now))]
                    && tickets.nextId == old(tickets.nextId) + 1 && tickets.now == old(tickets.now) + 1)
    ensures r.Failure? ==>
              tickets.rows == old(tickets.rows) && tickets.nextId == old(tickets.nextId) && tickets.now == old(tickets.now)
  {
    var coupon := coupons.Create(code, discountType, discountValue, expiryDate, usageLimit, createdBy);
    if coupon.Failure? {
      return Failure(coupon.error);
    }
    if ticketInsertFails {
      return Failure(StorageFailure);
    }
    var c := coupon.value;
    var _ := tickets.Create(CouponApprovalType, CouponDetails(c.id, c.code), createdBy);
    r := Success(c);
  }
}
