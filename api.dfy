/** Shared vocabulary of the order, coupon and ticket workflow: optional values,
    handler results, and the errors the handlers raise together with the HTTP
    status each one is answered with. */
module Api {

  /** Users are identified by their `users.id`. */
  type UserId = nat

  datatype Option<+T> = None | Some(value: T)

  /** Every way a handler or a table operation in this model can fail. */
  datatype Error =
    | MissingOrderFields          // addresses or products missing from a new order
    | Unavailable(variantId: nat) // variant absent, or not enough stock for one line
    | InvalidCoupon               // coupon code unknown or coupon not 'Active'
    | OrderNotFound
    | NotOrderOwner               // the caller is not the order's customer
    | NotDelivered                // a return needs a 'Delivered' order
    | InvalidStatus               // target status outside the allowed list
    | NotReturned                 // a refund ticket needs a 'Returned' order
    | InvalidAction               // a ticket action other than 'Approved'/'Denied'
    | TicketNotFound              // no open ticket of the endpoint's type with that id
    | CouponNotFound              // the coupon a coupon ticket refers to is gone
    | RefundOrderNotFound         // the order a refund ticket refers to is gone
    | Unauthenticated             // no user on the request
    | NotPermitted                // the user's role is not admitted
    | DuplicateCode               // the unique constraint on coupons.code
    | StorageFailure              // the database rejected a write
  {
    /** The HTTP status the error is answered with. With no error middleware
        installed, Express answers an ApiError with its own status and a
        database error with 500; only those are server errors, and only a
        missing user is 401. */
    function Code(): (status: nat)
      ensures 400 <= status < 600
      ensures status >= 500 <==> this == DuplicateCode || this == StorageFailure
      ensures status == 401 <==> this == Unauthenticated
    {
      match this
      case MissingOrderFields => 400
      case Unavailable(_) => 400
      case InvalidCoupon => 400
      case OrderNotFound => 404
      case NotOrderOwner => 403
      case NotDelivered => 400
      case InvalidStatus => 400
      case NotReturned => 400
      case InvalidAction => 400
      case TicketNotFound => 404
      case CouponNotFound => 404
      case RefundOrderNotFound => 404
      case Unauthenticated => 401
      case NotPermitted => 403
      case DuplicateCode => 500
      case StorageFailure => 500
    }
  }

  datatype Result<+T> = Success(value: T) | Failure(error: Error)
}
