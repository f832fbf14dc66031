/** The orders and order_items tables (src/models/order.model.js): the two
    insert statements createOrder issues, the status update, and the three
    read queries. */
module OrderModel {
  import opened Api

  datatype OrderStatus = Processing | Dispatched | Delivered | Cancelled | Returned | Refunded

  /** A row of the orders table. The subtotal is not stored, only the total. */
  datatype Order = Order(
    id: nat,
    customerId: UserId,
    shippingAddressId: nat,
    billingAddressId: nat,
    totalAmount: real,
    appliedCouponId: Option<nat>,
    status: OrderStatus,
    createdAt: nat)

  /** A row of order_items; `priceAtPurchase` is the price copied at order time. */
  datatype OrderItem = OrderItem(orderId: nat, variantId: nat, quantity: int, priceAtPurchase: real)

  /** An order together with its item rows, as the joined queries return it. */
  datatype OrderDetails = OrderDetails(order: Order, items: seq<OrderItem>)

  ghost predicate WellFormed(rows: seq<Order>, nextId: nat, now: nat)
  {
    && (forall i, j :: 0 <= i < j < |rows| ==> rows[i].id < rows[j].id && rows[i].createdAt < rows[j].createdAt)
    && (forall i :: 0 <= i < |rows| ==> rows[i].id < nextId && rows[i].createdAt < now)
  }

  /** Position of the order with the given id. */
  function IndexOfId(rows: seq<Order>, id: nat): (k: Option<nat>)
    ensures k.Some? ==> k.value < |rows| && rows[k.value].id == id
    ensures k.None? <==> forall i :: 0 <= i < |rows| ==> rows[i].id != id
  {
    if rows == [] then None
    else if rows[|rows| - 1].id == id then Some(|rows| - 1)
    else IndexOfId(rows[..|rows| - 1], id)
  }

  lemma IndexOfIdIsTheRow(rows: seq<Order>, nextId: nat, now: nat, i: nat)
    requires WellFormed(rows, nextId, now) && i < |rows|
    ensures IndexOfId(rows, rows[i].id) == Some(i)
  {
  }

  /** The item rows of one order, in table order: every row of that order, as
      many times as the table holds it, and no other row. */
  function ItemsOf(items: seq<OrderItem>, orderId: nat): (r: seq<OrderItem>)
    ensures forall x :: x in r <==> x in items && x.orderId == orderId
    ensures forall x :: multiset(r)[x] == if x.orderId == orderId then multiset(items)[x] else 0
    ensures |r| <= |items|
  {
    if items == [] then []
    else
      assert items == items[..|items| - 1] + [items[|items| - 1]];
      ItemsOf(items[..|items| - 1], orderId)
      + (if items[|items| - 1].orderId == orderId then [items[|items| - 1]] else [])
  }

  /** `Order.findById`: the order with that id joined with its items. The join
      on order_items is an inner join, so an order without items is not found. */
  function FindById(rows: seq<Order>, items: seq<OrderItem>, id: nat): (r: Option<OrderDetails>)
    ensures r.Some? ==> r.value.order in rows && r.value.order.id == id
                        && r.value.items == ItemsOf(items, id) && r.value.items != []
    ensures r.None? <==> (forall i :: 0 <= i < |rows| ==> rows[i].id != id) || ItemsOf(items, id) == []
  {
    var k := IndexOfId(rows, id);
    if k.None? then None
    else
      var its := ItemsOf(items, id);
      if its == [] then None else Some(OrderDetails(rows[k.value], its))
  }

  /** `Order.findOrdersByCustomerId`: the customer's orders that have items, each
      with its items, scanned from the newest row back. */
  function FindOrdersByCustomerId(rows: seq<Order>, items: seq<OrderItem>, customerId: UserId): (r: seq<OrderDetails>)
    ensures forall d :: d in r ==> d.order in rows && d.order.customerId == customerId
                                   && d.items == ItemsOf(items, d.order.id) && d.items != []
    ensures forall o :: o in rows && o.customerId == customerId && ItemsOf(items, o.id) != [] ==>
                          OrderDetails(o, ItemsOf(items, o.id)) in r
  {
    if rows == [] then []
    else
      var last := rows[|rows| - 1];
      var its := ItemsOf(items, last.id);
      (if last.customerId == customerId && its != [] then [OrderDetails(last, its)] else [])
      + FindOrdersByCustomerId(rows[..|rows| - 1], items, customerId)
  }

  /** `Order.findAll`: every order, scanned from the newest row back. */
  function FindAll(rows: seq<Order>): (r: seq<Order>)
    ensures |r| == |rows|
    ensures forall i :: 0 <= i < |rows| ==> r[i] == rows[|rows| - 1 - i]
  {
    if rows == [] then [] else [rows[|rows| - 1]] + FindAll(rows[..|rows| - 1])
  }

  ghost predicate NewestFirst(ds: seq<OrderDetails>)
  {
    forall i, j :: 0 <= i < j < |ds| ==> ds[i].order.createdAt > ds[j].order.createdAt
  }

  lemma PrependNewer(d: OrderDetails, ds: seq<OrderDetails>)
    requires NewestFirst(ds)
    requires forall e :: e in ds ==> e.order.createdAt < d.order.createdAt
    ensures NewestFirst([d] + ds)
  {
    var r := [d] + ds;
    forall i, j | 0 <= i < j < |r| ensures r[i].order.createdAt > r[j].order.createdAt {
      assert r[j] == ds[j - 1];
      if i > 0 {
        assert r[i] == ds[i - 1];
      }
    }
  }

  /** The history lists newest first (ORDER BY created_at DESC). */
  lemma {:induction false} HistoryNewestFirst(rows: seq<Order>, items: seq<OrderItem>, customerId: UserId, nextId: nat, now: nat)
    requires WellFormed(rows, nextId, now)
    ensures NewestFirst(FindOrdersByCustomerId(rows, items, customerId))
  {
    if rows != [] {
      var init := rows[..|rows| - 1];
      var last := rows[|rows| - 1];
      assert WellFormed(init, nextId, now);
      HistoryNewestFirst(init, items, customerId, nextId, now);
      var tail := FindOrdersByCustomerId(init, items, customerId);
      var its := ItemsOf(items, last.id);
      if last.customerId == customerId && its != [] {
        forall d | d in tail ensures d.order.createdAt < last.createdAt {
          var i :| 0 <= i < |init| && init[i] == d.order;
        }
        PrependNewer(OrderDetails(last, its), tail);
      } else {
        assert FindOrdersByCustomerId(rows, items, customerId) == [] + tail;
      }
    }
  }

  /** The management listing holds every order, newest first. */
  lemma FindAllNewestFirst(rows: seq<Order>, nextId: nat, now: nat)
    requires WellFormed(rows, nextId, now)
    ensures var r := FindAll(rows);
            && (forall o :: o in r <==> o in rows)
            && (forall i, j :: 0 <= i < j < |r| ==> r[i].createdAt > r[j].createdAt)
  {
    var r := FindAll(rows);
    forall o | o in rows ensures o in r {
      var i :| 0 <= i < |rows| && rows[i] == o;
      assert r[|rows| - 1 - i] == o;
    }
  }

  lemma StatusChangeKeepsWellFormed(rows: seq<Order>, nextId: nat, now: nat, k: nat, s: OrderStatus)
    requires WellFormed(rows, nextId, now) && k < |rows|
    ensures WellFormed(rows[k := rows[k].(status := s)], nextId, now)
  {
    var after := rows[k := rows[k].(status := s)];
    assert forall i :: 0 <= i < |rows| ==> after[i].id == rows[i].id && after[i].createdAt == rows[i].createdAt;
  }

  class OrderTable {
    var rows: seq<Order>
    var items: seq<OrderItem>
    var nextId: nat
    /** The table's clock, read as NOW() by an insert. */
    var now: nat

    ghost predicate Valid()
      reads this
    {
      WellFormed(rows, nextId, now)
    }

    constructor ()
      ensures Valid() && rows == [] && items == [] && nextId == 1 && now == 0
    {
      rows, items := [], [];
      nextId, now := 1, 0;
    }

    /** `INSERT INTO orders (...) RETURNING id`: a new 'Processing' order. */
    method Insert(customerId: UserId, shippingAddressId: nat, billingAddressId: nat,
                  totalAmount: real, appliedCouponId: Option<nat>) returns (id: nat)
      requires Valid()
      modifies this
      ensures Valid()
      ensures id == old(nextId)
      ensures rows == old(rows) + [Order(id, customerId, shippingAddressId, billingAddressId,
                                         totalAmount, appliedCouponId, Processing, old(now))]
      ensures items == old(items) && nextId == old(nextId) + 1 && now == old(now) + 1
    {
      id := nextId;
      rows := rows + [Order(id, customerId, shippingAddressId, billingAddressId, totalAmount, appliedCouponId, Processing, now)];
      nextId := nextId + 1;
      now := now + 1;
    }

    /** `INSERT INTO order_items (...)`. */
    method InsertItem(item: OrderItem)
      modifies this
      ensures items == old(items) + [item]
      ensures rows == old(rows) && nextId == old(nextId) && now == old(now)
    {
      items := items + [item];
    }

    /** `Order.updateStatus`: set the status of the order with that id, whatever it
        was, and return the updated row; none when no order has that id. Only the
        orders table is read, so an order without items is found here. */
    method UpdateStatus(id: nat, status: OrderStatus) returns (r: Option<Order>)
      requires Valid()
      modifies this
      ensures Valid() && nextId == old(nextId) && now == old(now) && items == old(items)
      ensures r.None? <==> IndexOfId(old(rows), id).None?
      ensures r.None? ==> rows == old(rows)
      ensures r.Some? ==> r == Some(old(rows)[IndexOfId(old(rows), id).value].(status := status))
      ensures r.Some? ==> rows == old(rows)[IndexOfId(old(rows), id).value := r.value]
    {
      var k := IndexOfId(rows, id);
      if k.None? {
        return None;
      }
      IndexOfIdIsTheRow(rows, nextId, now, k.value);
      StatusChangeKeepsWellFormed(rows, nextId, now, k.value, status);
      r := Some(rows[k.value].(status := status));
      rows := rows[k.value := r.value];
    }
  }
}
