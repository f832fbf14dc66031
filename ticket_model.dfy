/** The tickets table (src/models/ticket.model.js): approval work items that point
    at a coupon or an order through their details. */
module TicketModel {
  import opened Api

  datatype TicketStatus = Open | Approved | Denied

  /** The two ticket types the workflow creates. `ticket_type` itself is free text. */
  const CouponApprovalType: string := "Coupon Approval"
  const RefundRequestType: string := "Refund Request"

  /** The JSON `details` of a ticket: which coupon or order it is about, with a
      snapshot of what the raiser saw. */
  datatype Details =
    | CouponDetails(couponId: nat, couponCode: string)
    | RefundDetails(orderId: nat, customerId: UserId, totalAmount: real)

  datatype Ticket = Ticket(
    id: nat,
    ticketType: string,
    details: Details,
    status: TicketStatus,
    createdById: UserId,
    assignedToId: Option<UserId>,
    resolvedAt: Option<nat>,
    createdAt: nat)

  /** Ids and creation times grow with insertion order and stay below the next
      serial value and the clock. */
  ghost predicate WellFormed(rows: seq<Ticket>, nextId: nat, now: nat)
  {
    && (forall i, j :: 0 <= i < j < |rows| ==> rows[i].id < rows[j].id && rows[i].createdAt < rows[j].createdAt)
    && (forall i :: 0 <= i < |rows| ==> rows[i].id < nextId && rows[i].createdAt < now)
  }

  /** Position of the row with the given id. */
  function IndexOfId(rows: seq<Ticket>, id: nat): (k: Option<nat>)
    ensures k.Some? ==> k.value < |rows| && rows[k.value].id == id
    ensures k.None? <==> forall i :: 0 <= i < |rows| ==> rows[i].id != id
  {
    if rows == [] then None
    else if rows[|rows| - 1].id == id then Some(|rows| - 1)
    else IndexOfId(rows[..|rows| - 1], id)
  }

  /** `Ticket.findById`: the ticket with that id, or none. */
  function FindById(rows: seq<Ticket>, id: nat): (r: Option<Ticket>)
    ensures r.Some? ==> r.value in rows && r.value.id == id
    ensures r.None? <==> forall i :: 0 <= i < |rows| ==> rows[i].id != id
  {
    var k := IndexOfId(rows, id);
    if k.Some? then Some(rows[k.value]) else None
  }

  lemma FindByIdIsTheRow(rows: seq<Ticket>, nextId: nat, now: nat, i: nat)
    requires WellFormed(rows, nextId, now) && i < |rows|
    ensures FindById(rows, rows[i].id) == Some(rows[i])
  {
    var k := IndexOfId(rows, rows[i].id);
    assert k.Some?;
  }

  /** `Ticket.findOpen`: the open tickets, in table order. */
  function FindOpen(rows: seq<Ticket>): (r: seq<Ticket>)
    ensures forall t :: t in r <==> t in rows && t.status == Open
  {
    if rows == [] then []
    else FindOpen(rows[..|rows| - 1])
         + (if rows[|rows| - 1].status == Open then [rows[|rows| - 1]] else [])
  }

  /** `Ticket.findOpenByType`: the open tickets of one type, in table order. */
  function FindOpenByType(rows: seq<Ticket>, ticketType: string): (r: seq<Ticket>)
    ensures forall t :: t in r <==> t in rows && t.status == Open && t.ticketType == ticketType
  {
    if rows == [] then []
    else FindOpenByType(rows[..|rows| - 1], ticketType)
         + (if rows[|rows| - 1].status == Open && rows[|rows| - 1].ticketType == ticketType
            then [rows[|rows| - 1]] else [])
  }

  ghost predicate OldestFirst(ts: seq<Ticket>)
  {
    forall i, j :: 0 <= i < j < |ts| ==> ts[i].createdAt < ts[j].createdAt
  }

  lemma AppendNewest(ts: seq<Ticket>, t: Ticket)
    requires OldestFirst(ts)
    requires forall u :: u in ts ==> u.createdAt < t.createdAt
    ensures OldestFirst(ts + [t])
  {
    var r := ts + [t];
    forall i, j | 0 <= i < j < |r| ensures r[i].createdAt < r[j].createdAt {
      assert r[i] == ts[i];
      if j < |ts| {
        assert r[j] == ts[j];
      }
    }
  }

  /** Both open-ticket listings come out oldest first (ORDER BY created_at ASC). */
  lemma {:induction false} OpenListsOldestFirst(rows: seq<Ticket>, nextId: nat, now: nat, ticketType: string)
    requires WellFormed(rows, nextId, now)
    ensures OldestFirst(FindOpen(rows))
    ensures OldestFirst(FindOpenByType(rows, ticketType))
  {
    if rows != [] {
      var init := rows[..|rows| - 1];
      var last := rows[|rows| - 1];
      assert WellFormed(init, nextId, now);
      OpenListsOldestFirst(init, nextId, now, ticketType);
      forall u | u in init ensures u.createdAt < last.createdAt {
        var i :| 0 <= i < |init| && init[i] == u;
      }
      if last.status == Open {
        AppendNewest(FindOpen(init), last);
      } else {
        assert FindOpen(rows) == FindOpen(init) + [];
      }
      if last.status == Open && last.ticketType == ticketType {
        AppendNewest(FindOpenByType(init, ticketType), last);
      } else {
        assert FindOpenByType(rows, ticketType) == FindOpenByType(init, ticketType) + [];
      }
    }
  }

  /** The typed listing is the untyped one narrowed to that type, order kept. */
  lemma {:induction false} OpenByTypeNarrowsOpen(rows: seq<Ticket>, ticketType: string)
    ensures FindOpenByType(rows, ticketType) == OfType(FindOpen(rows), ticketType)
  {
    if rows != [] {
      var init := rows[..|rows| - 1];
      var last := rows[|rows| - 1];
      OpenByTypeNarrowsOpen(init, ticketType);
      OfTypeAppend(FindOpen(init), if last.status == Open then [last] else [], ticketType);
    }
  }

  function OfType(ts: seq<Ticket>, ticketType: string): seq<Ticket>
  {
    if ts == [] then []
    else OfType(ts[..|ts| - 1], ticketType) + (if ts[|ts| - 1].ticketType == ticketType then [ts[|ts| - 1]] else [])
  }

  lemma {:induction false} OfTypeAppend(a: seq<Ticket>, b: seq<Ticket>, ticketType: string)
    ensures OfType(a + b, ticketType) == OfType(a, ticketType) + OfType(b, ticketType)
  {
    if b != [] {
      assert (a + b)[..|a + b| - 1] == a + b[..|b| - 1];
      OfTypeAppend(a, b[..|b| - 1], ticketType);
    } else {
      assert a + b == a;
    }
  }

  /** Changing one ticket's resolution fields keeps a table well formed. */
  lemma ResolutionKeepsWellFormed(rows: seq<Ticket>, nextId: nat, now: nat, k: nat, t: Ticket)
    requires WellFormed(rows, nextId, now) && k < |rows|
    requires t.id == rows[k].id && t.createdAt == rows[k].createdAt
    ensures WellFormed(rows[k := t], nextId, now + 1)
  {
    var after := rows[k := t];
    assert forall i :: 0 <= i < |rows| ==> after[i].id == rows[i].id && after[i].createdAt == rows[i].createdAt;
  }

  class TicketTable {
    var rows: seq<Ticket>
    var nextId: nat
    /** The table's clock: each write reads it as NOW() and then advances it. */
    var now: nat

    ghost predicate Valid()
      reads this
    {
      WellFormed(rows, nextId, now)
    }

    constructor ()
      ensures Valid() && rows == [] && nextId == 1 && now == 0
    {
      rows := [];
      nextId := 1;
      now := 0;
    }

    /** `Ticket.create`: insert one 'Open' ticket with the given type, details and
        creator, and return it. */
    method Create(ticketType: string, details: Details, createdById: UserId) returns (t: Ticket)
      requires Valid()
      modifies this
      ensures Valid()
      ensures t == Ticket(old(nextId), ticketType, details, Open, createdById, None, None, old(now))
      ensures rows == old(rows) + [t]
      ensures nextId == old(nextId) + 1 && now == old(now) + 1
    {
      t := Ticket(nextId, ticketType, details, Open, createdById, None, None, now);
      rows := rows + [t];
      nextId := nextId + 1;
      now := now + 1;
    }

    /** `Ticket.updateStatus`: set status, resolver and resolution time of the
        ticket with that id, whatever its current status; none when it is absent. */
    method UpdateStatus(id: nat, status: TicketStatus, resolvedById: UserId) returns (r: Option<Ticket>)
      requires Valid()
      modifies this
      ensures Valid() && nextId == old(nextId)
      ensures r.None? <==> FindById(old(rows), id).None?
      ensures r.None? ==> rows == old(rows) && now == old(now)
      ensures r.Some? ==> r == Some(FindById(old(rows), id).value.(status := status,
                                                                   assignedToId := Some(resolvedById),
                                                                   resolvedAt := Some(old(now))))
      ensures r.Some? ==> now == old(now) + 1 && rows == old(rows)[IndexOfId(old(rows), id).value := r.value]
    {
      var k := IndexOfId(rows, id);
      if k.None? {
        return None;
      }
      FindByIdIsTheRow(rows, nextId, now, k.value);
      var t := rows[k.value].(status := status, assignedToId := Some(resolvedById), resolvedAt := Some(now));
      ResolutionKeepsWellFormed(rows, nextId, now, k.value, t);
      rows := rows[k.value := t];
      now := now + 1;
      r := Some(t);
    }
  }
}
