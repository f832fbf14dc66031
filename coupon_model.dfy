/** The coupons table (src/models/coupon.model.js): insert, lookup by id or by
    code, and the status update used when a coupon ticket is resolved. */
module CouponModel {
  import opened Api

  datatype CouponStatus = PendingApproval | Active | Denied

  /** A row of the coupons table. `discountType` is free text: pricing treats only
      the exact string "percentage" as a percentage. Expiry and usage limit are
      stored but nothing in the workflow reads them. */
  datatype Coupon = Coupon(
    id: nat,
    code: string,
    discountType: string,
    discountValue: real,
    expiryDate: Option<nat>,
    usageLimit: Option<int>,
    createdBy: UserId,
    status: CouponStatus)

  /** Ids are handed out in increasing order below the next serial value, and the
      unique constraint keeps codes distinct. */
  ghost predicate WellFormed(rows: seq<Coupon>, nextId: nat)
  {
    && (forall i, j :: 0 <= i < j < |rows| ==> rows[i].id < rows[j].id && rows[i].code != rows[j].code)
    && (forall i :: 0 <= i < |rows| ==> rows[i].id < nextId)
  }

  /** Position of the row with the given id (the row `WHERE id = $1` selects). */
  function IndexOfId(rows: seq<Coupon>, id: nat): (k: Option<nat>)
    ensures k.Some? ==> k.value < |rows| && rows[k.value].id == id
    ensures k.None? <==> forall i :: 0 <= i < |rows| ==> rows[i].id != id
  {
    if rows == [] then None
    else if rows[|rows| - 1].id == id then Some(|rows| - 1)
    else IndexOfId(rows[..|rows| - 1], id)
  }

  /** `Coupon.findById`: the coupon with that id, or none. */
  function FindById(rows: seq<Coupon>, id: nat): (r: Option<Coupon>)
    ensures r.Some? ==> r.value in rows && r.value.id == id
    ensures r.None? <==> forall i :: 0 <= i < |rows| ==> rows[i].id != id
  {
    var k := IndexOfId(rows, id);
    if k.Some? then Some(rows[k.value]) else None
  }

  /** `Coupon.findByCode`: the coupon whose code equals `code` exactly, or none. */
  function FindByCode(rows: seq<Coupon>, code: string): (r: Option<Coupon>)
    ensures r.Some? ==> r.value in rows && r.value.code == code
    ensures r.None? <==> forall i :: 0 <= i < |rows| ==> rows[i].code != code
  {
    if rows == [] then None
    else if rows[|rows| - 1].code == code then Some(rows[|rows| - 1])
    else FindByCode(rows[..|rows| - 1], code)
  }

  /** In a well-formed table the lookup by id finds exactly the row carrying that id. */
  lemma FindByIdIsTheRow(rows: seq<Coupon>, nextId: nat, i: nat)
    requires WellFormed(rows, nextId) && i < |rows|
    ensures FindById(rows, rows[i].id) == Some(rows[i])
  {
    var k := IndexOfId(rows, rows[i].id);
    assert k.Some?;
  }

  /** In a well-formed table the lookup by code finds exactly the row carrying that code. */
  lemma {:induction false} FindByCodeIsTheRow(rows: seq<Coupon>, nextId: nat, i: nat)
    requires WellFormed(rows, nextId) && i < |rows|
    ensures FindByCode(rows, rows[i].code) == Some(rows[i])
  {
    if i < |rows| - 1 {
      assert rows[|rows| - 1].code != rows[i].code;
      assert WellFormed(rows[..|rows| - 1], nextId);
      FindByCodeIsTheRow(rows[..|rows| - 1], nextId, i);
    }
  }

  /** Changing only statuses keeps a table well formed. */
  lemma StatusChangeKeepsWellFormed(rows: seq<Coupon>, nextId: nat, k: nat, s: CouponStatus)
    requires WellFormed(rows, nextId) && k < |rows|
    ensures WellFormed(rows[k := rows[k].(status := s)], nextId)
  {
    var after := rows[k := rows[k].(status := s)];
    assert forall i :: 0 <= i < |rows| ==> after[i].id == rows[i].id && after[i].code == rows[i].code;
  }

  class CouponTable {
    var rows: seq<Coupon>
    var nextId: nat

    ghost predicate Valid()
      reads this
    {
      WellFormed(rows, nextId)
    }

    constructor ()
      ensures Valid() && rows == [] && nextId == 1
    {
      rows := [];
      nextId := 1;
    }

    /** `Coupon.create`: insert one coupon carrying the given fields; the column
        default makes it 'Pending Approval'. The table's unique constraint on
        `code` rejects a code that is already present, and nothing is inserted. */
    method Create(code: string, discountType: string, discountValue: real,
                  expiryDate: Option<nat>, usageLimit: Option<int>, createdBy: UserId)
      returns (r: Result<Coupon>)
      requires Valid()
      modifies this
      ensures Valid()
      ensures FindByCode(old(rows), code).Some? ==> r == Failure(DuplicateCode) && rows == old(rows) && nextId == old(nextId)
      ensures FindByCode(old(rows), code).None? ==>
                && r == Success(Coupon(old(nextId), code, discountType, discountValue,
                                       expiryDate, usageLimit, createdBy, PendingApproval))
                && rows == old(rows) + [r.value]
                && nextId == old(nextId) + 1
    {
      if FindByCode(rows, code).Some? {
        return Failure(DuplicateCode);
      }
      var c := Coupon(nextId, code, discountType, discountValue, expiryDate, usageLimit, createdBy, PendingApproval);
      rows := rows + [c];
      nextId := nextId + 1;
      r := Success(c);
    }

    /** `Coupon.updateStatus`: set the status of the coupon with that id, whatever
        it was, and return the updated row; none when no coupon has that id. */
    method UpdateStatus(id: nat, status: CouponStatus) returns (r: Option<Coupon>)
      requires Valid()
      modifies this
      ensures Valid() && nextId == old(nextId)
      ensures r.None? <==> FindById(old(rows), id).None?
      ensures r.None? ==> rows == old(rows)
      ensures r.Some? ==> r == Some(FindById(old(rows), id).value.(status := status))
      ensures r.Some? ==> rows == old(rows)[IndexOfId(old(rows), id).value := r.value]
    {
      var k := IndexOfId(rows, id);
      if k.None? {
        return None;
      }
      FindByIdIsTheRow(rows, nextId, k.value);
      StatusChangeKeepsWellFormed(rows, nextId, k.value, status);
      r := Some(rows[k.value].(status := status));
      rows := rows[k.value := r.value];
    }
  }
}
