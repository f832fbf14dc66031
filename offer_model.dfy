/** The site_offers table (src/models/offer.model.js): the site-wide banner offer.
    Setting an offer deactivates every row and inserts one new active row, in one
    transaction. */
module OfferModel {
  import opened Api

  datatype Offer = Offer(id: nat, description: string, isActive: bool, updatedAt: nat)

  ghost predicate WellFormed(rows: seq<Offer>, nextId: nat, now: nat)
  {
    && (forall i, j :: 0 <= i < j < |rows| ==> rows[i].id < rows[j].id && rows[i].updatedAt < rows[j].updatedAt)
    && (forall i :: 0 <= i < |rows| ==> rows[i].id < nextId && rows[i].updatedAt < now)
  }

  /** `Offer.findActive`: among the active rows, the one updated last; none when no
      row is active. Scanning from the newest row back finds it first. */
  function FindActive(rows: seq<Offer>): (r: Option<Offer>)
    ensures r.Some? ==> r.value in rows && r.value.isActive
    ensures r.None? <==> forall i :: 0 <= i < |rows| ==> !rows[i].isActive
  {
    if rows == [] then None
    else if rows[|rows| - 1].isActive then Some(rows[|rows| - 1])
    else FindActive(rows[..|rows| - 1])
  }

  /** In a well-formed table the offer found has the latest `updated_at` of all
      active offers (ORDER BY updated_at DESC LIMIT 1). */
  lemma {:induction false} FindActiveIsLatest(rows: seq<Offer>, nextId: nat, now: nat)
    requires WellFormed(rows, nextId, now)
    ensures FindActive(rows).Some? ==>
              forall i :: 0 <= i < |rows| && rows[i].isActive ==> rows[i].updatedAt <= FindActive(rows).value.updatedAt
  {
    if rows != [] && !rows[|rows| - 1].isActive {
      var init := rows[..|rows| - 1];
      assert WellFormed(init, nextId, now);
      FindActiveIsLatest(init, nextId, now);
      assert forall i :: 0 <= i < |init| ==> init[i] == rows[i];
    }
  }

  /** `UPDATE site_offers SET is_active = FALSE`: every row, inactive. */
  function Deactivated(rows: seq<Offer>): (r: seq<Offer>)
    ensures |r| == |rows|
    ensures forall i :: 0 <= i < |rows| ==> r[i] == rows[i].(isActive := false)
  {
    if rows == [] then [] else Deactivated(rows[..|rows| - 1]) + [rows[|rows| - 1].(isActive := false)]
  }

  /** After `set`, the inserted offer is the only active row and the one found. */
  lemma NewOfferIsOnlyActive(before: seq<Offer>, o: Offer)
    requires o.isActive
    ensures var after := Deactivated(before) + [o];
            && (forall i :: 0 <= i < |after| && after[i].isActive ==> i == |before|)
            && FindActive(after) == Some(o)
  {
  }

  class OfferTable {
    var rows: seq<Offer>
    var nextId: nat
    /** The table's clock, read as NOW() by an insert. */
    var now: nat

    ghost predicate Valid()
      reads this
    {
      WellFormed(rows, nextId, now)
    }

    constructor ()
      ensures Valid() && rows == [] && nextId == 1 && now == 0
    {
      rows := [];
      nextId, now := 1, 0;
    }

    /** `Offer.set`. The database may reject the insert (`insertFails`); ROLLBACK
        then undoes the deactivation as well, and the table is as before. On
        success no row is deleted: the old rows are kept, inactive, and the new
        active row is appended. */
    method Set(description: string, insertFails: bool) returns (r: Result<Offer>)
      requires Valid()
      modifies this
      ensures Valid()
      ensures insertFails ==> r == Failure(StorageFailure) && rows == old(rows)
                              && nextId == old(nextId) && now == old(now)
      ensures !insertFails ==>
                && r == Success(Offer(old(nextId), description, true, old(now)))
                && rows == Deactivated(old(rows)) + [r.value]
                && nextId == old(nextId) + 1 && now == old(now) + 1
    {
      // BEGIN: what ROLLBACK restores
      var rowsBefore, nextIdBefore, nowBefore := rows, nextId, now;
      rows := Deactivated(rows);
      if insertFails {
        // ROLLBACK
        rows, nextId, now := rowsBefore, nextIdBefore, nowBefore;
        return Failure(StorageFailure);
      }
      var o := Offer(nextId, description, true, now);
      rows := rows + [o];
      nextId := nextId + 1;
      now := now + 1;
      // COMMIT
      r := Success(o);
    }
  }
}
