/** The pricing rules of createOrder (src/controllers/order.controller.js): the
    per-line stock check, the subtotal with price snapshots, the coupon lookup
    and the discount with its clamp at zero. */
module Pricing {
  import opened Api
  import opened Inventory
  import opened CouponModel

  /** A line that passed the stock check, with the price it is sold at. */
  datatype PricedLine = PricedLine(variantId: nat, quantity: int, priceAtPurchase: real)

  /** The check createOrder makes of one line, against the stock as it was read. */
  predicate Available(variants: map<nat, Variant>, line: LineRequest)
  {
    line.variantId in variants && variants[line.variantId].stock >= line.quantity
  }

  /** A line naming a missing variant never passes the check. Nothing bounds
      the quantity from below, so a quantity of zero or less passes whenever the
      variant exists and its stock is not negative. */
  lemma AvailableCases(variants: map<nat, Variant>, line: LineRequest)
    ensures line.variantId !in variants ==> !Available(variants, line)
    ensures line.variantId in variants && line.quantity <= 0 <= variants[line.variantId].stock ==> Available(variants, line)
  {
  }

  /** The first line that fails the check, the one createOrder reports. */
  function FirstUnavailable(variants: map<nat, Variant>, products: seq<LineRequest>): (k: Option<nat>)
    ensures k.Some? ==> k.value < |products| && !Available(variants, products[k.value])
                        && forall j :: 0 <= j < k.value ==> Available(variants, products[j])
    ensures k.None? <==> forall j :: 0 <= j < |products| ==> Available(variants, products[j])
  {
    if products == [] then None
    else if !Available(variants, products[0]) then Some(0)
    else
      var rest := FirstUnavailable(variants, products[1..]);
      if rest.None? then None else Some(rest.value + 1)
  }

  /** The lines with the unit price of their variant at order time. */
  function Priced(variants: map<nat, Variant>, products: seq<LineRequest>): (r: seq<PricedLine>)
    requires forall j :: 0 <= j < |products| ==> products[j].variantId in variants
    ensures |r| == |products|
    ensures forall j :: 0 <= j < |products| ==>
              r[j] == PricedLine(products[j].variantId, products[j].quantity, variants[products[j].variantId].unitPrice)
  {
    seq(|products|, j requires 0 <= j < |products| =>
      PricedLine(products[j].variantId, products[j].quantity, variants[products[j].variantId].unitPrice))
  }

  /** Pricing one more line appends its priced line. */
  lemma PricedStep(variants: map<nat, Variant>, products: seq<LineRequest>, i: nat)
    requires i < |products|
    requires forall j :: 0 <= j <= i ==> products[j].variantId in variants
    ensures Priced(variants, products[..i + 1])
            == Priced(variants, products[..i])
               + [PricedLine(products[i].variantId, products[i].quantity, variants[products[i].variantId].unitPrice)]
  {
  }

  /** Sum over the lines of price times quantity, added up in list order. With
      non-negative prices and quantities it is not negative. */
  function Subtotal(lines: seq<PricedLine>): (s: real)
    ensures (forall j :: 0 <= j < |lines| ==> lines[j].priceAtPurchase >= 0.0 && lines[j].quantity >= 0) ==> s >= 0.0
  {
    if lines == [] then 0.0
    else
      var last := lines[|lines| - 1];
      Subtotal(lines[..|lines| - 1]) + last.priceAtPurchase * (last.quantity as real)
  }

  /** The subtotal of a list split in two is the sum of the two subtotals. */
  lemma {:induction false} SubtotalAppend(a: seq<PricedLine>, b: seq<PricedLine>)
    ensures Subtotal(a + b) == Subtotal(a) + Subtotal(b)
  {
    if b == [] {
      assert a + b == a;
    } else {
      assert (a + b)[..|a + b| - 1] == a + b[..|b| - 1];
      SubtotalAppend(a, b[..|b| - 1]);
    }
  }

  /** The coupon createOrder applies. An empty code means none was supplied; a
      supplied code must name an 'Active' coupon. */
  function ResolveCoupon(coupons: seq<Coupon>, couponCode: string): (r: Result<Option<Coupon>>)
    ensures couponCode == "" ==> r == Success(None)
    ensures couponCode != "" ==>
              (r == Failure(InvalidCoupon) <==> FindByCode(coupons, couponCode).None? || FindByCode(coupons, couponCode).value.status != Active)
    ensures r.Success? && r.value.Some? ==>
              && couponCode != "" && r.value.value in coupons
              && r.value.value.code == couponCode && r.value.value.status == Active
    ensures r.Failure? ==> r.error == InvalidCoupon
  {
    if couponCode == "" then Success(None)
    else
      var c := FindByCode(coupons, couponCode);
      if c.None? || c.value.status != Active then Failure(InvalidCoupon) else Success(Some(c.value))
  }

  /** The discount a coupon grants on a subtotal: a share of it for the type
      "percentage" (exact, case-sensitive), the face value for any other type.
      A percentage between 0 and 100 never takes more than the subtotal. */
  function Discount(subtotal: real, coupon: Coupon): (d: real)
    ensures coupon.discountType == "percentage" && 0.0 <= coupon.discountValue <= 100.0 && subtotal >= 0.0 ==>
              0.0 <= d <= subtotal
  {
    if coupon.discountType == "percentage" then
      var v := coupon.discountValue;
      assert 0.0 <= v <= 100.0 && subtotal >= 0.0 ==> subtotal * v <= subtotal * 100.0 by {
        if 0.0 <= v <= 100.0 && subtotal >= 0.0 {
          ProductOfNonNegatives(subtotal, 100.0 - v);
        }
      }
      assert 0.0 <= v && subtotal >= 0.0 ==> subtotal * v >= 0.0 by {
        if 0.0 <= v && subtotal >= 0.0 {
          ProductOfNonNegatives(subtotal, v);
        }
      }
      subtotal * v / 100.0
    else coupon.discountValue
  }

  /** The amount stored as the order total. Only a coupon triggers the clamp. */
  function Total(subtotal: real, coupon: Option<Coupon>): (t: real)
    ensures coupon.None? ==> t == subtotal
    ensures coupon.Some? ==> t >= 0.0 && t >= subtotal - Discount(subtotal, coupon.value)
    ensures coupon.Some? ==> (t == 0.0 || t == subtotal - Discount(subtotal, coupon.value))
    ensures coupon.Some? && subtotal >= 0.0 && Discount(subtotal, coupon.value) >= 0.0 ==> t <= subtotal
  {
    if coupon.None? then subtotal
    else
      var discounted := subtotal - Discount(subtotal, coupon.value);
      if discounted > 0.0 then discounted else 0.0
  }

  /** A fixed discount larger than the subtotal makes the order free, not negative. */
  lemma FixedDiscountBeyondSubtotalIsFree(subtotal: real, coupon: Coupon)
    requires coupon.discountType != "percentage" && coupon.discountValue > subtotal
    ensures Total(subtotal, Some(coupon)) == 0.0
  {
  }

  /** A percentage coupon of at most 100 takes exactly that share off a
      non-negative subtotal; the clamp never fires. */
  lemma PercentageTakesShare(subtotal: real, coupon: Coupon)
    requires coupon.discountType == "percentage"
    requires 0.0 <= coupon.discountValue <= 100.0 && subtotal >= 0.0
    ensures Total(subtotal, Some(coupon)) == subtotal * (100.0 - coupon.discountValue) / 100.0
  {
    var v := coupon.discountValue;
    var share := subtotal * (100.0 - v);
    ProductOfNonNegatives(subtotal, 100.0 - v);
    assert subtotal * v == subtotal * 100.0 - share;
    assert Discount(subtotal, coupon) == subtotal * v / 100.0;
    assert subtotal - subtotal * v / 100.0 == share / 100.0;
  }

  /** The product of two non-negative reals is not negative: the one step of
      non-linear arithmetic the discount proofs need. */
  lemma ProductOfNonNegatives(a: real, b: real)
    requires a >= 0.0 && b >= 0.0
    ensures a * b >= 0.0
  {
  }

  /** Ten per cent off a subtotal of 100 leaves 90. */
  lemma TenPercentOfHundred(coupon: Coupon)
    requires coupon.discountType == "percentage" && coupon.discountValue == 10.0
    ensures Total(100.0, Some(coupon)) == 90.0
  {
  }

  /** A type spelled "Percentage" is not a percentage coupon: its value is taken
      off as a fixed amount. */
  lemma PercentageTypeIsCaseSensitive(subtotal: real, coupon: Coupon)
    requires coupon.discountType == "Percentage"
    ensures Discount(subtotal, coupon) == coupon.discountValue
  {
    assert coupon.discountType[0] != "percentage"[0];
  }
}
