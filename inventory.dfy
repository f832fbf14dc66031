/** The product_variants table as the order workflow sees it: each variant's
    stock count and the unit price that createOrder reads from the variant's base
    product (`products.original_price`). */
module Inventory {
  import opened Api

  /** A stock count of type int: the per-line stock check lets a duplicated
      variant push it below zero (see DuplicateLinesCanOversell). */
  datatype Variant = Variant(stock: int, unitPrice: real)

  /** One entry of a new order's `products` list. The source never checks the quantity. */
  datatype LineRequest = LineRequest(variantId: nat, quantity: int)

  /** Sum of the quantities that `products` asks of variant `v`. */
  function QuantityOf(products: seq<LineRequest>, v: nat): int
  {
    if products == [] then 0
    else QuantityOf(products[..|products| - 1], v)
         + (if products[|products| - 1].variantId == v then products[|products| - 1].quantity else 0)
  }

  /** The variants after the stock UPDATE of every line of `products`, run in order.
      An UPDATE naming a missing variant matches no row and changes nothing. */
  function Decremented(variants: map<nat, Variant>, products: seq<LineRequest>): (r: map<nat, Variant>)
    ensures r.Keys == variants.Keys
  {
    if products == [] then variants
    else
      var before := Decremented(variants, products[..|products| - 1]);
      var line := products[|products| - 1];
      if line.variantId in before
      then before[line.variantId := before[line.variantId].(stock := before[line.variantId].stock - line.quantity)]
      else before
  }

  /** Every variant loses exactly the total quantity ordered of it; prices do not move. */
  lemma {:induction false} DecrementedStock(variants: map<nat, Variant>, products: seq<LineRequest>, v: nat)
    requires v in variants
    ensures v in Decremented(variants, products)
    ensures Decremented(variants, products)[v].stock == variants[v].stock - QuantityOf(products, v)
    ensures Decremented(variants, products)[v].unitPrice == variants[v].unitPrice
  {
    if products != [] {
      DecrementedStock(variants, products[..|products| - 1], v);
    }
  }

  /** Running the UPDATE of one more line on top of the earlier ones. */
  lemma DecrementedStep(variants: map<nat, Variant>, products: seq<LineRequest>, k: nat)
    requires k < |products|
    ensures Decremented(variants, products[..k + 1]) == Decremented(Decremented(variants, products[..k]), [products[k]])
  {
    assert products[..k + 1][..k] == products[..k];
    assert [products[k]][..0] == [];
  }

  /** A variant no line names keeps its row exactly. */
  lemma {:induction false} UnorderedVariantUntouched(variants: map<nat, Variant>, products: seq<LineRequest>, v: nat)
    requires v in variants
    requires forall j :: 0 <= j < |products| ==> products[j].variantId != v
    ensures Decremented(variants, products)[v] == variants[v]
  {
    if products != [] {
      UnorderedVariantUntouched(variants, products[..|products| - 1], v);
    }
  }

  /** The stock check compares each line with the stock before any decrement, so
      two lines of 2 against a stock of 3 both pass and leave the stock at -1. */
  lemma DuplicateLinesCanOversell()
    ensures var variants := map[7 := Variant(3, 10.0)];
            var products := [LineRequest(7, 2), LineRequest(7, 2)];
            (forall j :: 0 <= j < |products| ==> variants[products[j].variantId].stock >= products[j].quantity)
            && Decremented(variants, products)[7].stock == -1
  {
    var variants := map[7 := Variant(3, 10.0)];
    var products := [LineRequest(7, 2), LineRequest(7, 2)];
    assert products[..1][..0] == [];
    assert products[..1] == [LineRequest(7, 2)];
    assert Decremented(variants, products[..1])[7].stock == 1;
  }

  /** A line with a negative quantity passes the stock check and raises the stock. */
  lemma NegativeQuantityRestocks(variants: map<nat, Variant>, v: nat, q: int)
    requires v in variants && variants[v].stock >= 0 && q < 0
    ensures variants[v].stock >= q
    ensures Decremented(variants, [LineRequest(v, q)])[v].stock > variants[v].stock
  {
    assert [LineRequest(v, q)][..0] == [];
  }

  /** The product_variants table. Rows are created by catalogue management, which
      is not part of this model; createOrder only lowers stock counts. */
  class VariantTable {
    var variants: map<nat, Variant>

    constructor (initial: map<nat, Variant>)
      ensures variants == initial
    {
      variants := initial;
    }

    /** `UPDATE product_variants SET stock_quantity = stock_quantity - quantity WHERE id = variantId`. */
    method Decrement(variantId: nat, quantity: int)
      modifies this
      ensures variants == Decremented(old(variants), [LineRequest(variantId, quantity)])
    {
      assert [LineRequest(variantId, quantity)][..0] == [];
      if variantId in variants {
        variants := variants[variantId := variants[variantId].(stock := variants[variantId].stock - quantity)];
      }
    }
  }
}
