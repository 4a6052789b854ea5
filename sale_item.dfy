/**
 * A line item of a sale. All of its properties have private setters that only the
 * constructor assigns, so it is a value: a datatype. Prices are in cents.
 */
module SaleItems {

  /**
   * The item as constructed: sale id, product id, quantity and unit price are stored as
   * passed, and none of them is validated (zero or negative values are accepted).
   */
  datatype SaleItem = SaleItem(saleId: int, productId: int, quantity: int, unitPrice: int)
  {
    /**
     * Quantity times unit price, computed from the current fields. Nothing is validated,
     * so a negative quantity at a positive price gives a negative subtotal.
     */
    function Subtotal(): (s: int)
      ensures quantity >= 0 && unitPrice >= 0 ==> s >= 0
      ensures quantity < 0 && unitPrice > 0 ==> s < 0
      ensures quantity == 0 || unitPrice == 0 ==> s == 0
    {
      quantity * unitPrice
    }
  }

  /** The sum of the subtotals of a list of items, as LINQ's Sum computes it. */
  function Total(items: seq<SaleItem>): (t: int)
    ensures items == [] ==> t == 0
    ensures (forall i :: 0 <= i < |items| ==> items[i].Subtotal() >= 0) ==> t >= 0
    ensures (forall i :: 0 <= i < |items| ==> items[i].Subtotal() <= 0) ==> t <= 0
    decreases |items|
  {
    if items == [] then 0 else items[0].Subtotal() + Total(items[1..])
  }

  /** The total of two lists one after the other is the sum of their totals. */
  lemma {:induction false} TotalOfConcat(a: seq<SaleItem>, b: seq<SaleItem>)
    ensures Total(a + b) == Total(a) + Total(b)
    decreases |a|
  {
    if a == [] {
      assert a + b == b;
    } else {
      assert (a + b)[1..] == a[1..] + b;
      TotalOfConcat(a[1..], b);
    }
  }

  /** Appending one item adds exactly its subtotal to the total. */
  lemma TotalOfAppend(items: seq<SaleItem>, item: SaleItem)
    ensures Total(items + [item]) == Total(items) + item.Subtotal()
  {
    TotalOfConcat(items, [item]);
  }
}
