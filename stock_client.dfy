/**
 * The sales service's client of the stock service. The remote calls are modelled as calls
 * on the stock service's own ProductService: a lookup answered by the product table (404
 * gives none) and PATCH stock requests whose refusal (400) or rejection comes back as false.
 */
module StockClients {
  import opened Outcomes
  import opened Inventory
  import opened SaleItems
  import ProductServices

  /** The product lookup reply: name, unit price (cents) and quantity in stock. */
  datatype ProductStockInfo = ProductStockInfo(productId: int, productName: string, unitPrice: int, stockQuantity: int)

  class StockClient {
    const inventory: ProductServices.ProductService

    constructor (inventory: ProductServices.ProductService)
      ensures this.inventory == inventory
    {
      this.inventory := inventory;
    }

    /** GetProductStockAsync: the product's price and stock, or none when it is unknown. */
    function GetProductStock(productId: int): (r: Option<ProductStockInfo>)
      reads inventory
      ensures r.Some? <==> productId in inventory.products
      ensures r.Some? ==> var p := inventory.products[productId];
        r.value == ProductStockInfo(p.productId, p.name, p.price, p.quantityInStock)
    {
      if productId in inventory.products then
        var p := inventory.products[productId];
        Some(ProductStockInfo(p.productId, p.name, p.price, p.quantityInStock))
      else None
    }

    /**
     * DecreaseStockAsync: sends the change -quantity to the stock endpoint; a 400 for an
     * amount out of range and a rejection by the ledger both become false.
     */
    method DecreaseStock(productId: int, quantity: int) returns (ok: bool)
      modifies inventory
      ensures match PatchStock(old(inventory.products), productId, Taken(quantity))
        case Updated(c, _) => ok && inventory.products == c
        case Rejected(_) => !ok && inventory.products == old(inventory.products)
    {
      ok := Send(productId, Taken(quantity));
    }

    /**
     * IncreaseStockAsync: sends the change +quantity to the stock endpoint; a 400 for an
     * amount out of range and a rejection by the ledger both become false.
     */
    method IncreaseStock(productId: int, quantity: int) returns (ok: bool)
      modifies inventory
      ensures match PatchStock(old(inventory.products), productId, quantity)
        case Updated(c, _) => ok && inventory.products == c
        case Rejected(_) => !ok && inventory.products == old(inventory.products)
    {
      ok := Send(productId, quantity);
    }

    /**
     * SendRequestWithResilience for a PATCH stock request: the body is validated first, then
     * the service updates the stock; a non-success status is reported as false.
     */
    method Send(productId: int, amount: int) returns (ok: bool)
      modifies inventory
      ensures match PatchStock(old(inventory.products), productId, amount)
        case Updated(c, _) => ok && inventory.products == c
        case Rejected(_) => !ok && inventory.products == old(inventory.products)
    {
      if !InTransactionRange(amount) {
        return false;
      }
      var r := inventory.UpdateStock(productId, amount);
      ok := r.Success?;
    }
  }

  /** The amount a decrease of q sends: its negation. */
  function Taken(q: int): int {
    -q
  }

  /** The changes a payment requests: each item's quantity taken out, in item order. */
  function DecreaseChanges(items: seq<SaleItem>): (r: seq<StockChange>)
    ensures |r| == |items|
    ensures forall i :: 0 <= i < |r| ==> r[i] == StockChange(items[i].productId, Taken(items[i].quantity))
  {
    seq(|items|, i requires 0 <= i < |items| => StockChange(items[i].productId, Taken(items[i].quantity)))
  }

  /** The changes a cancellation requests: each item's quantity put back, in item order. */
  function IncreaseChanges(items: seq<SaleItem>): (r: seq<StockChange>)
    ensures |r| == |items|
    ensures forall i :: 0 <= i < |r| ==> r[i] == StockChange(items[i].productId, items[i].quantity)
  {
    seq(|items|, i requires 0 <= i < |items| => StockChange(items[i].productId, items[i].quantity))
  }

  /** One step of the decrease run of a sale's items: an applied decrease moves it on, a refused one ends it. */
  lemma DecreaseRunStep(start: Catalog, items: seq<SaleItem>, i: int, c: Catalog)
    requires 0 <= i < |items| && RunReaches(start, DecreaseChanges(items), i, c)
    ensures var step := PatchStock(c, items[i].productId, Taken(items[i].quantity));
      && (step.Updated? ==> RunReaches(start, DecreaseChanges(items), i + 1, step.catalog))
      && (step.Rejected? ==> ApplyInOrder(start, DecreaseChanges(items)) == Applied(c, i))
  {
    var changes := DecreaseChanges(items);
    assert changes[i] == StockChange(items[i].productId, Taken(items[i].quantity));
    if PatchStock(c, items[i].productId, Taken(items[i].quantity)).Updated? {
      RunAdvances(start, changes, i, c);
    } else {
      RunHalts(start, changes, i, c);
    }
  }

  /** One step of the return run of a sale's items: an applied increase moves it on, a refused one ends it. */
  lemma IncreaseRunStep(start: Catalog, items: seq<SaleItem>, i: int, c: Catalog)
    requires 0 <= i < |items| && RunReaches(start, IncreaseChanges(items), i, c)
    ensures var step := PatchStock(c, items[i].productId, items[i].quantity);
      && (step.Updated? ==> RunReaches(start, IncreaseChanges(items), i + 1, step.catalog))
      && (step.Rejected? ==> ApplyInOrder(start, IncreaseChanges(items)) == Applied(c, i))
  {
    var changes := IncreaseChanges(items);
    assert changes[i] == StockChange(items[i].productId, items[i].quantity);
    if PatchStock(c, items[i].productId, items[i].quantity).Updated? {
      RunAdvances(start, changes, i, c);
    } else {
      RunHalts(start, changes, i, c);
    }
  }

  /** Returning stock requests exactly the negation of what paying took. */
  lemma IncreaseUndoesDecrease(items: seq<SaleItem>)
    ensures IncreaseChanges(items) == Negated(DecreaseChanges(items))
  {
  }
}
