/**
 * The domain-layer ProductService of the stock service. Its stock update is the same
 * read-check-write rule as the application-layer one, without the logging.
 */
module DomainProductServices {
  import opened Outcomes
  import opened Inventory

  class ProductService {
    /** The Products table as the context commits it. */
    var products: Catalog

    ghost predicate Valid()
      reads this
    {
      ValidCatalog(products)
    }

    constructor (initial: Catalog)
      ensures products == initial
    {
      products := initial;
    }

    /**
     * UpdateStockAsync: an unknown product throws not-found, a change below zero throws and is
     * rolled back; otherwise quantity becomes old + amount, committed and returned.
     */
    method UpdateStock(productId: int, amount: int) returns (r: Result<int>)
      modifies this
      ensures match Inventory.UpdateStock(old(products), productId, amount)
        case Updated(c, q) => r == Success(q) && products == c
        case Rejected(e) => r == Failure(e) && products == old(products)
      ensures r.Failure? ==> products == old(products)
      ensures r.Success? ==> r.value >= 0
      ensures old(Valid()) ==> Valid()
    {
      if productId !in products {
        return Failure(KeyNotFound);
      }
      var product := products[productId];
      if product.quantityInStock + amount < 0 {
        return Failure(InvalidOperation);
      }
      product := WithQuantity(product, product.quantityInStock + amount);
      products := products[productId := product];
      r := Success(product.quantityInStock);
    }
  }
}
