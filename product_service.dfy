/** The application-layer ProductService of the stock service: the product table and its ledger. */
module ProductServices {
  import opened Outcomes
  import opened Inventory

  class ProductService {
    /** The Products table as the context commits it. */
    var products: Catalog

    ghost predicate Valid()
      reads this
    {
      ValidCatalog(products)
    }

    constructor (initial: Catalog)
      ensures products == initial
    {
      products := initial;
    }

    /**
     * Adds the product; the store generates its key (an input here, required unused), which
     * the returned product carries.
     */
    method CreateProduct(product: Product, newId: int) returns (created: Product)
      requires newId !in products
      modifies this
      ensures created == product.(productId := newId)
      ensures products == old(products)[newId := created]
      ensures GetProductById(newId) == Some(created)
      ensures old(Valid()) && product.quantityInStock >= 0 ==> Valid()
    {
      created := product.(productId := newId);
      products := products[newId := created];
    }

    /** The product with that id, or none (null) when there is none. */
    function GetProductById(id: int): (r: Option<Product>)
      reads this
      ensures r.Some? <==> id in products
      ensures r.Some? ==> r.value == products[id]
    {
      if id in products then Some(products[id]) else None
    }

    /**
     * UpdateStockAsync: read, check, write inside one transaction. An unknown product and a
     * change that would go below zero throw with nothing written (the transaction is rolled
     * back); otherwise the new quantity is committed and returned.
     */
    method UpdateStock(productId: int, amount: int) returns (r: Result<int>)
      modifies this
      ensures match Inventory.UpdateStock(old(products), productId, amount)
        case Updated(c, q) => r == Success(q) && products == c
        case Rejected(e) => r == Failure(e) && products == old(products)
      ensures r.Failure? <==> productId !in old(products) || old(products)[productId].quantityInStock + amount < 0
      ensures r.Success? ==> r.value == old(products)[productId].quantityInStock + amount
      ensures old(Valid()) ==> Valid()
    {
      if productId !in products {
        return Failure(KeyNotFound);
      }
      var product := products[productId];
      if product.quantityInStock + amount < 0 {
        return Failure(InvalidOperation);
      }
      product := WithQuantity(product, product.quantityInStock + amount);
      products := products[productId := product];
      r := Success(product.quantityInStock);
    }
  }
}
