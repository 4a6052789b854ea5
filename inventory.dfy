/**
 * The inventory ledger rule shared by both ProductService classes of the stock service:
 * a single-product read-check-write that never drives a quantity negative. Prices are in
 * cents. The product table is a map from product id to row.
 */
module Inventory {
  import opened Outcomes

  datatype Product = Product(productId: int, name: string, description: string, price: int, quantityInStock: int)

  /** The Products table, keyed by product id. */
  type Catalog = map<int, Product>

  /** Each row sits under its own id and no quantity in stock is negative. */
  predicate ValidCatalog(c: Catalog) {
    forall k :: k in c ==> c[k].productId == k && c[k].quantityInStock >= 0
  }

  /** The row with the quantity replaced. */
  function WithQuantity(p: Product, q: int): Product {
    p.(quantityInStock := q)
  }

  /** What an UpdateStockAsync call does: the committed table and the new quantity, or the exception. */
  datatype StockUpdate = Updated(catalog: Catalog, newQuantity: int) | Rejected(error: Error)

  /**
   * UpdateStockAsync: an unknown product throws not-found, a change that would leave the
   * quantity negative throws and is rolled back; otherwise the quantity becomes old + amount
   * and that value is returned. Nothing but that one quantity changes.
   */
  function UpdateStock(c: Catalog, productId: int, amount: int): (r: StockUpdate)
    ensures r.Rejected? <==> productId !in c || c[productId].quantityInStock + amount < 0
    ensures r.Rejected? ==> r.error == (if productId !in c then KeyNotFound else InvalidOperation)
    ensures r.Updated? ==> r.newQuantity == c[productId].quantityInStock + amount && r.newQuantity >= 0
    ensures r.Updated? ==> r.catalog.Keys == c.Keys
    ensures r.Updated? ==> r.catalog[productId] == WithQuantity(c[productId], r.newQuantity)
    ensures r.Updated? ==> forall k :: k in c && k != productId ==> r.catalog[k] == c[k]
  {
    if productId !in c then
      Rejected(KeyNotFound)
    else if c[productId].quantityInStock + amount < 0 then
      Rejected(InvalidOperation)
    else
      var q := c[productId].quantityInStock + amount;
      Updated(c[productId := WithQuantity(c[productId], q)], q)
  }

  /** A valid table stays valid: no call can make a quantity negative. */
  lemma UpdateKeepsValid(c: Catalog, productId: int, amount: int)
    requires ValidCatalog(c)
    ensures UpdateStock(c, productId, amount).Updated? ==> ValidCatalog(UpdateStock(c, productId, amount).catalog)
  {
  }

  /** Updating by an amount and then by its negation succeeds and restores the table. */
  lemma UpdateThenUndo(c: Catalog, productId: int, amount: int)
    requires ValidCatalog(c)
    requires UpdateStock(c, productId, amount).Updated?
    ensures var once := UpdateStock(c, productId, amount).catalog;
      && UpdateStock(once, productId, -amount).Updated?
      && UpdateStock(once, productId, -amount).catalog == c
  {
    var once := UpdateStock(c, productId, amount).catalog;
    var twice := UpdateStock(once, productId, -amount).catalog;
    assert twice[productId] == c[productId];
    assert twice.Keys == c.Keys;
  }

  /** The largest amount, either way, the stock endpoint's request body accepts. */
  const MaxTransactionAmount := 10000

  /** An amount within the Range(-10000, 10000) attribute of the stock request body. */
  predicate InTransactionRange(amount: int) {
    -MaxTransactionAmount <= amount <= MaxTransactionAmount
  }

  /**
   * PATCH api/products/{id}/stock: model validation refuses an amount out of range with a
   * 400 before the service runs; any other amount goes to the ledger rule.
   */
  function PatchStock(c: Catalog, productId: int, amount: int): (r: StockUpdate)
    ensures InTransactionRange(amount) ==> r == UpdateStock(c, productId, amount)
    ensures !InTransactionRange(amount) ==> r == Rejected(BadRequest)
  {
    if InTransactionRange(amount) then UpdateStock(c, productId, amount) else Rejected(BadRequest)
  }

  /** A request the endpoint accepts is accepted by the ledger with an amount in range. */
  lemma PatchAcceptsWithinRange(c: Catalog, productId: int, amount: int)
    ensures PatchStock(c, productId, amount).Updated? <==>
      InTransactionRange(amount) && productId in c && c[productId].quantityInStock + amount >= 0
  {
  }

  /** One requested change of one product's quantity. */
  datatype StockChange = StockChange(productId: int, amount: int)

  /** The table after a run of changes and how many of them were applied. */
  datatype Applied = Applied(catalog: Catalog, count: nat)

  /**
   * Sends the changes one after another to the stock endpoint and stops at the first one it
   * refuses: earlier changes stay applied, later ones are not attempted.
   */
  function ApplyInOrder(c: Catalog, changes: seq<StockChange>): (r: Applied)
    ensures r.count <= |changes|
    decreases |changes|
  {
    if changes == [] then Applied(c, 0)
    else
      match PatchStock(c, changes[0].productId, changes[0].amount)
      case Rejected(_) => Applied(c, 0)
      case Updated(next, _) =>
        var rest := ApplyInOrder(next, changes[1..]);
        Applied(rest.catalog, rest.count + 1)
  }

  /**
   * A run from start over all changes agrees with the run from c over the changes from
   * position i on, after i changes were applied.
   */
  ghost predicate RunReaches(start: Catalog, changes: seq<StockChange>, i: int, c: Catalog)
    requires 0 <= i <= |changes|
  {
    && ApplyInOrder(start, changes).catalog == ApplyInOrder(c, changes[i..]).catalog
    && ApplyInOrder(start, changes).count == i + ApplyInOrder(c, changes[i..]).count
  }

  lemma RunBegins(start: Catalog, changes: seq<StockChange>)
    ensures RunReaches(start, changes, 0, start)
  {
    assert changes[0..] == changes;
  }

  /** An applied change moves the run one position on. */
  lemma RunAdvances(start: Catalog, changes: seq<StockChange>, i: int, c: Catalog)
    requires 0 <= i < |changes| && RunReaches(start, changes, i, c)
    requires PatchStock(c, changes[i].productId, changes[i].amount).Updated?
    ensures RunReaches(start, changes, i + 1, PatchStock(c, changes[i].productId, changes[i].amount).catalog)
  {
    assert changes[i..][0] == changes[i] && changes[i..][1..] == changes[i + 1..];
  }

  /** A rejected change ends the run where it stands. */
  lemma RunHalts(start: Catalog, changes: seq<StockChange>, i: int, c: Catalog)
    requires 0 <= i < |changes| && RunReaches(start, changes, i, c)
    requires PatchStock(c, changes[i].productId, changes[i].amount).Rejected?
    ensures ApplyInOrder(start, changes) == Applied(c, i)
  {
    assert changes[i..][0] == changes[i];
  }

  /** Past the last change the run is complete. */
  lemma RunEnds(start: Catalog, changes: seq<StockChange>, c: Catalog)
    requires RunReaches(start, changes, |changes|, c)
    ensures ApplyInOrder(start, changes) == Applied(c, |changes|)
  {
    assert changes[|changes|..] == [];
  }

  /** The run ends either with every change applied or at a change the ledger rejects. */
  lemma {:induction false} ApplyStopsAtRejection(c: Catalog, changes: seq<StockChange>)
    ensures var r := ApplyInOrder(c, changes);
      r.count < |changes| ==>
        PatchStock(r.catalog, changes[r.count].productId, changes[r.count].amount).Rejected?
    decreases |changes|
  {
    if changes != [] {
      match PatchStock(c, changes[0].productId, changes[0].amount)
      case Rejected(_) =>
      case Updated(next, _) =>
        ApplyStopsAtRejection(next, changes[1..]);
    }
  }

  /** A run keeps the key set and keeps every quantity non-negative. */
  lemma {:induction false} ApplyKeepsValid(c: Catalog, changes: seq<StockChange>)
    requires ValidCatalog(c)
    ensures ValidCatalog(ApplyInOrder(c, changes).catalog)
    ensures ApplyInOrder(c, changes).catalog.Keys == c.Keys
    decreases |changes|
  {
    if changes != [] {
      match PatchStock(c, changes[0].productId, changes[0].amount)
      case Rejected(_) =>
      case Updated(next, _) =>
        ApplyKeepsValid(next, changes[1..]);
    }
  }

  /** Products that no change names keep their rows. */
  lemma {:induction false} ApplyLeavesOthers(c: Catalog, changes: seq<StockChange>, p: int)
    requires p in c
    requires forall i :: 0 <= i < |changes| ==> changes[i].productId != p
    ensures p in ApplyInOrder(c, changes).catalog && ApplyInOrder(c, changes).catalog[p] == c[p]
    decreases |changes|
  {
    if changes != [] {
      match PatchStock(c, changes[0].productId, changes[0].amount)
      case Rejected(_) =>
      case Updated(next, _) =>
        ApplyLeavesOthers(next, changes[1..], p);
    }
  }

  /** The sum of the amounts the changes request for one product. */
  function NetChange(changes: seq<StockChange>, p: int): int
    decreases |changes|
  {
    if changes == [] then 0
    else (if changes[0].productId == p then changes[0].amount else 0) + NetChange(changes[1..], p)
  }

  /** Every change with its amount negated. */
  function Negated(changes: seq<StockChange>): (r: seq<StockChange>)
    ensures |r| == |changes|
    ensures forall i :: 0 <= i < |r| ==>
      r[i].productId == changes[i].productId && r[i].amount == -changes[i].amount
  {
    seq(|changes|, i requires 0 <= i < |changes| => StockChange(changes[i].productId, -changes[i].amount))
  }

  lemma {:induction false} NetChangeOfNegated(changes: seq<StockChange>, p: int)
    ensures NetChange(Negated(changes), p) == -NetChange(changes, p)
    decreases |changes|
  {
    if changes != [] {
      assert Negated(changes)[1..] == Negated(changes[1..]);
      NetChangeOfNegated(changes[1..], p);
    }
  }

  /**
   * A run that applied every change names only known products with amounts in range and
   * moves each product's quantity by exactly the net amount requested for it.
   */
  lemma {:induction false} CompleteRunNetEffect(c: Catalog, changes: seq<StockChange>)
    requires ApplyInOrder(c, changes).count == |changes|
    ensures forall i :: 0 <= i < |changes| ==> changes[i].productId in c && InTransactionRange(changes[i].amount)
    ensures var after := ApplyInOrder(c, changes).catalog;
      && after.Keys == c.Keys
      && forall p :: p in c ==>
           after[p] == WithQuantity(c[p], c[p].quantityInStock + NetChange(changes, p))
    decreases |changes|
  {
    if changes != [] {
      var ch := changes[0];
      var next := PatchStock(c, ch.productId, ch.amount).catalog;
      CompleteRunNetEffect(next, changes[1..]);
      forall i | 0 <= i < |changes|
        ensures changes[i].productId in c && InTransactionRange(changes[i].amount)
      {
        if i > 0 {
          assert changes[i] == changes[1..][i - 1];
        }
      }
    }
  }

  /** Changes that only add, within range, to known products of a valid table are all applied. */
  lemma {:induction false} IncreasesAllApply(c: Catalog, changes: seq<StockChange>)
    requires ValidCatalog(c)
    requires forall i :: 0 <= i < |changes| ==> changes[i].productId in c && 0 <= changes[i].amount <= MaxTransactionAmount
    ensures ApplyInOrder(c, changes).count == |changes|
    decreases |changes|
  {
    if changes != [] {
      var next := PatchStock(c, changes[0].productId, changes[0].amount).catalog;
      forall i | 0 <= i < |changes[1..]|
        ensures changes[1..][i].productId in next && 0 <= changes[1..][i].amount <= MaxTransactionAmount
      {
        assert changes[1..][i] == changes[i + 1];
      }
      IncreasesAllApply(next, changes[1..]);
    }
  }

  /**
   * Compensation: when every decrease of a run was applied, adding the same quantities
   * back in the same order is always accepted and restores the table exactly.
   */
  lemma UndoRestores(c: Catalog, changes: seq<StockChange>)
    requires ValidCatalog(c)
    requires forall i :: 0 <= i < |changes| ==> changes[i].amount <= 0
    requires ApplyInOrder(c, changes).count == |changes|
    ensures var after := ApplyInOrder(c, changes).catalog;
      && ApplyInOrder(after, Negated(changes)).count == |changes|
      && ApplyInOrder(after, Negated(changes)).catalog == c
  {
    var after := ApplyInOrder(c, changes).catalog;
    CompleteRunNetEffect(c, changes);
    ApplyKeepsValid(c, changes);
    var undo := Negated(changes);
    IncreasesAllApply(after, undo);
    CompleteRunNetEffect(after, undo);
    var back := ApplyInOrder(after, undo).catalog;
    forall p | p in c
      ensures back[p] == c[p]
    {
      NetChangeOfNegated(changes, p);
    }
    assert back.Keys == c.Keys;
  }
}
