/**
 * The application rules of the sales service: creating a sale (with an optional initial
 * status), cancelling it with stock return, the generic status update, and the listing.
 * Stock is reached through the stock client; each stock call commits on its own, so a loop
 * that fails half way leaves the earlier stock changes in place.
 */
module SaleServices {
  import opened Outcomes
  import opened SaleStatuses
  import opened SaleItems
  import opened Sales
  import opened Inventory
  import opened StockClients
  import opened SaleRepositories
  import opened Paging

  /** One requested line of a new sale. */
  datatype ItemRequest = ItemRequest(productId: int, quantity: int)

  /** ValidateItems: the quantity may be neither negative nor above the product's stock. */
  function ValidateItems(info: ProductStockInfo, request: ItemRequest): (r: Outcome)
    ensures r.Pass? <==> 0 <= request.quantity <= info.stockQuantity
    ensures r.Fail? ==> r.error == InvalidOperation
  {
    if request.quantity < 0 then Fail(InvalidOperation)
    else if info.stockQuantity < request.quantity then Fail(InvalidOperation)
    else Pass
  }

  /** A request that creation accepts: a known product and 0 <= quantity <= its stock. */
  predicate Acceptable(c: Catalog, request: ItemRequest) {
    request.productId in c && 0 <= request.quantity <= c[request.productId].quantityInStock
  }

  /** Every request is acceptable. */
  predicate AllAcceptable(c: Catalog, requests: seq<ItemRequest>) {
    forall k :: 0 <= k < |requests| ==> Acceptable(c, requests[k])
  }

  /** Request k is the first one creation refuses. */
  predicate FirstRefused(c: Catalog, requests: seq<ItemRequest>, k: int) {
    && 0 <= k < |requests| && !Acceptable(c, requests[k])
    && forall j :: 0 <= j < k ==> Acceptable(c, requests[j])
  }

  /**
   * The items creation adds for accepted requests: in request order, each with the
   * product's current price and the sale id 0 the sale has before it is stored.
   */
  function ItemsFor(requests: seq<ItemRequest>, c: Catalog): (items: seq<SaleItem>)
    requires forall k :: 0 <= k < |requests| ==> requests[k].productId in c
    ensures |items| == |requests|
    ensures forall k :: 0 <= k < |items| ==>
      items[k] == SaleItem(0, requests[k].productId, requests[k].quantity, c[requests[k].productId].price)
  {
    seq(|requests|, k requires 0 <= k < |requests| =>
      SaleItem(0, requests[k].productId, requests[k].quantity, c[requests[k].productId].price))
  }

  /**
   * The guard checks of UpdateSaleStatusAsync, in their order: Cancelled is refused on this
   * route, then any target whose ordinal is not above the current one, then each target
   * needs its one predecessor.
   */
  function ValidateStatusUpdate(current: SaleStatus, target: SaleStatus): (r: Outcome)
    ensures r.Pass? <==>
      || (current == PendingPayment && target == Paid)
      || (current == Paid && target == Shipped)
      || (current == Shipped && target == Completed)
    ensures target == Cancelled ==> r.Fail?
    ensures Ordinal(target) <= Ordinal(current) ==> r.Fail?
    ensures current == Cancelled ==> r.Fail?
    ensures r.Fail? ==> r.error == InvalidOperation
  {
    if target == Cancelled then Fail(InvalidOperation)
    else if Ordinal(target) <= Ordinal(current) then Fail(InvalidOperation)
    else
      match target
      case Paid => if current != PendingPayment then Fail(InvalidOperation) else Pass
      case Shipped => if current != Paid then Fail(InvalidOperation) else Pass
      case Completed => if current != Shipped then Fail(InvalidOperation) else Pass
      // PendingPayment is refused outright (and never gets past the ordinal check)
      case _ => Fail(InvalidOperation)
  }

  /** The clamping of GetSalesAsync: pages below 1 become 1, sizes outside 1..100 become 20. */
  function ServicePage(pageNumber: int, pageSize: int): (r: (int, int))
    ensures r.0 >= 1 && 1 <= r.1 <= 100
    ensures r.0 == (if pageNumber < 1 then 1 else pageNumber)
    ensures r.1 == (if 1 <= pageSize <= 100 then pageSize else 20)
  {
    (if pageNumber < 1 then 1 else pageNumber, if pageSize < 1 || pageSize > 100 then 20 else pageSize)
  }

  /** What a status operation leaves behind: its outcome, the sale's status and the product table. */
  datatype StatusEffect = StatusEffect(outcome: Outcome, status: SaleStatus, catalog: Catalog)

  /**
   * CancelSaleAsync on a found sale with status s: Shipped, Completed and Cancelled throw with
   * nothing changed; PendingPayment is cancelled without stock calls; Paid gets its items
   * returned in list order and is cancelled only when every return went through, otherwise
   * it stays Paid with the earlier returns committed.
   */
  function CancelEffect(s: SaleStatus, c: Catalog, items: seq<SaleItem>): (e: StatusEffect)
    ensures e.outcome == Pass || e.outcome == Fail(InvalidOperation)
    ensures (s == Shipped || s == Completed || s == Cancelled) ==> e == StatusEffect(Fail(InvalidOperation), s, c)
    ensures s == PendingPayment ==> e == StatusEffect(Pass, Cancelled, c)
    ensures s == Paid ==>
      var run := ApplyInOrder(c, IncreaseChanges(items));
      && e.catalog == run.catalog
      && (e.outcome.Pass? <==> run.count == |items|)
      && e.status == (if e.outcome.Pass? then Cancelled else Paid)
    ensures e.outcome.Pass? <==> Transition(s, MarkCancelled).Some? && (s == Paid ==> ApplyInOrder(c, IncreaseChanges(items)).count == |items|)
  {
    if s == Shipped || s == Completed || s == Cancelled then StatusEffect(Fail(InvalidOperation), s, c)
    else if s == PendingPayment then StatusEffect(Pass, Cancelled, c)
    else
      var run := ApplyInOrder(c, IncreaseChanges(items));
      if run.count == |items| then StatusEffect(Pass, Cancelled, run.catalog)
      else StatusEffect(Fail(InvalidOperation), Paid, run.catalog)
  }

  /**
   * Paying a sale (the service's SetStatusToPaid): the status is set by the entity rule
   * first, then every item's quantity is taken out in list order; a refused decrease fails
   * with the status already changed and the earlier decreases committed.
   */
  function PayEffect(s: SaleStatus, c: Catalog, items: seq<SaleItem>): (e: StatusEffect)
    ensures e.outcome == Pass || e.outcome == Fail(InvalidOperation)
    ensures e.status == After(s, MarkPaid)
    ensures var run := ApplyInOrder(c, DecreaseChanges(items));
      e.catalog == run.catalog && (e.outcome.Pass? <==> run.count == |items|)
  {
    var run := ApplyInOrder(c, DecreaseChanges(items));
    StatusEffect(if run.count == |items| then Pass else Fail(InvalidOperation), After(s, MarkPaid), run.catalog)
  }

  /**
   * UpdateSaleStatusAsync on a found sale with status s: a pair the guard checks refuse
   * throws with nothing changed; Paid pays; Shipped and Completed take the entity's step.
   */
  function UpdateEffect(s: SaleStatus, target: SaleStatus, c: Catalog, items: seq<SaleItem>): (e: StatusEffect)
    ensures e.outcome == Pass || e.outcome == Fail(InvalidOperation)
    ensures ValidateStatusUpdate(s, target).Fail? ==> e == StatusEffect(Fail(InvalidOperation), s, c)
    ensures ValidateStatusUpdate(s, target).Pass? && target != Paid ==> e == StatusEffect(Pass, target, c)
    ensures ValidateStatusUpdate(s, target).Pass? && target == Paid ==> e == PayEffect(s, c, items) && e.status == Paid
    ensures e.outcome.Pass? ==> e.status == target
  {
    if ValidateStatusUpdate(s, target).Fail? then StatusEffect(Fail(InvalidOperation), s, c)
    else if target == Paid then PayEffect(s, c, items)
    else StatusEffect(Pass, target, c)
  }

  /**
   * The initial-status switch of CreateSaleAsync on a new (pending) sale: none or
   * PendingPayment keeps it; Paid pays; Shipped pays and then ships; Completed and Cancelled
   * throw with nothing changed.
   */
  function InitialStatusEffect(initial: Option<SaleStatus>, c: Catalog, items: seq<SaleItem>): (e: StatusEffect)
    ensures e.outcome == Pass || e.outcome == Fail(InvalidOperation)
    ensures initial.None? || initial == Some(PendingPayment) ==> e == StatusEffect(Pass, PendingPayment, c)
    ensures initial == Some(Completed) || initial == Some(Cancelled) ==>
      e == StatusEffect(Fail(InvalidOperation), PendingPayment, c)
    ensures initial == Some(Paid) || initial == Some(Shipped) ==>
      var run := ApplyInOrder(c, DecreaseChanges(items));
      && e.catalog == run.catalog
      && (e.outcome.Pass? <==> run.count == |items|)
      && e.status == (if e.outcome.Pass? then initial.value else Paid)
  {
    match initial
    case None => StatusEffect(Pass, PendingPayment, c)
    case Some(s) =>
      if s == Paid || s == Shipped then
        var paid := PayEffect(PendingPayment, c, items);
        if paid.outcome.Pass? && s == Shipped then paid.(status := Shipped) else paid
      else if s == PendingPayment then StatusEffect(Pass, PendingPayment, c)
      else StatusEffect(Fail(InvalidOperation), PendingPayment, c)
  }

  /**
   * Cancelling a paid sale whose stock was all taken out puts every quantity back and leaves
   * the product table exactly as it was before the payment.
   */
  lemma CancelAfterPayRestoresStock(c: Catalog, items: seq<SaleItem>)
    requires ValidCatalog(c)
    requires forall i :: 0 <= i < |items| ==> items[i].quantity >= 0
    requires ApplyInOrder(c, DecreaseChanges(items)).count == |items|
    ensures var paid := ApplyInOrder(c, DecreaseChanges(items)).catalog;
      ApplyInOrder(paid, IncreaseChanges(items)) == Applied(c, |items|)
  {
    IncreaseUndoesDecrease(items);
    UndoRestores(c, DecreaseChanges(items));
  }

  /**
   * The stock check of creation is per item: two lines for the same product that each fit
   * the stock are accepted even when together they exceed it, and paying for them then stops
   * after the first line (or at it, when the quantity is beyond the endpoint's range).
   */
  lemma PerItemCheckIsNotSummed(c: Catalog, p: int, q: int)
    requires p in c && 0 <= q <= c[p].quantityInStock < 2 * q
    ensures var requests := [ItemRequest(p, q), ItemRequest(p, q)];
      && AllAcceptable(c, requests)
      && ApplyInOrder(c, DecreaseChanges(ItemsFor(requests, c))).count == (if q <= MaxTransactionAmount then 1 else 0)
  {
    var requests := [ItemRequest(p, q), ItemRequest(p, q)];
    var changes := DecreaseChanges(ItemsFor(requests, c));
    assert changes == [StockChange(p, -q), StockChange(p, -q)];
    if q <= MaxTransactionAmount {
      var once := PatchStock(c, p, -q).catalog;
      assert once[p].quantityInStock == c[p].quantityInStock - q;
      assert changes[1..] == [StockChange(p, -q)];
      assert ApplyInOrder(once, changes[1..]).count == 0;
    }
  }

  /**
   * The creation check compares a quantity only with the stock, but the stock endpoint
   * refuses any amount beyond 10000: such a sale is created, paying it fails with the status
   * already Paid and no stock taken, and cancelling it then fails too, leaving it Paid.
   */
  lemma OversizedQuantityIsNeverPaid(c: Catalog, p: int, q: int)
    requires p in c && MaxTransactionAmount < q <= c[p].quantityInStock
    ensures AllAcceptable(c, [ItemRequest(p, q)])
    ensures var items := ItemsFor([ItemRequest(p, q)], c);
      && PayEffect(PendingPayment, c, items) == StatusEffect(Fail(InvalidOperation), Paid, c)
      && CancelEffect(Paid, c, items) == StatusEffect(Fail(InvalidOperation), Paid, c)
  {
    var items := ItemsFor([ItemRequest(p, q)], c);
    assert DecreaseChanges(items) == [StockChange(p, -q)];
    assert IncreaseChanges(items) == [StockChange(p, q)];
  }

  class SaleService {
    const repo: SaleRepository
    const client: StockClient

    constructor (repo: SaleRepository, client: StockClient)
      ensures this.repo == repo && this.client == client
    {
      this.repo := repo;
      this.client := client;
    }

    /**
     * The decrease loop of SetStatusToPaid: each item's quantity is taken out in list order
     * and the loop stops at the first refused decrease, the earlier ones staying committed.
     */
    method DecreaseEach(items: seq<SaleItem>) returns (ok: bool)
      modifies client.inventory
      ensures var run := ApplyInOrder(old(client.inventory.products), DecreaseChanges(items));
        client.inventory.products == run.catalog && (ok <==> run.count == |items|)
    {
      ghost var start := client.inventory.products;
      ghost var changes := DecreaseChanges(items);
      RunBegins(start, changes);
      var i := 0;
      while i < |items|
        invariant 0 <= i <= |items|
        invariant RunReaches(start, changes, i, client.inventory.products)
      {
        DecreaseRunStep(start, items, i, client.inventory.products);
        var done := client.DecreaseStock(items[i].productId, items[i].quantity);
        if !done {
          return false;
        }
        i := i + 1;
      }
      RunEnds(start, changes, client.inventory.products);
      ok := true;
    }

    /**
     * The return loop of CancelSaleAsync: each item's quantity is put back in list order and
     * the loop stops at the first refused return, the earlier ones staying committed.
     */
    method IncreaseEach(items: seq<SaleItem>) returns (ok: bool)
      modifies client.inventory
      ensures var run := ApplyInOrder(old(client.inventory.products), IncreaseChanges(items));
        client.inventory.products == run.catalog && (ok <==> run.count == |items|)
    {
      ghost var start := client.inventory.products;
      ghost var changes := IncreaseChanges(items);
      RunBegins(start, changes);
      var i := 0;
      while i < |items|
        invariant 0 <= i <= |items|
        invariant RunReaches(start, changes, i, client.inventory.products)
      {
        IncreaseRunStep(start, items, i, client.inventory.products);
        var done := client.IncreaseStock(items[i].productId, items[i].quantity);
        if !done {
          return false;
        }
        i := i + 1;
      }
      RunEnds(start, changes, client.inventory.products);
      ok := true;
    }

    /**
     * SetStatusToPaid: marks the sale Paid first, then decreases the stock of each item in
     * list order; the first refused decrease throws, with the status already Paid and the
     * earlier decreases already committed.
     */
    method SetStatusToPaid(sale: Sale) returns (r: Outcome)
      modifies sale`status, client.inventory
      ensures StatusEffect(r, sale.status, client.inventory.products)
        == PayEffect(old(sale.status), old(client.inventory.products), sale.items)
    {
      sale.SetStatusToPaid();
      var ok := DecreaseEach(sale.items);
      r := if ok then Pass else Fail(InvalidOperation);
    }

    /**
     * CancelSaleAsync: an unknown sale throws not-found; Shipped, Completed and Cancelled
     * sales throw. A pending sale is cancelled without stock calls. A paid sale first gets
     * each item's quantity returned to stock in list order; the first refused return throws,
     * leaving the sale Paid and the earlier returns committed.
     */
    method CancelSale(saleId: int) returns (r: Result<bool>)
      requires repo.Valid()
      modifies set s | s in repo.sales :: s`status, client.inventory
      ensures repo.Valid()
      ensures old(repo.GetById(saleId)).None? ==>
        r == Failure(KeyNotFound) && client.inventory.products == old(client.inventory.products)
      ensures old(repo.GetById(saleId)).Some? ==>
        var sale := old(repo.GetById(saleId)).value;
        var e := CancelEffect(old(sale.status), old(client.inventory.products), sale.items);
        && sale.status == e.status && client.inventory.products == e.catalog
        && r == (if e.outcome.Pass? then Success(true) else Failure(e.outcome.error))
      ensures forall s :: s in repo.sales && Some(s) != old(repo.GetById(saleId)) ==> s.status == old(s.status)
    {
      var found := repo.GetById(saleId);
      if found.None? {
        return Failure(KeyNotFound);
      }
      var sale := found.value;
      if sale.status == Shipped || sale.status == Completed || sale.status == Cancelled {
        return Failure(InvalidOperation);
      }
      if sale.status != PendingPayment {
        var ok := IncreaseEach(sale.items);
        if !ok {
          return Failure(InvalidOperation);
        }
      }
      var cancelled := sale.SetStatusToCancel();
      assert cancelled.Pass?;
      r := Success(true);
    }

    /**
     * UpdateSaleStatusAsync: an unknown sale throws not-found; a pair refused by the guard
     * checks throws before anything changes. Shipped and Completed then call the entity
     * method; Paid goes through SetStatusToPaid, so a refused decrease throws after the
     * status and the earlier decreases have changed.
     */
    method UpdateSaleStatus(saleId: int, newStatus: SaleStatus) returns (r: Result<Sale>)
      requires repo.Valid()
      modifies set s | s in repo.sales :: s`status, client.inventory
      ensures repo.Valid()
      ensures old(repo.GetById(saleId)).None? ==>
        r == Failure(KeyNotFound) && client.inventory.products == old(client.inventory.products)
      ensures old(repo.GetById(saleId)).Some? ==>
        var sale := old(repo.GetById(saleId)).value;
        var e := UpdateEffect(old(sale.status), newStatus, old(client.inventory.products), sale.items);
        && sale.status == e.status && client.inventory.products == e.catalog
        && r == (if e.outcome.Pass? then Success(sale) else Failure(e.outcome.error))
      ensures forall s :: s in repo.sales && Some(s) != old(repo.GetById(saleId)) ==> s.status == old(s.status)
    {
      var found := repo.GetById(saleId);
      if found.None? {
        return Failure(KeyNotFound);
      }
      var sale := found.value;
      var check := ValidateStatusUpdate(sale.status, newStatus);
      if check.Fail? {
        return Failure(check.error);
      }
      if newStatus == Paid {
        var paid := SetStatusToPaid(sale);
        if paid.Fail? {
          return Failure(paid.error);
        }
      } else if newStatus == Shipped {
        var shipped := sale.SetStatusToShipped();
        assert shipped.Pass?;
      } else {
        assert newStatus == Completed;
        var completed := sale.SetStatusToCompleted();
        assert completed.Pass?;
      }
      r := Success(sale);
    }

    /**
     * The item loop of CreateSaleAsync: each request in order is looked up (unknown product:
     * not-found) and checked (negative quantity or more than that product's stock: invalid;
     * per item, not summed over items), then added at the product's current price.
     */
    method AddRequestedItems(sale: Sale, requests: seq<ItemRequest>) returns (r: Outcome)
      requires sale.id == 0 && sale.status == PendingPayment && sale.items == [] && sale.Valid()
      modifies sale
      ensures r.Pass? <==> AllAcceptable(client.inventory.products, requests)
      ensures forall k :: FirstRefused(client.inventory.products, requests, k) ==>
        r == Fail(if requests[k].productId in client.inventory.products then InvalidOperation else KeyNotFound)
      ensures r.Pass? ==> sale.items == ItemsFor(requests, client.inventory.products) && sale.Valid()
      ensures sale.id == old(sale.id) && sale.status == old(sale.status)
    {
      var i := 0;
      while i < |requests|
        invariant 0 <= i <= |requests|
        invariant sale.id == old(sale.id) && sale.status == PendingPayment && sale.Valid()
        invariant forall k :: 0 <= k < i ==> Acceptable(client.inventory.products, requests[k])
        invariant sale.items == ItemsFor(requests[..i], client.inventory.products)
      {
        var request := requests[i];
        var info := client.GetProductStock(request.productId);
        if info.None? {
          return Fail(KeyNotFound);
        }
        var valid := ValidateItems(info.value, request);
        if valid.Fail? {
          return Fail(valid.error);
        }
        var added := sale.AddItem(request.productId, request.quantity, info.value.unitPrice);
        assert added.Pass?;
        assert requests[..i + 1] == requests[..i] + [request];
        i := i + 1;
      }
      assert requests[..i] == requests;
      r := Pass;
    }

    /**
     * The initial-status switch of CreateSaleAsync on a pending sale: none or PendingPayment
     * keeps it, Paid pays, Shipped pays and then ships, Completed and Cancelled throw.
     */
    method ApplyInitialStatus(sale: Sale, initialStatus: Option<SaleStatus>) returns (r: Outcome)
      requires sale.status == PendingPayment
      modifies sale`status, client.inventory
      ensures StatusEffect(r, sale.status, client.inventory.products)
        == InitialStatusEffect(initialStatus, old(client.inventory.products), sale.items)
    {
      r := Pass;
      match initialStatus {
        case None =>
        case Some(status) =>
          if status == Paid || status == Shipped {
            r := SetStatusToPaid(sale);
            if r.Pass? && status == Shipped {
              var shipped := sale.SetStatusToShipped();
              assert shipped.Pass?;
            }
          } else if status != PendingPayment {
            r := Fail(InvalidOperation);
          }
      }
    }

    /**
     * CreateSaleAsync: a new sale gets the requested items (the first refused request throws),
     * its total is recomputed, the initial status is applied, and only a sale that got
     * through all of that is stored, under the id the store generates (an input).
     */
    method CreateSale(customerId: int, createdAt: int, requests: seq<ItemRequest>,
                      initialStatus: Option<SaleStatus>, newId: int) returns (r: Result<Sale>)
      requires repo.Valid()
      requires forall s :: s in repo.sales ==> s.id != newId
      modifies repo`sales, client.inventory
      ensures repo.Valid() && repo.saves == old(repo.saves)
      ensures r.Success? ==> AllAcceptable(old(client.inventory.products), requests)
      ensures forall k :: FirstRefused(old(client.inventory.products), requests, k) ==>
        && r == Failure(if requests[k].productId in old(client.inventory.products) then InvalidOperation else KeyNotFound)
        && repo.sales == old(repo.sales)
        && client.inventory.products == old(client.inventory.products)
      ensures AllAcceptable(old(client.inventory.products), requests) ==>
        var e := InitialStatusEffect(initialStatus, old(client.inventory.products),
                                     ItemsFor(requests, old(client.inventory.products)));
        && client.inventory.products == e.catalog
        && (e.outcome.Pass? ==> r.Success? && r.value.status == e.status)
        && (e.outcome.Fail? ==> r == Failure(e.outcome.error) && repo.sales == old(repo.sales))
      ensures r.Success? ==>
        && fresh(r.value)
        && repo.sales == old(repo.sales) + [r.value]
        && r.value.id == newId && r.value.customerId == customerId && r.value.createdAt == createdAt
        && r.value.items == ItemsFor(requests, old(client.inventory.products))
        && r.value.totalPrice == Total(r.value.items)
    {
      var sale := new Sale(customerId, createdAt);
      var added := AddRequestedItems(sale, requests);
      if added.Fail? {
        return Failure(added.error);
      }
      sale.CalculateTotalPrice();
      var applied := ApplyInitialStatus(sale, initialStatus);
      if applied.Fail? {
        return Failure(applied.error);
      }
      repo.Add(sale, newId);
      r := Success(sale);
    }

    /** GetSaleByIdAsync: the sale with that id, or not-found. */
    function GetSaleById(id: int): (r: Result<Sale>)
      reads repo, repo.sales
      ensures r.Success? ==> r.value in repo.sales && r.value.id == id
      ensures r.Failure? <==> (forall s :: s in repo.sales ==> s.id != id)
      ensures r.Failure? ==> r.error == KeyNotFound
    {
      match repo.GetById(id)
      case Some(sale) => Success(sale)
      case None => Failure(KeyNotFound)
    }

    /**
     * GetSalesAsync: clamps the page number and size, then asks the repository for that page;
     * a page never holds more than 100 sales.
     */
    function GetSales(pageNumber: int, pageSize: int): (r: PagedResult<Sale>)
      reads repo
      ensures var (p, n) := ServicePage(pageNumber, pageSize);
        r == repo.GetSales(p, n)
      ensures |r.items| <= 100 && r.totalCount == |repo.sales|
    {
      var (p, n) := ServicePage(pageNumber, pageSize);
      repo.GetSales(p, n)
    }
  }
}
