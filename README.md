# Sales and stock saga: a Dafny model

This project models the core of a two-service e-commerce back end:

- **SalesManager** records sales. A `Sale` aggregate holds its `SaleItem`s and its total price. It moves through the statuses PendingPayment → Paid → Shipped → Completed, and it can be Cancelled before it ships.
- **StockManager** keeps the product table. Its one ledger rule never lets a quantity in stock fall below zero.

The two services talk in two ways:

- `SaleService` calls the stock service over HTTP through a stock client. It decreases stock when a sale is paid and gives the stock back when a paid sale is cancelled.
- Message consumers handle the saga messages:
  - on the stock side, a `SalePaidEvent` runs a batch deduction and publishes a success or an error event, and a `SaleCancelledEvent` runs a batch that returns stock;
  - on the sales side, an error event cancels the sale.
  No code in this repository publishes `SalePaidEvent` or `SaleCancelledEvent` (`SaleService` only calls the HTTP client), so the publisher of those two messages is not part of this model.

Modelling choices:

- Exceptions become `Outcome`/`Result` values carrying `KeyNotFound` or `InvalidOperation`, or `BadRequest` for a stock request body that fails validation.
- `decimal` prices are integer cents.
- Clock readings and store-generated identities are parameters.
- The product table is a `map` from product id to row.
- The stock ledger rule is one pure function, `Inventory.UpdateStock`. Both `ProductService` classes are proved against it. The HTTP stock client is modelled over the application `ProductService` (`StockManager.API/Application/Services/ProductService.cs`) only. It is proved against `Inventory.PatchStock`, which is the endpoint's −10000..10000 range check on the amount followed by the same rule.
- The loops that decrease or restore stock one item at a time are methods. They are proved against `Inventory.ApplyInOrder`, which applies the changes in order and stops at the first rejection.
- Entities whose fields the source updates in place are classes: `Sale`, the repository, the services and the consumers.
- Line items, messages and paging results are datatypes.

Files:

- `outcomes.dfy`: the error kinds, `Option`, `Outcome` and `Result`.
- `sale_status.dfy`: the status enum and the status rules as pure functions.
- `sale_item.dfy`, `sale.dfy`: the line item and the `Sale` aggregate.
- `inventory.dfy`: the product table, the ledger rule and runs of stock changes.
- `product_service.dfy`, `domain_product_service.dfy`: the two stock-side services.
- `stock_client.dfy`: the HTTP stock client of the sales side.
- `paging.dfy`: ordering, Skip/Take and the `PagedResponse` metadata.
- `sale_repository.dfy`, `sale_service.dfy`: the sales store and the sale use cases.
- `saga_events.dfy`, `stock_consumers.dfy`, `sales_consumers.dfy`: the saga messages and their consumers.
- `sales_listing.dfy`: the listing endpoint's response, as written and corrected (see Findings).

## Model

| member | source | states |
|---|---|---|
| SaleStatuses.Ordinal | SalesManager.API/Domain/Enums/SaleStatus.cs:3-11 | the enum values are 0..4 in declaration order; only Cancelled has 4 |
| SaleStatuses.Transition | SalesManager.API/Domain/Entities/Sale.cs:40-86 | paying never throws; every accepted transition raises the ordinal; Completed and Cancelled are never left |
| SaleStatuses.StatusChangesExactly | SalesManager.API/Domain/Entities/Sale.cs:40-86 | a command changes the status iff it is pay from PendingPayment, ship from Paid, complete from Shipped or cancel from PendingPayment or Paid, and every change raises the ordinal |
| SaleStatuses.History | SalesManager.API/Domain/Entities/Sale.cs:40-86 | the status sequence of a sale under a series of commands starts at the current status and has one entry per command |
| SaleStatuses.HistoryIsMonotone | SalesManager.API/Domain/Enums/SaleStatus.cs:5-10 | along any series of entity commands the status ordinal never decreases |
| SaleStatuses.TerminalIsAbsorbing | SalesManager.API/Domain/Entities/Sale.cs:62-86 | once Completed or Cancelled, no command changes the status again |
| SaleItems.SaleItem.Subtotal | SalesManager.API/Domain/Entities/SaleItem.cs:10-18 | quantity times unit price of the fields as constructed; nothing is validated, so non-negative fields give a non-negative subtotal, a zero field gives 0 and a negative quantity at a positive price gives a negative subtotal |
| SaleItems.Total | SalesManager.API/Domain/Entities/Sale.cs:37 | the sum of the item subtotals: 0 for no items, never negative when no subtotal is, never positive when no subtotal is positive |
| SaleItems.TotalOfConcat | SalesManager.API/Domain/Entities/Sale.cs:35-38 | the sum of subtotals of two lists joined is the sum of the two sums |
| SaleItems.TotalOfAppend | SalesManager.API/Domain/Entities/Sale.cs:30-37 | appending one item adds exactly its subtotal to the total |
| Sales.Sale.constructor | SalesManager.API/Domain/Entities/Sale.cs:16-21 | a new sale is PendingPayment, has no items, total 0 and the given customer and creation time |
| Sales.Sale.AddItem | SalesManager.API/Domain/Entities/Sale.cs:23-33 | succeeds iff the sale is pending; then the item (with the sale's id) is appended and the total is the old total plus its subtotal; otherwise it throws and nothing changes |
| Sales.Sale.CalculateTotalPrice | SalesManager.API/Domain/Entities/Sale.cs:35-38 | the total price becomes the sum of the item subtotals |
| Sales.Sale.SetStatusToPaid | SalesManager.API/Domain/Entities/Sale.cs:40-47 | PendingPayment becomes Paid; any other status is left alone without an error |
| Sales.Sale.SetStatusToShipped | SalesManager.API/Domain/Entities/Sale.cs:49-60 | succeeds iff Paid, then Shipped; otherwise throws and the status is unchanged |
| Sales.Sale.SetStatusToCancel | SalesManager.API/Domain/Entities/Sale.cs:62-73 | succeeds iff PendingPayment or Paid, then Cancelled; otherwise throws and the status is unchanged |
| Sales.Sale.SetStatusToCompleted | SalesManager.API/Domain/Entities/Sale.cs:75-86 | succeeds iff Shipped, then Completed; otherwise throws and the status is unchanged |
| Inventory.UpdateStock | StockManager.API/Application/Services/ProductService.cs:36-71 | rejects exactly an unknown product (not found) or a change that would go negative (invalid operation); otherwise sets old + amount ≥ 0, returns it and changes no other row |
| Inventory.UpdateKeepsValid | StockManager.API/Application/Services/ProductService.cs:50-55 | no accepted update makes any quantity negative |
| Inventory.UpdateThenUndo | StockManager.API/Application/Services/ProductService.cs:50-57 | an accepted update followed by its negation is accepted and restores the table |
| Inventory.PatchStock | StockManager.API/Controllers/ProductController.cs:70-85 | an amount outside −10000..10000 is refused as a bad request before the service runs; any other amount gets exactly the ledger rule |
| Inventory.PatchAcceptsWithinRange | StockManager.API/Application/DTOs/UpdateStockDTO.cs:7-9 | the endpoint accepts a change iff the amount is within −10000..10000, the product is known and the quantity stays non-negative |
| Inventory.ApplyInOrder | SalesManager.API/Application/Services/SaleService.cs:192-200 | the per-item stock calls: each change goes through the endpoint in order and the first refusal ends the run; the count of applied changes is at most the number requested (where a run stops and what it leaves are stated by the lemmas below) |
| Inventory.ApplyStopsAtRejection | SalesManager.API/Application/Services/SaleService.cs:192-200 | a run of per-item stock calls ends either complete or exactly at a change the ledger rejects |
| Inventory.ApplyKeepsValid | SalesManager.API/Application/Services/SaleService.cs:192-200 | a run keeps the product ids and keeps every quantity non-negative |
| Inventory.ApplyLeavesOthers | SalesManager.API/Application/Services/SaleService.cs:192-200 | products no change names keep their rows |
| Inventory.NetChangeOfNegated | SalesManager.API/Application/Services/SaleService.cs:94-102 | negating every change negates each product's net requested amount |
| Inventory.CompleteRunNetEffect | SalesManager.API/Application/Services/SaleService.cs:192-200 | a complete run names only known products with amounts within −10000..10000 and moves each quantity by exactly its net requested amount |
| Inventory.IncreasesAllApply | SalesManager.API/Application/Services/SaleService.cs:94-102 | increases of known products by at most 10000 each are never refused |
| Inventory.UndoRestores | SalesManager.API/Application/Services/SaleService.cs:94-102 | after a complete run of decreases, adding the same quantities back is accepted and restores the table exactly |
| ProductServices.ProductService.CreateProduct | StockManager.API/Application/Services/ProductService.cs:19-24 | the product is stored under the generated id and is what a lookup by that id returns |
| ProductServices.ProductService.GetProductById | StockManager.API/Application/Services/ProductService.cs:31-34 | found exactly when the id is in the table, and then it is that row |
| ProductServices.ProductService.UpdateStock | StockManager.API/Application/Services/ProductService.cs:36-71 | the table and the result are those of the ledger rule; a rejection rolls back; validity is kept |
| DomainProductServices.ProductService.UpdateStock | StockManager.API/Domain/Services/ProductService.cs:34-66 | the same ledger rule: committed on success with a non-negative result, rolled back on rejection |
| StockClients.StockClient.GetProductStock | SalesManager.API/Infrastructure/HttpClients/StockManagerClient.cs:17-37 | not found (null) exactly when the product is unknown; otherwise id, name, price and quantity of its row |
| StockClients.StockClient.DecreaseStock | SalesManager.API/Infrastructure/HttpClients/StockManagerClient.cs:54-66 | sends the negated quantity; true and the update committed iff the endpoint accepts it (amount in range and the ledger agrees), else false and no change |
| StockClients.StockClient.IncreaseStock | SalesManager.API/Infrastructure/HttpClients/StockManagerClient.cs:68-79 | sends the quantity; true and the update committed iff the endpoint accepts it (amount in range and the ledger agrees), else false and no change |
| StockClients.StockClient.Send | SalesManager.API/Infrastructure/HttpClients/StockManagerClient.cs:81-102 | a PATCH stock request: true with the committed table iff the endpoint accepts the amount, otherwise false with the table unchanged |
| StockClients.DecreaseChanges | SalesManager.API/Application/Services/SaleService.cs:192-194 | one negated change per sale item, in item order |
| StockClients.IncreaseChanges | SalesManager.API/Application/Services/SaleService.cs:94-96 | one change per sale item, in item order |
| StockClients.IncreaseUndoesDecrease | SalesManager.API/Application/Services/SaleService.cs:94-96 | the restoring changes are exactly the paying changes negated |
| Paging.SortDesc | SalesManager.API/Domain/Repositories/SaleRepository.cs:62 | a permutation of the input ordered by descending key |
| Paging.PageSlice | SalesManager.API/Domain/Repositories/SaleRepository.cs:57-66 | at most pageSize rows starting at (page − 1) × size; empty past the end, full or the remainder otherwise |
| Paging.PageOfSorted | SalesManager.API/Domain/Repositories/SaleRepository.cs:62-66 | a page of an ordered listing is ordered and holds only listed rows |
| Paging.CeilDiv | SalesManager.API/Application/Shared/PagedResponse.cs:18 | the page count is the least count of pages that holds every row |
| Paging.BelowPageCount | SalesManager.API/Application/Shared/PagedResponse.cs:18-21 | a page number is below the page count iff the pages up to it hold fewer rows than the total |
| Paging.NewPagedResponse | SalesManager.API/Application/Shared/PagedResponse.cs:13-22 | fields as passed; page count rounded up; previous iff page > 1; next iff page < page count iff page × size < total |
| SaleRepositories.FindById | SalesManager.API/Domain/Repositories/SaleRepository.cs:36-41 | the found sale has that id; none exactly when no sale has it |
| SaleRepositories.ClampPage | SalesManager.API/Domain/Repositories/SaleRepository.cs:50-51 | pages below 1 become 1, sizes below 1 become 20, others pass unchanged |
| SaleRepositories.SaleRepository.constructor | SalesManager.API/Domain/Repositories/SaleRepository.cs:13-16 | the store opens over the given sales (unique ids, each total equal to its items' sum) with nothing saved yet |
| SaleRepositories.SaleRepository.SaveChanges | SalesManager.API/Domain/Repositories/SaleRepository.cs:18-21 | one more save is recorded |
| SaleRepositories.SaleRepository.GetById | SalesManager.API/Domain/Repositories/SaleRepository.cs:36-41 | the stored sale with that id, or none exactly when no stored sale has it |
| SaleRepositories.SaleRepository.Add | SalesManager.API/Domain/Repositories/SaleRepository.cs:23-26 | the sale is appended under a fresh id, ids stay unique and a lookup by the new id finds it |
| SaleRepositories.SaleRepository.GetSales | SalesManager.API/Domain/Repositories/SaleRepository.cs:48-70 | total count is every sale; the items are the clamped page of all sales ordered newest first; they are ordered and stored |
| SaleRepositories.FindAfterMiss | SalesManager.API/Domain/Repositories/SaleRepository.cs:38-40 | a lookup that misses a prefix answers as the rest does |
| SaleServices.ValidateItems | SalesManager.API/Application/Services/SaleService.cs:203-212 | passes iff 0 ≤ requested quantity ≤ stock; otherwise an invalid operation |
| SaleServices.ItemsFor | SalesManager.API/Application/Services/SaleService.cs:28-38 | one item per request: sale id 0, the requested product and quantity, the catalog price |
| SaleServices.ValidateStatusUpdate | SalesManager.API/Application/Services/SaleService.cs:139-180 | accepts exactly PendingPayment→Paid, Paid→Shipped and Shipped→Completed; never Cancelled, never a non-increasing ordinal |
| SaleServices.ServicePage | SalesManager.API/Application/Services/SaleService.cs:113-114 | pages below 1 become 1; sizes outside 1..100 become 20 |
| SaleServices.CancelEffect | SalesManager.API/Application/Services/SaleService.cs:77-109 | Shipped/Completed/Cancelled are refused with nothing changed; pending cancels with stock untouched; paid restores stock item by item and cancels only if every restore succeeded |
| SaleServices.PayEffect | SalesManager.API/Application/Services/SaleService.cs:187-201 | the status is marked paid first; stock is decreased item by item up to the first refusal, which makes it fail |
| SaleServices.UpdateEffect | SalesManager.API/Application/Services/SaleService.cs:128-185 | refused transitions change nothing; Shipped and Completed just set the status; Paid also runs the stock decrease |
| SaleServices.InitialStatusEffect | SalesManager.API/Application/Services/SaleService.cs:42-59 | none or PendingPayment keeps the sale pending; Paid pays; Shipped pays then ships; Completed and Cancelled are refused |
| SaleServices.CancelAfterPayRestoresStock | SalesManager.API/Application/Services/SaleService.cs:77-109 | cancelling a sale whose payment decreased every item returns the table to what it was before payment |
| SaleServices.PerItemCheckIsNotSummed | SalesManager.API/Application/Services/SaleService.cs:28-38 | two requests of the same product each within stock pass validation, yet only the first decrease can be applied (none when the quantity is over 10000) |
| SaleServices.OversizedQuantityIsNeverPaid | SalesManager.API/Application/Services/SaleService.cs:203-212 | a quantity over 10000 within stock passes creation, but paying fails with the sale already Paid and no stock taken, and cancelling it then fails too |
| SaleServices.SaleService.constructor | SalesManager.API/Application/Services/SaleService.cs:14-22 | the service uses the given store and client |
| SaleServices.SaleService.DecreaseEach | SalesManager.API/Application/Services/SaleService.cs:192-200 | the table is the in-order run of the negated item quantities; true iff every item was applied |
| SaleServices.SaleService.IncreaseEach | SalesManager.API/Application/Services/SaleService.cs:94-102 | the table is the in-order run of the item quantities; true iff every item was applied |
| SaleServices.SaleService.SetStatusToPaid | SalesManager.API/Application/Services/SaleService.cs:187-201 | outcome, status and table are those of PayEffect |
| SaleServices.SaleService.CancelSale | SalesManager.API/Application/Services/SaleService.cs:77-109 | unknown id is not found with nothing changed; otherwise outcome, status and table follow CancelEffect; other sales keep their statuses |
| SaleServices.SaleService.UpdateSaleStatus | SalesManager.API/Application/Services/SaleService.cs:128-185 | unknown id is not found; otherwise outcome, status and table follow UpdateEffect and success returns the sale; other sales keep their statuses |
| SaleServices.SaleService.AddRequestedItems | SalesManager.API/Application/Services/SaleService.cs:28-38 | passes iff every request names a known product within stock; the first refused request decides the error; on success the items are one per request at catalog price |
| SaleServices.SaleService.ApplyInitialStatus | SalesManager.API/Application/Services/SaleService.cs:42-59 | outcome, status and table are those of InitialStatusEffect |
| SaleServices.SaleService.CreateSale | SalesManager.API/Application/Services/SaleService.cs:24-65 | a refused request leaves store and stock alone; on success the new sale is stored under a fresh id with the customer, time, requested items and their total; changes are never saved |
| SaleServices.SaleService.GetSaleById | SalesManager.API/Application/Services/SaleService.cs:67-75 | the stored sale with that id, or not found exactly when there is none |
| SaleServices.SaleService.GetSales | SalesManager.API/Application/Services/SaleService.cs:111-126 | the repository page for the service-clamped page number and size: at most 100 sales, with the full count |
| StockConsumers.StockContext.constructor | StockManager.API/Infrastructure/Db/StockManagerContext.cs:9-13 | the stock context starts with the given table, no batch calls, nothing published and nothing saved |
| StockConsumers.PaidReply | StockManager.API/Application/Consumers/SalePaidConsumer.cs:34-53 | a successful batch replies success with the time; a failed batch replies an insufficient-stock error; a thrown batch replies nothing; always for the same sale |
| StockConsumers.Published | StockManager.API/Application/Consumers/SalePaidConsumer.cs:36-47 | exactly one event unless the batch throws, and it names the paid sale |
| StockConsumers.SalePaidConsumer.Consume | StockManager.API/Application/Consumers/SalePaidConsumer.cs:27-55 | one deduction batch; the reply is published and saved unless the batch throws, and then the error is rethrown |
| StockConsumers.SaleCancelledConsumer.Consume | StockManager.API/Application/Consumers/SaleCancelledConsumer.cs:24-40 | one restoring batch; saved only on success; nothing published; only a throw fails |
| SalesConsumers.StockErrorDecision | SalesManager.API/Application/Consumers/StockErrorConsumer.cs:26-46 | an unknown sale is ignored; a known one passes iff it may still be cancelled |
| SalesConsumers.RedeliveredErrorFails | SalesManager.API/Application/Consumers/StockErrorConsumer.cs:34-45 | after an error cancels a sale, the same error delivered again throws |
| SalesConsumers.FailedDeductionCancelsPaidSale | StockManager.API/Application/Consumers/SalePaidConsumer.cs:42-47 | the error a failed deduction publishes cancels a pending or paid sale |
| SalesConsumers.StockErrorConsumer.Consume | SalesManager.API/Application/Consumers/StockErrorConsumer.cs:19-48 | outcome is StockErrorDecision; the sale's status is the cancel command's result; a save happens iff a known sale was cancelled |
| SalesConsumers.StockResponseConsumer.ConsumeSuccess | SalesManager.API/Application/Consumers/StockResponseConsumer.cs:21-26 | a success reply completes and changes nothing |
| SalesConsumers.StockResponseConsumer.ConsumeError | SalesManager.API/Application/Consumers/StockResponseConsumer.cs:29-43 | a known sale is cancelled as StockErrorDecision says, with no save; other sales keep their statuses |
| SalesListings.ListSalesAsWritten | SalesManager.API/Controllers/SalesController.cs:67-94 | an empty page is not found; otherwise the response is built from the requested, not the clamped, page number and size |
| SalesListings.AsWrittenMisreportsOversizedPage | SalesManager.API/Controllers/SalesController.cs:81-86 | with a size over 100 and more than 20 sales that fit in it, 20 sales are returned yet one page and no next page are reported |
| SalesListings.ListSales | SalesManager.API/Controllers/SalesController.cs:67-94 | the corrected listing builds the response from the clamped values |
| SalesListings.ListSalesReportsNextHonestly | SalesManager.API/Controllers/SalesController.cs:81-86 | in the corrected listing, a next page is reported iff sales remain after this page, and the page is within 1..page count |
| SalesListings.AsWrittenAgreesInRange | SalesManager.API/Controllers/SalesController.cs:67-94 | with page ≥ 1 and size in 1..100 the listing as written and the corrected one agree |

## Left out

- Persistence: `SaleService` never calls `SaveChangesAsync`, and `UpdateAsync` only marks the entity as modified. The model applies every write to the tracked sale list directly, so it does not capture that such writes may never reach the database. Changes made in memory before a failure stay applied in the model, as they do in the tracked entity: a failed payment keeps the status Paid and the decreases already made (`SaleServices.PayEffect`), and a failed stock return keeps Paid and the returns already made (`SaleServices.CancelEffect`).
- SaleRepositories.SaleRepository.Add: assigns the generated id at once. With the identity key of `SalesDbContext.cs` on SQL Server, the source's `Sale.Id` stays 0 until a save, which `SaleService` never makes, so `CreateSaleAsync` returns id 0 where the model returns the new id.
- `UpdateAsync`: only marks an already tracked entity modified, so it has no effect in the model.
- `GetByCustomerIdAsync`, `GetAllProductsAsync` and the product listing of the stock controller are not modelled. No operation of the core depends on them.
- `CreateProductAsync` and `GetProductByIdAsync` of `StockManager.API/Domain/Services/ProductService.cs` are the same as the application service's, which the model covers. Only the domain `UpdateStock` is modelled separately.
- ProductServices.ProductService.CreateProduct: table validity is kept only when the new row's quantity is non-negative. The source does not validate the row it stores.
- HTTP transport faults and timeouts: the client turns these into `false` (or a rethrow in `GetProductStockAsync`). The model's only sources of `false` are the endpoint's range check and the ledger.
- SaleServices.CancelEffect: the branch where returning stock fails (`SaleService.cs:97-101`) is reached only through the endpoint's refusal of a quantity over 10000 (see `SaleServices.OversizedQuantityIsNeverPaid`), an unknown product or a negative quantity. Transport faults, the client's other source of `false`, are not modelled.
- Undeclared calls: `UpdateStockBatchAsync` is called by both stock consumers but declared in neither `IProductService`. The model takes its outcome and the table after it as inputs, and does not assume it is atomic. Likewise `StockErrorConsumer.cs:37` calls `SaveChangesAsync` on `ISaleRepository`, which does not declare it. The model gives that call the behaviour of `SaleRepository.SaveChangesAsync`.
- StockConsumers.SalePaidConsumer.Consume: only a throw from the batch call is modelled. A throw from `Publish` or `SaveChangesAsync` inside the same `try` is not.
- Message transport, retries, error queues and the outbox are not modelled, and neither is concurrency between consumers and HTTP requests. `SaleCancelledEvent.CancelledAt` is carried but not used. The correlation id of the sales-side `SalePaidEvent` is not modelled.
- Logging is not modelled.
- AutoMapper projections to DTOs and the controller's HTTP status codes, other than the listing's not-found case, are not modelled.
- Entity Framework fix-up of `SaleItem.SaleId` is not modelled: items keep the sale id the sale had when they were added, which is 0 before the first save. `SaleItem.Id` is not modelled.
- The product key is spelled `ProductID` on the entity and `ProductId` in queries. The model treats both as one key.
- Integer widths: quantities, prices and page arithmetic are unbounded. `-quantity` at the smallest 32-bit value and overflow of `(pageNumber - 1) * pageSize` are not modelled.
- Paging.SortDesc: elements with equal keys keep their input order. The SQL `ORDER BY … DESC` that the repository's query becomes promises no order among equal keys.
- SaleRepositories.SaleRepository.GetSales: sales with equal `CreatedAt` are paged in table order. The database may order them differently on each query, so across pages the source may repeat or skip such sales, which the model does not capture.
- Paging.CeilDiv: `Math.Ceiling` of a `double` quotient is modelled as exact integer ceiling division, so rounding of very large counts is not captured.
- SalesListings.ListSalesAsWritten: requires a page size of at least 1. With size 0 the `double` quotient is infinite or NaN and its cast to `int` is unspecified. With a negative size the response echoes that size and reports a page count that is zero or negative (100 sales and size −5 give −20 pages and no next page). Neither case is modelled.
- SaleServices.InitialStatusEffect: `CreateSaleRequestDTO.InitialStatus` is a nullable `SaleStatus` with no `[EnumDataType]`, so an integer that names no status reaches the `default:` branch of `SaleService.cs:56-57` and throws `InvalidOperationException`. `Option<SaleStatus>` cannot hold such a value; its outcome is the same refusal the model gives Completed and Cancelled.
- Request DTO annotations such as a minimum quantity are not preconditions. Negative quantities are handled as `ValidateItems` handles them.

## Findings

| source | as written | input that shows it | evidently intended | confidence | as-written member | corrected member |
|---|---|---|---|---|---|---|
| SalesManager.API/Controllers/SalesController.cs:81-86 | the `PagedResponse` is built from the requested `pageNumber` and `pageSize`, although the service replaced an out-of-range size with 20 | 100 sales, page 1, size 500: 20 sales are returned, yet TotalPages is 1 and HasNext is false | build the response from the page number and size the service actually used | not executed | SalesListings.ListSalesAsWritten, SalesListings.AsWrittenMisreportsOversizedPage | SalesListings.ListSales, SalesListings.ListSalesReportsNextHonestly |
