/**
 * The stock service's saga consumers. The stock batch they call is not part of this model:
 * what it answers is an input, and the model records each call with its arguments. The
 * consumer's context records the events published and the SaveChangesAsync calls.
 */
module StockConsumers {
  import opened Outcomes
  import opened SagaEvents
  import opened Inventory

  /** What the batch call answered: true, false, or an exception. */
  datatype BatchOutcome = BatchSucceeded | BatchFailed | BatchThrew(error: Error)

  /**
   * What the batch call did: its answer and the product table it left behind. Nothing ties
   * the two together: the batch is not assumed to be atomic, so a failed or throwing batch
   * may have changed some quantities.
   */
  datatype BatchEffect = BatchEffect(outcome: BatchOutcome, catalogAfter: Catalog)

  /** One call of UpdateStockBatchAsync: the items and whether they are taken out. */
  datatype BatchRequest = BatchRequest(items: seq<SaleItemMessage>, isDeduction: bool)

  /** The stock-side state a consumer touches: the product table, batch calls, published events and saves. */
  class StockContext {
    var products: Catalog
    var batchCalls: seq<BatchRequest>
    var published: seq<StockReply>
    var saves: nat

    constructor (initial: Catalog)
      ensures products == initial && batchCalls == [] && published == [] && saves == 0
    {
      products := initial;
      batchCalls := [];
      published := [];
      saves := 0;
    }
  }

  /**
   * The reply to a paid sale for each batch answer: a success event with the sale's id and
   * the processing time, an error event with the sale's id and the insufficient-stock reason,
   * or nothing when the batch threw.
   */
  function PaidReply(message: SalePaidEvent, outcome: BatchOutcome, now: int): (r: Option<StockReply>)
    ensures r.None? <==> outcome.BatchThrew?
    ensures r.Some? ==> r.value.SaleId() == message.saleId
    ensures r.Some? ==> (r.value.Succeeded? <==> outcome == BatchSucceeded)
    ensures outcome == BatchSucceeded ==> r == Some(Succeeded(StockSuccessEvent(message.saleId, now)))
    ensures outcome == BatchFailed ==> r == Some(Failed(StockErrorEvent(message.saleId, InsufficientStock)))
  {
    match outcome
    case BatchSucceeded => Some(Succeeded(StockSuccessEvent(message.saleId, now)))
    case BatchFailed => Some(Failed(StockErrorEvent(message.saleId, InsufficientStock)))
    case BatchThrew(_) => None
  }

  /** The events a paid-sale message leads to: the reply, if any, and nothing else. */
  function Published(message: SalePaidEvent, outcome: BatchOutcome, now: int): (events: seq<StockReply>)
    ensures |events| <= 1
    ensures |events| == 1 <==> !outcome.BatchThrew?
    ensures forall e :: e in events ==> e.SaleId() == message.saleId
  {
    match PaidReply(message, outcome, now)
    case Some(reply) => [reply]
    case None => []
  }

  class SalePaidConsumer {
    const context: StockContext

    constructor (context: StockContext)
      ensures this.context == context
    {
      this.context := context;
    }

    /**
     * Consume: one deduction batch over exactly the message's items; on success or failure
     * one reply is published and the context saved; when the batch throws, nothing is
     * published and the exception propagates.
     */
    method Consume(message: SalePaidEvent, effect: BatchEffect, now: int) returns (r: Outcome)
      modifies context
      ensures var outcome := effect.outcome;
        && context.products == effect.catalogAfter
        && context.batchCalls == old(context.batchCalls) + [BatchRequest(message.items, true)]
        && context.published == old(context.published) + Published(message, outcome, now)
        && (outcome.BatchThrew? ==> r == Fail(outcome.error) && context.saves == old(context.saves))
        && (!outcome.BatchThrew? ==> r == Pass && context.saves == old(context.saves) + 1)
    {
      var outcome := effect.outcome;
      context.products := effect.catalogAfter;
      context.batchCalls := context.batchCalls + [BatchRequest(message.items, true)];
      if outcome.BatchThrew? {
        return Fail(outcome.error);
      }
      if outcome == BatchSucceeded {
        context.published := context.published + [Succeeded(StockSuccessEvent(message.saleId, now))];
        context.saves := context.saves + 1;
      } else {
        context.published := context.published + [Failed(StockErrorEvent(message.saleId, InsufficientStock))];
        context.saves := context.saves + 1;
      }
      r := Pass;
    }
  }

  class SaleCancelledConsumer {
    const context: StockContext

    constructor (context: StockContext)
      ensures this.context == context
    {
      this.context := context;
    }

    /**
     * Consume: one increase batch over exactly the message's items; nothing is published;
     * the context is saved only when the batch succeeded, and a failed batch is only logged.
     * An exception from the batch propagates (there is no catch).
     */
    method Consume(message: SaleCancelledEvent, effect: BatchEffect) returns (r: Outcome)
      modifies context
      ensures var outcome := effect.outcome;
        && context.products == effect.catalogAfter
        && context.batchCalls == old(context.batchCalls) + [BatchRequest(message.items, false)]
        && context.published == old(context.published)
        && context.saves == old(context.saves) + (if outcome == BatchSucceeded then 1 else 0)
        && r == (if outcome.BatchThrew? then Fail(outcome.error) else Pass)
    {
      var outcome := effect.outcome;
      context.products := effect.catalogAfter;
      context.batchCalls := context.batchCalls + [BatchRequest(message.items, false)];
      if outcome.BatchThrew? {
        return Fail(outcome.error);
      }
      if outcome == BatchSucceeded {
        context.saves := context.saves + 1;
      }
      r := Pass;
    }
  }
}
