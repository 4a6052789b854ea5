/**
 * The sales service's consumers of the stock service's replies. A stock error compensates
 * the premature payment by cancelling the sale, through the entity's own status rule.
 */
module SalesConsumers {
  import opened Outcomes
  import opened SaleStatuses
  import opened Sales
  import opened SaleRepositories
  import opened SagaEvents
  import StockConsumers

  /**
   * What handling a stock error does, given the status of the sale with the message's id
   * (none when there is no such sale): nothing for an unknown sale, the cancel rule of the
   * entity otherwise. The reason text is not an argument: it cannot change the decision.
   */
  function StockErrorDecision(found: Option<SaleStatus>): (r: Outcome)
    ensures found.None? ==> r == Pass
    ensures found.Some? ==> (r.Pass? <==> found.value == PendingPayment || found.value == Paid)
    ensures r.Fail? ==> r.error == InvalidOperation
    ensures found.Some? ==> (r.Pass? <==> Transition(found.value, MarkCancelled).Some?)
  {
    match found
    case None => Pass
    case Some(s) => if s == PendingPayment || s == Paid then Pass else Fail(InvalidOperation)
  }

  /**
   * A stock error delivered twice for a sale that the first delivery cancelled fails the
   * second time instead of being ignored.
   */
  lemma RedeliveredErrorFails(s: SaleStatus)
    requires StockErrorDecision(Some(s)).Pass?
    ensures After(s, MarkCancelled) == Cancelled
    ensures StockErrorDecision(Some(After(s, MarkCancelled))) == Fail(InvalidOperation)
  {
  }

  /**
   * The saga's failure path end to end: when the deduction batch for a paid sale fails, the
   * stock service replies with an error about that same sale, and handling that reply cancels
   * the sale if it is still pending or paid.
   */
  lemma FailedDeductionCancelsPaidSale(message: SalePaidEvent, now: int, s: SaleStatus)
    requires s == PendingPayment || s == Paid
    ensures var reply := StockConsumers.PaidReply(message, StockConsumers.BatchFailed, now);
      && reply.Some? && reply.value.Failed?
      && reply.value.failure.saleId == message.saleId
      && StockErrorDecision(Some(s)) == Pass
      && After(s, MarkCancelled) == Cancelled
  {
  }

  class StockErrorConsumer {
    const repo: SaleRepository

    constructor (repo: SaleRepository)
      ensures this.repo == repo
    {
      this.repo := repo;
    }

    /**
     * Consume: an unknown sale is logged and nothing changes; otherwise the sale is cancelled
     * by the entity rule and the change saved. A refused cancel (Shipped, Completed or
     * Cancelled) is rethrown, with nothing saved.
     */
    method Consume(message: StockErrorEvent) returns (r: Outcome)
      requires repo.Valid()
      modifies repo.sales, repo`saves
      ensures repo.Valid()
      ensures var found := old(repo.GetById(message.saleId));
        r == StockErrorDecision(if found.Some? then Some(old(found.value.status)) else None)
      ensures old(repo.GetById(message.saleId)).None? ==> repo.saves == old(repo.saves)
      ensures old(repo.GetById(message.saleId)).Some? ==>
        var sale := old(repo.GetById(message.saleId)).value;
        && sale.status == After(old(sale.status), MarkCancelled)
        && repo.saves == old(repo.saves) + (if r.Pass? then 1 else 0)
      ensures forall s :: s in repo.sales ==>
        s.items == old(s.items) && s.totalPrice == old(s.totalPrice) && s.id == old(s.id)
      ensures forall s :: s in repo.sales && Some(s) != old(repo.GetById(message.saleId)) ==> s.status == old(s.status)
    {
      var found := repo.GetById(message.saleId);
      if found.None? {
        return Pass;
      }
      var sale := found.value;
      r := sale.SetStatusToCancel();
      if r.Fail? {
        return;
      }
      repo.SaveChanges();
    }
  }

  class StockResponseConsumer {
    const repo: SaleRepository

    constructor (repo: SaleRepository)
      ensures this.repo == repo
    {
      this.repo := repo;
    }

    /** Consume(StockSuccessEvent): only logs; it changes no state and never fails. */
    method ConsumeSuccess(message: StockSuccessEvent) returns (r: Outcome)
      ensures r == Pass
    {
      r := Pass;
    }

    /**
     * Consume(StockErrorEvent): as the error consumer, but the change is only marked, never
     * saved, and a refused cancel propagates because nothing catches it.
     */
    method ConsumeError(message: StockErrorEvent) returns (r: Outcome)
      requires repo.Valid()
      modifies repo.sales
      ensures repo.Valid()
      ensures var found := old(repo.GetById(message.saleId));
        r == StockErrorDecision(if found.Some? then Some(old(found.value.status)) else None)
      ensures old(repo.GetById(message.saleId)).Some? ==>
        var sale := old(repo.GetById(message.saleId)).value;
        sale.status == After(old(sale.status), MarkCancelled)
      ensures forall s :: s in repo.sales ==>
        s.items == old(s.items) && s.totalPrice == old(s.totalPrice) && s.id == old(s.id)
      ensures forall s :: s in repo.sales && Some(s) != old(repo.GetById(message.saleId)) ==> s.status == old(s.status)
    {
      var found := repo.GetById(message.saleId);
      if found.None? {
        return Pass;
      }
      r := found.value.SetStatusToCancel();
    }
  }
}
