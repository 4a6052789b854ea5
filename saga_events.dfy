/**
 * The messages the two services exchange through the broker. Times are inputs (ints).
 * The sales-side copy of SalePaidEvent also carries a correlation id, which no consumer reads.
 */
module SagaEvents {

  /** One item of a sale as sent to the stock service. */
  datatype SaleItemMessage = SaleItemMessage(productId: int, quantity: int)

  /** A sale was paid: take these items out of stock. */
  datatype SalePaidEvent = SalePaidEvent(saleId: int, items: seq<SaleItemMessage>)

  /** A sale was cancelled: put these items back into stock. */
  datatype SaleCancelledEvent = SaleCancelledEvent(saleId: int, cancelledAt: int, items: seq<SaleItemMessage>)

  /** The stock service processed a paid sale. */
  datatype StockSuccessEvent = StockSuccessEvent(saleId: int, processedAt: int)

  /** The stock service could not process a paid sale. */
  datatype StockErrorEvent = StockErrorEvent(saleId: int, reason: string)

  /** A reply the stock service publishes. */
  datatype StockReply =
    | Succeeded(success: StockSuccessEvent)
    | Failed(failure: StockErrorEvent)
  {
    /** The sale the reply is about. */
    function SaleId(): int {
      match this
      case Succeeded(e) => e.saleId
      case Failed(e) => e.saleId
    }
  }

  /** The reason text of the error reply to a failed deduction. */
  const InsufficientStock: string := "Estoque insuficiente"
}
