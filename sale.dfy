/** The Sale aggregate: an entity whose methods update its fields in place. */
module Sales {
  import opened Outcomes
  import opened SaleStatuses
  import opened SaleItems

  class Sale {
    /** Assigned by the store when the sale is first added; 0 before that. */
    var id: int
    const customerId: int
    /** The creation instant (the clock is an input). */
    const createdAt: int
    var status: SaleStatus
    /** In cents. */
    var totalPrice: int
    var items: seq<SaleItem>

    /** The total price is the sum of the item subtotals. */
    ghost predicate Valid()
      reads this`totalPrice, this`items
    {
      totalPrice == Total(items)
    }

    /** A new sale is pending payment, has no items and a total of 0. */
    constructor (customerId: int, createdAt: int)
      ensures this.customerId == customerId && this.createdAt == createdAt
      ensures id == 0 && status == PendingPayment && items == [] && totalPrice == 0
      ensures Valid()
    {
      this.customerId := customerId;
      this.createdAt := createdAt;
      id := 0;
      status := PendingPayment;
      totalPrice := 0;
      items := [];
    }

    /**
     * Appends one item (carrying the sale's current id) and recomputes the total; throws,
     * leaving everything unchanged, unless the sale is pending payment.
     */
    method AddItem(productId: int, quantity: int, unitPrice: int) returns (r: Outcome)
      modifies this`items, this`totalPrice
      ensures r.Pass? <==> old(status) == PendingPayment
      ensures r.Fail? ==> r.error == InvalidOperation
      ensures r.Pass? ==> items == old(items) + [SaleItem(id, productId, quantity, unitPrice)]
      ensures r.Pass? ==> totalPrice == old(Total(items)) + quantity * unitPrice && Valid()
      ensures r.Fail? ==> items == old(items) && totalPrice == old(totalPrice)
      ensures id == old(id) && status == old(status)
    {
      if status != PendingPayment {
        return Fail(InvalidOperation);
      }
      var newItem := SaleItem(id, productId, quantity, unitPrice);
      items := items + [newItem];
      CalculateTotalPrice();
      TotalOfAppend(old(items), newItem);
      r := Pass;
    }

    /** Sets the total price to the sum of the item subtotals. */
    method CalculateTotalPrice()
      modifies this`totalPrice
      ensures totalPrice == Total(items) && Valid()
    {
      totalPrice := Total(items);
    }

    /** PendingPayment becomes Paid; from any other status nothing changes and nothing is thrown. */
    method SetStatusToPaid()
      modifies this`status
      ensures status == (if old(status) == PendingPayment then Paid else old(status))
      ensures status == After(old(status), MarkPaid)
    {
      if status == PendingPayment {
        status := Paid;
      }
    }

    /** Paid becomes Shipped; from any other status it throws and nothing changes. */
    method SetStatusToShipped() returns (r: Outcome)
      modifies this`status
      ensures r.Pass? <==> old(status) == Paid
      ensures r == Pass || r == Fail(InvalidOperation)
      ensures status == (if r.Pass? then Shipped else old(status))
      ensures status == After(old(status), MarkShipped)
    {
      if status == Paid {
        status := Shipped;
        r := Pass;
      } else {
        r := Fail(InvalidOperation);
      }
    }

    /**
     * Any status other than Shipped, Completed and Cancelled becomes Cancelled; from those
     * three it throws and nothing changes.
     */
    method SetStatusToCancel() returns (r: Outcome)
      modifies this`status
      ensures r.Pass? <==> old(status) == PendingPayment || old(status) == Paid
      ensures r == Pass || r == Fail(InvalidOperation)
      ensures status == (if r.Pass? then Cancelled else old(status))
      ensures status == After(old(status), MarkCancelled)
    {
      if status != Shipped && status != Completed && status != Cancelled {
        status := Cancelled;
        r := Pass;
      } else {
        r := Fail(InvalidOperation);
      }
    }

    /** Shipped becomes Completed; from any other status it throws and nothing changes. */
    method SetStatusToCompleted() returns (r: Outcome)
      modifies this`status
      ensures r.Pass? <==> old(status) == Shipped
      ensures r == Pass || r == Fail(InvalidOperation)
      ensures status == (if r.Pass? then Completed else old(status))
      ensures status == After(old(status), MarkCompleted)
    {
      if status == Shipped {
        status := Completed;
        r := Pass;
      } else {
        r := Fail(InvalidOperation);
      }
    }
  }
}
