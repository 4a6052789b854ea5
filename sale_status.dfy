/** The sale status enumeration and the status rules of the Sale entity, as pure functions. */
module SaleStatuses {
  import opened Outcomes

  /** Declared in this order; the business rules compare the underlying values. */
  datatype SaleStatus = PendingPayment | Paid | Shipped | Completed | Cancelled

  /** The enum's underlying integer value (declaration order, from 0). */
  function Ordinal(s: SaleStatus): (n: nat)
    ensures n <= 4
    ensures n == 4 <==> s == Cancelled
  {
    match s
    case PendingPayment => 0
    case Paid => 1
    case Shipped => 2
    case Completed => 3
    case Cancelled => 4
  }

  /** No status method of the entity leads out of these. */
  predicate IsTerminal(s: SaleStatus) {
    s == Completed || s == Cancelled
  }

  /** The four status-changing methods of the Sale entity. */
  datatype StatusCommand = MarkPaid | MarkShipped | MarkCancelled | MarkCompleted

  /**
   * The status a command leads to, or None where the entity method throws.
   * Paying is a silent no-op outside PendingPayment, so it never throws.
   */
  function Transition(s: SaleStatus, c: StatusCommand): (r: Option<SaleStatus>)
    ensures c == MarkPaid ==> r.Some?
    ensures r.Some? && r.value != s ==> Ordinal(s) < Ordinal(r.value)
    ensures IsTerminal(s) ==> r.None? || r.value == s
  {
    match c
    case MarkPaid => Some(if s == PendingPayment then Paid else s)
    case MarkShipped => if s == Paid then Some(Shipped) else None
    case MarkCancelled =>
      if s != Shipped && s != Completed && s != Cancelled then Some(Cancelled) else None
    case MarkCompleted => if s == Shipped then Some(Completed) else None
  }

  /** The status after attempting a command: a thrown command leaves it unchanged. */
  function After(s: SaleStatus, c: StatusCommand): SaleStatus {
    match Transition(s, c)
    case Some(t) => t
    case None => s
  }

  /**
   * A command changes the status exactly on the four forward moves the entity allows:
   * pay from PendingPayment, ship from Paid, complete from Shipped and cancel from
   * PendingPayment or Paid. Every other attempt leaves it where it was.
   */
  lemma StatusChangesExactly(s: SaleStatus, c: StatusCommand)
    ensures After(s, c) != s <==>
      || (c == MarkPaid && s == PendingPayment)
      || (c == MarkShipped && s == Paid)
      || (c == MarkCompleted && s == Shipped)
      || (c == MarkCancelled && (s == PendingPayment || s == Paid))
    ensures After(s, c) != s ==> Ordinal(s) < Ordinal(After(s, c))
  {
  }

  /** The statuses a sale goes through when the commands are attempted one after another. */
  function History(s: SaleStatus, cs: seq<StatusCommand>): (h: seq<SaleStatus>)
    ensures |h| == |cs| + 1 && h[0] == s
    decreases |cs|
  {
    if cs == [] then [s] else [s] + History(After(s, cs[0]), cs[1..])
  }

  /** Later statuses never have a smaller ordinal than earlier ones. */
  predicate NonDecreasing(h: seq<SaleStatus>) {
    forall i, j :: 0 <= i <= j < |h| ==> Ordinal(h[i]) <= Ordinal(h[j])
  }

  /** A status no larger than the first of a non-decreasing history can be put in front of it. */
  lemma ConsNonDecreasing(s: SaleStatus, tail: seq<SaleStatus>)
    requires NonDecreasing(tail) && |tail| > 0 && Ordinal(s) <= Ordinal(tail[0])
    ensures NonDecreasing([s] + tail)
  {
    var h := [s] + tail;
    forall i, j | 0 <= i <= j < |h|
      ensures Ordinal(h[i]) <= Ordinal(h[j])
    {
      if j > 0 {
        assert h[j] == tail[j - 1];
        if i > 0 {
          assert h[i] == tail[i - 1];
        } else {
          assert Ordinal(tail[0]) <= Ordinal(tail[j - 1]);
        }
      }
    }
  }

  /** The status ordinal never decreases along a sale's history. */
  lemma {:induction false} HistoryIsMonotone(s: SaleStatus, cs: seq<StatusCommand>)
    ensures NonDecreasing(History(s, cs))
    decreases |cs|
  {
    if cs != [] {
      var t := After(s, cs[0]);
      HistoryIsMonotone(t, cs[1..]);
      ConsNonDecreasing(s, History(t, cs[1..]));
    }
  }

  /** Once Completed or Cancelled, every later status is the same. */
  lemma {:induction false} TerminalIsAbsorbing(s: SaleStatus, cs: seq<StatusCommand>)
    requires IsTerminal(s)
    ensures forall t :: t in History(s, cs) ==> t == s
    decreases |cs|
  {
    if cs != [] {
      TerminalIsAbsorbing(After(s, cs[0]), cs[1..]);
    }
  }
}
