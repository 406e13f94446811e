/** Which bookings offer a "Process Refund" action, what the refund
    column shows otherwise, and how an accepted decision rewrites the
    local booking list. */
module Refunds {
  import opened Bookings

  /** `paymentStatus === "CANCELLED" && refundedAmount > 0 && refundStatus === "PENDING"`;
      a missing refunded amount compares as not greater than zero. */
  predicate IsRefundActionable(b: Booking): (actionable: bool)
    ensures actionable <==> b.paymentStatus == Some("CANCELLED") && b.refundStatus == Some("PENDING")
                            && b.refundedAmount.Some? && b.refundedAmount.value > 0
  {
    && b.paymentStatus == Some("CANCELLED")
    && b.refundedAmount.Some? && b.refundedAmount.value > 0
    && b.refundStatus == Some("PENDING")
  }

  /** What the refund column of a row holds. */
  datatype RefundCell = ProcessRefundButton | StatusText(text: string)

  function RefundCellFor(b: Booking): (c: RefundCell)
    ensures c.ProcessRefundButton? <==> IsRefundActionable(b)
    ensures c.StatusText? ==> c.text != "" && (c.text == "N/A" <==> !Truthy(b.refundStatus) || b.refundStatus == Some("N/A"))
    ensures c.StatusText? && Truthy(b.refundStatus) ==> c.text == b.refundStatus.value
  {
    if IsRefundActionable(b) then ProcessRefundButton else StatusText(DisplayText(b.refundStatus))
  }

  /** A cancelled booking with a positive refund that is pending gets the button; an approved one does not. */
  lemma RefundCellExamples(b: Booking)
    requires b.paymentStatus == Some("CANCELLED") && b.refundedAmount == Some(100)
    ensures b.refundStatus == Some("PENDING") ==> RefundCellFor(b) == ProcessRefundButton
    ensures b.refundStatus == Some("APPROVED") ==> RefundCellFor(b) == StatusText("APPROVED")
    ensures b.refundStatus == None ==> RefundCellFor(b) == StatusText("N/A")
  {
  }

  /** The refund status an accepted decision records: "APPROVED" for "accept", "REJECTED" for anything else. */
  function DecisionStatus(action: string): (s: string)
    ensures s == "APPROVED" <==> action == "accept"
    ensures s == "REJECTED" <==> action != "accept"
  {
    if action == "accept" then "APPROVED" else "REJECTED"
  }

  /** a and b agree on every field except, possibly, refundStatus. */
  predicate SameExceptRefundStatus(a: Booking, b: Booking) {
    a.(refundStatus := b.refundStatus) == b
  }

  /** The mapping callback: the targeted booking gets the new status, any other is returned as it is. */
  function Decided(b: Booking, orderId: Option<string>, status: string): (r: Booking)
    ensures SameExceptRefundStatus(r, b) && r.orderId == b.orderId
    ensures b.orderId == orderId ==> r.refundStatus == Some(status)
    ensures b.orderId != orderId ==> r == b
  {
    if b.orderId == orderId then b.(refundStatus := Some(status)) else b
  }

  /** `prevBookings.map(...)` on an accepted decision: every booking whose orderId equals the selected one
      (`===`, so a missing orderId matches every other missing orderId) gets the new status and nothing else. */
  function WithDecision(bookings: seq<Booking>, orderId: Option<string>, status: string): (r: seq<Booking>)
    ensures |r| == |bookings|
    ensures forall i :: 0 <= i < |r| ==> SameExceptRefundStatus(r[i], bookings[i])
    ensures forall i :: 0 <= i < |r| && bookings[i].orderId == orderId ==> r[i].refundStatus == Some(status)
    ensures forall i :: 0 <= i < |r| && bookings[i].orderId != orderId ==> r[i] == bookings[i]
  {
    if bookings == [] then []
    else [Decided(bookings[0], orderId, status)] + WithDecision(bookings[1..], orderId, status)
  }

  /** The per-element update, one booking at a time. */
  method ApplyDecision(bookings: seq<Booking>, orderId: Option<string>, status: string) returns (r: seq<Booking>)
    ensures r == WithDecision(bookings, orderId, status)
  {
    r := [];
    var i := 0;
    while i < |bookings|
      invariant 0 <= i <= |bookings|
      invariant |r| == i
      invariant forall k :: 0 <= k < i ==> r[k] == Decided(bookings[k], orderId, status)
    {
      r := r + [Decided(bookings[i], orderId, status)];
      i := i + 1;
    }
    ghost var w := WithDecision(bookings, orderId, status);
    assert forall k :: 0 <= k < |w| ==> w[k] == Decided(bookings[k], orderId, status);
  }

  /** After a decision, no booking with the decided orderId still offers the refund action. */
  lemma DecisionSettlesRefund(bookings: seq<Booking>, orderId: Option<string>, action: string)
    ensures forall b :: b in WithDecision(bookings, orderId, DecisionStatus(action)) && b.orderId == orderId
                        ==> !IsRefundActionable(b)
  {
  }

  /** A decision never makes a booking actionable that was not actionable before. */
  lemma DecisionOnlyRemovesActions(bookings: seq<Booking>, orderId: Option<string>, action: string)
    ensures forall i :: 0 <= i < |bookings| && IsRefundActionable(WithDecision(bookings, orderId, DecisionStatus(action))[i])
                        ==> IsRefundActionable(bookings[i])
  {
  }

  /** Applying the same decision twice is the same as applying it once. */
  lemma {:induction false} DecisionIdempotent(bookings: seq<Booking>, orderId: Option<string>, status: string)
    ensures WithDecision(WithDecision(bookings, orderId, status), orderId, status) == WithDecision(bookings, orderId, status)
  {
    var once := WithDecision(bookings, orderId, status);
    var twice := WithDecision(once, orderId, status);
    assert forall i :: 0 <= i < |twice| ==> twice[i] == once[i];
  }
}
