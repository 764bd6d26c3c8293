/**
 Per-receipt and global purchasing balances never diverge.
 */
module PurchasingAccounts {
  import opened Core
  import opened Purchasing

  lemma RefundedNonNegative(s: Purchase, id: Guid)
    requires FactShapes(s)
    ensures Refunded(s.refunds, id) >= 0
  {
    var part := Part(RefundTarget, ActiveRefund, id);
    forall i | 0 <= i < |s.refunds|
      ensures 0 <= part(s.refunds[i])
    {
      assert ValidFact(RefundAsFact(s.refunds[i]), s.unit.precision);
      assert IsAmount(s.refunds[i].amount);
      assert part(s.refunds[i]) == if RefundTarget(s.refunds[i]) == id then ActiveRefund(s.refunds[i]) else 0;
    }
    SumBounds(s.refunds, _ => 0, part);
    SumZero(s.refunds, _ => 0);
  }

  /** Every active refund is returned from exactly one active payment. */
  lemma ReturnsAddUp(s: Purchase)
    requires IdsValid(s) && FactShapes(s) && FinanciallyValid(s)
    ensures Sum(s.payments, ReturnedFrom(s.refunds)) == RefundedAmount(s)
  {
    var ids := PaymentIds(s.payments);
    var byId := (k: Guid) => GroupSum(s.refunds, RefundTarget, ActiveRefund, k);
    UniqueEntries(s);
    forall i | 0 <= i < |s.refunds|
      ensures RefundTarget(s.refunds[i]) in ids
    {
      assert RefundStands(s, s.refunds[i]);
      var j :| 0 <= j < |s.payments| && s.payments[j].entryId == s.refunds[i].paymentId;
      assert ids[j] == s.refunds[i].paymentId;
    }
    GroupsPartition(ids, s.refunds, RefundTarget, ActiveRefund);
    SumEqual(ids, ids, k => GroupSum(s.refunds, RefundTarget, ActiveRefund, k), byId);
    var returned := ReturnedFrom(s.refunds);
    forall i | 0 <= i < |s.payments|
      ensures returned(s.payments[i]) == byId(ids[i])
    {
      assert PaymentStands(s, s.payments[i]);
      RefundedNonNegative(s, s.payments[i].entryId);
    }
    SumEqual(s.payments, ids, returned, byId);
  }

  /** Summing a weight of the payments receipt by receipt counts every payment once. */
  lemma PaymentsAddUp(s: Purchase, weight: Payment -> int, byReceipt: Receipt -> int)
    requires IdsValid(s) && FinanciallyValid(s)
    requires forall r :: byReceipt(r) == GroupSum(s.payments, PaymentTarget, weight, r.entryId)
    ensures Sum(s.receipts, byReceipt) == Sum(s.payments, weight)
  {
    var ids := ReceiptIds(s.receipts);
    var byId := (k: Guid) => GroupSum(s.payments, PaymentTarget, weight, k);
    UniqueEntries(s);
    forall i | 0 <= i < |s.payments|
      ensures PaymentTarget(s.payments[i]) in ids
    {
      assert PaymentStands(s, s.payments[i]);
      var j :| 0 <= j < |s.receipts| && s.receipts[j].entryId == s.payments[i].receiptId;
      assert ids[j] == s.payments[i].receiptId;
    }
    GroupsPartition(ids, s.payments, PaymentTarget, weight);
    SumEqual(ids, ids, k => GroupSum(s.payments, PaymentTarget, weight, k), byId);
    SumEqual(s.receipts, ids, byReceipt, byId);
  }

  /** The global payable is the sum of what each receipt still owes, between zero and the total cost. */
  lemma PayableIsSumOfOutstanding(limits: Limits, s: Purchase)
    requires ValidSnapshot(limits, s)
    ensures OutstandingPayable(s) == Sum(s.receipts, r => OutstandingOf(s, r))
    ensures 0 <= OutstandingPayable(s) <= TotalCost(s)
  {
    var paid := (r: Receipt) => GroupSum(s.payments, PaymentTarget, ActivePayment, r.entryId);
    var returned := (r: Receipt) => GroupSum(s.payments, PaymentTarget, ReturnedFrom(s.refunds), r.entryId);
    var gross := (r: Receipt) => ActiveCost(r) + returned(r);
    var owed := (r: Receipt) => OutstandingOf(s, r);
    PaymentsAddUp(s, ActivePayment, paid);
    PaymentsAddUp(s, ReturnedFrom(s.refunds), returned);
    ReturnsAddUp(s);
    SumLinear(s.receipts, ActiveCost, returned, gross);
    SumLinear(s.receipts, owed, paid, gross);
    SumEqual(s.receipts, s.receipts, r => OutstandingOf(s, r), owed);
    SumBounds(s.receipts, _ => 0, owed);
    SumZero(s.receipts, _ => 0);
    ReturnsAtMostPaid(s);
  }

  lemma ReturnsAtMostPaid(s: Purchase)
    requires FactShapes(s) && FinanciallyValid(s)
    ensures Sum(s.payments, ReturnedFrom(s.refunds)) <= PaidAmount(s)
  {
    var returned := ReturnedFrom(s.refunds);
    forall i | 0 <= i < |s.payments|
      ensures returned(s.payments[i]) <= ActivePayment(s.payments[i])
    {
      assert PaymentStands(s, s.payments[i]);
    }
    SumBounds(s.payments, returned, ActivePayment);
  }
}
