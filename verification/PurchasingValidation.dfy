/**
 The snapshot validator as the source runs it: two hash sets filled while the three
 fact lists are scanned, then the financial scan. Proved against ValidSnapshot.
 */
module PurchasingValidation {
  import opened Core
  import opened Purchasing

  lemma PrefixDistinct<T>(p: seq<T>, s: seq<T>)
    requires p <= s && Distinct(s)
    ensures Distinct(p)
  {
    assert forall i :: 0 <= i < |p| ==> p[i] == s[i];
  }

  /** What the hash sets know after scanning a prefix of the identities. */
  ghost predicate Scanned(ids: set<Guid>, effects: set<Guid>, entries: seq<Guid>, effective: seq<Guid>) {
    ids == (set x | x in entries) && effects == (set x | x in effective) &&
    EMPTY !in entries && EMPTY !in effective && Distinct(entries) && Distinct(effective)
  }

  /** One pair of HashSet.Add calls: it fails exactly on an empty or repeated identity. */
  method AddIds(id: Guid, effect: Guid, ids: set<Guid>, effects: set<Guid>, ghost entries: seq<Guid>, ghost effective: seq<Guid>)
    returns (ok: bool, ids': set<Guid>, effects': set<Guid>)
    requires Scanned(ids, effects, entries, effective)
    ensures ok ==> Scanned(ids', effects', entries + [id], effective + [effect])
    ensures !ok ==> id == EMPTY || effect == EMPTY || !Distinct(entries + [id]) || !Distinct(effective + [effect])
  {
    DistinctAppend(entries, id);
    DistinctAppend(effective, effect);
    ok := id != EMPTY && effect != EMPTY && id !in ids && effect !in effects;
    ids', effects' := ids + {id}, effects + {effect};
  }

  lemma RepeatedId(s: Purchase, entries: seq<Guid>, effective: seq<Guid>)
    requires entries <= EntryIds(s) && effective <= EffectiveIds(s)
    requires EMPTY in entries || EMPTY in effective || !Distinct(entries) || !Distinct(effective)
    ensures !IdsValid(s)
  {
    if Distinct(EntryIds(s)) { PrefixDistinct(entries, EntryIds(s)); }
    if Distinct(EffectiveIds(s)) { PrefixDistinct(effective, EffectiveIds(s)); }
  }

  method ScanReceipts(s: Purchase) returns (ok: bool, ids: set<Guid>, effects: set<Guid>)
    requires HeaderValid(s)
    ensures ok ==> Scanned(ids, effects, ReceiptIds(s.receipts), ReceiptEffects(s.receipts))
    ensures ok ==> forall i :: 0 <= i < |s.receipts| ==> ReceiptShape(s.receipts[i], s.unit.precision)
    ensures !ok ==> !(IdsValid(s) && FactShapes(s))
  {
    ghost var a, a' := ReceiptIds(s.receipts), ReceiptEffects(s.receipts);
    ids, effects := {}, {};
    for i := 0 to |s.receipts|
      invariant Scanned(ids, effects, a[..i], a'[..i])
      invariant forall j :: 0 <= j < i ==> ReceiptShape(s.receipts[j], s.unit.precision)
    {
      var r := s.receipts[i];
      assert a[..i + 1] == a[..i] + [r.entryId] && a'[..i + 1] == a'[..i] + [r.effectiveId];
      var added: bool;
      added, ids, effects := AddIds(r.entryId, r.effectiveId, ids, effects, a[..i], a'[..i]);
      if !added || !ReceiptShape(r, s.unit.precision) {
        if !added { RepeatedId(s, a[..i + 1], a'[..i + 1]); }
        return false, ids, effects;
      }
    }
    assert a[..|a|] == a && a'[..|a'|] == a';
    ok := true;
  }

  method ScanPayments(s: Purchase, ids0: set<Guid>, effects0: set<Guid>)
    returns (ok: bool, ids: set<Guid>, effects: set<Guid>)
    requires HeaderValid(s) && Scanned(ids0, effects0, ReceiptIds(s.receipts), ReceiptEffects(s.receipts))
    ensures ok ==> Scanned(ids, effects, ReceiptIds(s.receipts) + PaymentIds(s.payments),
                           ReceiptEffects(s.receipts) + PaymentEffects(s.payments))
    ensures ok ==> forall i :: 0 <= i < |s.payments| ==> ValidFact(AsFact(s.payments[i]), s.unit.precision)
    ensures !ok ==> !(IdsValid(s) && FactShapes(s))
  {
    ghost var a, a' := ReceiptIds(s.receipts), ReceiptEffects(s.receipts);
    ghost var b, b' := PaymentIds(s.payments), PaymentEffects(s.payments);
    ids, effects := ids0, effects0;
    assert a + b[..0] == a && a' + b'[..0] == a';
    for i := 0 to |s.payments|
      invariant Scanned(ids, effects, a + b[..i], a' + b'[..i])
      invariant forall j :: 0 <= j < i ==> ValidFact(AsFact(s.payments[j]), s.unit.precision)
    {
      var p := s.payments[i];
      assert a + b[..i + 1] == a + b[..i] + [p.entryId] && a' + b'[..i + 1] == a' + b'[..i] + [p.effectiveId];
      var added: bool;
      added, ids, effects := AddIds(p.entryId, p.effectiveId, ids, effects, a + b[..i], a' + b'[..i]);
      if !added || !ValidFact(AsFact(p), s.unit.precision) {
        if !added { RepeatedId(s, a + b[..i + 1], a' + b'[..i + 1]); }
        return false, ids, effects;
      }
    }
    assert b[..|b|] == b && b'[..|b'|] == b';
    ok := true;
  }

  method ScanRefunds(s: Purchase, ids0: set<Guid>, effects0: set<Guid>)
    returns (ok: bool, ids: set<Guid>, effects: set<Guid>)
    requires HeaderValid(s)
    requires Scanned(ids0, effects0, ReceiptIds(s.receipts) + PaymentIds(s.payments),
                     ReceiptEffects(s.receipts) + PaymentEffects(s.payments))
    ensures ok ==> Scanned(ids, effects, EntryIds(s), EffectiveIds(s))
    ensures ok ==> forall i :: 0 <= i < |s.refunds| ==> ValidFact(RefundAsFact(s.refunds[i]), s.unit.precision)
    ensures !ok ==> !(IdsValid(s) && FactShapes(s))
  {
    hide Scanned, ValidFact, RefundAsFact;
    ghost var a := ReceiptIds(s.receipts) + PaymentIds(s.payments);
    ghost var a' := ReceiptEffects(s.receipts) + PaymentEffects(s.payments);
    ghost var b, b' := RefundIds(s.refunds), RefundEffects(s.refunds);
    ids, effects := ids0, effects0;
    assert a + b[..0] == a && a' + b'[..0] == a';
    for i := 0 to |s.refunds|
      invariant Scanned(ids, effects, a + b[..i], a' + b'[..i])
      invariant forall j :: 0 <= j < i ==> ValidFact(RefundAsFact(s.refunds[j]), s.unit.precision)
    {
      var f := s.refunds[i];
      assert a + b[..i + 1] == a + b[..i] + [f.entryId] && a' + b'[..i + 1] == a' + b'[..i] + [f.effectiveId];
      var added: bool;
      added, ids, effects := AddIds(f.entryId, f.effectiveId, ids, effects, a + b[..i], a' + b'[..i]);
      if !added || !ValidFact(RefundAsFact(f), s.unit.precision) {
        if !added { RepeatedId(s, a + b[..i + 1], a' + b'[..i + 1]); }
        return false, ids, effects;
      }
    }
    assert b[..|b|] == b && b'[..|b'|] == b';
    ok := true;
  }

  /** No correction's identity is also the identity of an entry. */
  predicate Apart(entries: seq<Guid>, effects: seq<Guid>, ids: set<Guid>)
    requires |entries| == |effects|
  {
    forall i :: 0 <= i < |effects| ==> effects[i] == entries[i] || effects[i] !in ids
  }

  lemma ApartConcat(a: seq<Guid>, a': seq<Guid>, b: seq<Guid>, b': seq<Guid>, ids: set<Guid>)
    requires |a| == |a'| && |b| == |b'|
    ensures Apart(a + b, a' + b', ids) <==> Apart(a, a', ids) && Apart(b, b', ids)
  {
    var e, f := a + b, a' + b';
    assert forall i :: 0 <= i < |a| ==> e[i] == a[i] && f[i] == a'[i];
    assert forall i :: 0 <= i < |b| ==> e[|a| + i] == b[i] && f[|a| + i] == b'[i];
  }

  predicate EffectsApart(s: Purchase, ids: set<Guid>) {
    Apart(ReceiptIds(s.receipts), ReceiptEffects(s.receipts), ids) &&
    Apart(PaymentIds(s.payments), PaymentEffects(s.payments), ids) &&
    Apart(RefundIds(s.refunds), RefundEffects(s.refunds), ids)
  }

  lemma EffectsApartMeaning(s: Purchase, ids: set<Guid>, effects: set<Guid>)
    requires Scanned(ids, effects, EntryIds(s), EffectiveIds(s))
    ensures EffectsApart(s, ids) <==> IdsValid(s)
  {
    var a, a' := ReceiptIds(s.receipts), ReceiptEffects(s.receipts);
    var b, b' := PaymentIds(s.payments), PaymentEffects(s.payments);
    ApartConcat(a, a', b, b', ids);
    ApartConcat(a + b, a' + b', RefundIds(s.refunds), RefundEffects(s.refunds), ids);
    assert Apart(EntryIds(s), EffectiveIds(s), ids) <==> IdsValid(s);
  }

  method ScanFacts(s: Purchase) returns (ok: bool)
    requires HeaderValid(s)
    ensures ok <==> IdsValid(s) && FactShapes(s)
  {
    var ids, effects;
    ok, ids, effects := ScanReceipts(s);
    if !ok { return; }
    ok, ids, effects := ScanPayments(s, ids, effects);
    if !ok { return; }
    ok, ids, effects := ScanRefunds(s, ids, effects);
    if !ok { return; }
    EffectsApartMeaning(s, ids, effects);
    ok := EffectsApart(s, ids);
  }

  predicate IsReceipt(id: Guid, r: Receipt) { r.entryId == id }
  predicate IsPayment(id: Guid, p: Payment) { p.entryId == id }

  lemma SingleReceipt(s: Purchase, p: Payment)
    requires IdsValid(s)
    ensures AtMostOne(s.receipts, r => IsReceipt(p.receiptId, r))
    ensures var found := SingleOrDefault(s.receipts, r => IsReceipt(p.receiptId, r));
            PaymentStands(s, p) <==>
              found.Some? && (p.isVoided || !s.receipts[found.value].isVoided) && Refunded(s.refunds, p.entryId) <= ActivePayment(p)
  {
    UniqueEntries(s);
    var found := SingleOrDefault(s.receipts, r => IsReceipt(p.receiptId, r));
    if found.Some? {
      assert s.receipts[found.value].entryId == p.receiptId;
    }
  }

  lemma SinglePayment(s: Purchase, f: Refund)
    requires IdsValid(s)
    ensures AtMostOne(s.payments, p => IsPayment(f.paymentId, p))
    ensures var found := SingleOrDefault(s.payments, p => IsPayment(f.paymentId, p));
            RefundStands(s, f) <==> found.Some? && (f.isVoided || !s.payments[found.value].isVoided)
  {
    UniqueEntries(s);
    var found := SingleOrDefault(s.payments, p => IsPayment(f.paymentId, p));
    if found.Some? {
      assert s.payments[found.value].entryId == f.paymentId;
    }
  }

  /** The financial scan looks every parent up by identity; distinct identities make each lookup safe. */
  method ValidFinancialProjection(s: Purchase) returns (valid: bool)
    requires IdsValid(s)
    ensures valid <==> FinanciallyValid(s)
  {
    for i := 0 to |s.payments|
      invariant forall j :: 0 <= j < i ==> PaymentStands(s, s.payments[j])
    {
      var p := s.payments[i];
      SingleReceipt(s, p);
      var receipt := SingleOrDefault(s.receipts, r => IsReceipt(p.receiptId, r));
      if receipt.None? || (!p.isVoided && s.receipts[receipt.value].isVoided) ||
         Refunded(s.refunds, p.entryId) > ActivePayment(p) {
        assert !PaymentStands(s, s.payments[i]);
        return false;
      }
    }
    for i := 0 to |s.refunds|
      invariant forall j :: 0 <= j < i ==> RefundStands(s, s.refunds[j])
    {
      var f := s.refunds[i];
      SinglePayment(s, f);
      var payment := SingleOrDefault(s.payments, p => IsPayment(f.paymentId, p));
      if payment.None? || (!f.isVoided && s.payments[payment.value].isVoided) {
        assert !RefundStands(s, s.refunds[i]);
        return false;
      }
    }
    valid := forall i :: 0 <= i < |s.receipts| ==> OutstandingOf(s, s.receipts[i]) >= 0;
  }

  /** The source's scan accepts exactly the snapshots that satisfy the declarative validator. */
  method IsValidSnapshot(limits: Limits, s: Purchase) returns (valid: bool)
    ensures valid <==> ValidSnapshot(limits, s)
  {
    if !HeaderValid(s) { return false; }
    var known := ScanFacts(s);
    if !known { return false; }
    if ReceivedQuantity(s) + CancelledAmount(s) > s.requestedQuantity { return false; }
    valid := ValidFinancialProjection(s);
    valid := valid && limits.snapshotFits(s);
  }
}
