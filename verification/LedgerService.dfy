/** The ledger services as they run: tables are fields, every method performs the writes of one
    transaction in the order the service does, and is proved to have the effect the specification gives. */
module LedgerService {
  import opened Tables
  import opened Calendar
  import opened Ledger
  import opened LedgerInvariant
  import Charges

  /** A correction moves the total by its delta, never below what was paid, and is visible in lines and status. */
  lemma CorrectionMeaning(b: Bill, c: Correction, delta: int)
    ensures var r := ApplyCorrection(b, c, delta);
            && (TotalsOk(b) && StatusOk(b) ==>
                  && (r.Ok? <==> b.total + delta >= b.paid)
                  && (r.Ok? ==> r.bill.total == b.total + delta && r.bill.total == Sum(r.bill.lines, AmountOf())))
            && (r.Ok? ==> r.bill.paid == b.paid && r.bill.corrections == b.corrections + [c] && b.lines <= r.bill.lines
                          && (IsIssued(b.status) ==> r.bill.status == Settled(r.bill.total, r.bill.paid)))
  {
    if TotalsOk(b) && StatusOk(b) { CorrectionMovesTotal(b, c, delta); }
    var r := ApplyCorrection(b, c, delta);
    if r.Ok? { SumSplit(r.bill.lines, AmountOf(), ChargeOf(), AdjustmentOf()); }
    hide Sum; hide Settled;
  }

  class PropertyLedger {
    var bills: seq<Bill>
    var payments: seq<Payment>
    var receipts: seq<Receipt>
    var billNumbers: map<nat, nat>
    var receiptNumbers: map<nat, nat>

    function Rows(): Book
      reads this
    {
      Book(bills, payments, receipts, billNumbers, receiptNumbers)
    }

    constructor ()
      ensures Rows() == EMPTY && Valid(Rows())
    {
      bills, payments, receipts := [], [], [];
      billNumbers, receiptNumbers := map[], map[];
      new;
      EmptyIsValid();
    }

    /** Rolling back to a savepoint. */
    method Restore(saved: Book)
      modifies this
      ensures Rows() == saved
    {
      bills, payments, receipts := saved.bills, saved.payments, saved.receipts;
      billNumbers, receiptNumbers := saved.billNumbers, saved.receiptNumbers;
    }

    /** `SequenceService.next_value(tenant, "bill")` */
    method NextBillNumber(tenant: nat) returns (value: nat)
      modifies this`billNumbers
      ensures value == NextValue(old(billNumbers), tenant)
      ensures billNumbers == old(billNumbers)[tenant := value + 1]
    {
      if tenant !in billNumbers { billNumbers := billNumbers[tenant := 1]; }
      value := billNumbers[tenant];
      billNumbers := billNumbers[tenant := value + 1];
    }

    method NextReceiptNumber(tenant: nat) returns (value: nat)
      modifies this`receiptNumbers
      ensures value == NextValue(old(receiptNumbers), tenant)
      ensures receiptNumbers == old(receiptNumbers)[tenant := value + 1]
    {
      if tenant !in receiptNumbers { receiptNumbers := receiptNumbers[tenant := 1]; }
      value := receiptNumbers[tenant];
      receiptNumbers := receiptNumbers[tenant := value + 1];
    }

    // ---------- drafts ----------

    /** The electricity lines of a lease, or nothing if one meter's consumption is negative. */
    method ElectricityLines(usages: seq<MeterUsage>) returns (lines: Option<seq<Line>>)
      ensures lines.None? <==> exists k :: 0 <= k < |usages| && usages[k].closing < usages[k].opening
      ensures lines.Some? ==> lines.value == seq(|usages|, k requires 0 <= k < |usages| => ElectricityLine(usages[k]))
    {
      var built: seq<Line> := [];
      for k := 0 to |usages|
        invariant |built| == k
        invariant forall j :: 0 <= j < k ==>
            usages[j].opening <= usages[j].closing && built[j] == ElectricityLine(usages[j])
      {
        if usages[k].closing < usages[k].opening { return None; }
        built := built + [ElectricityLine(usages[k])];
      }
      lines := Some(built);
    }

    method GenerateBill(tenant: nat, unit: nat, resident: nat, year: int, month: int, dueDate: int,
                        currency: string, rent: nat, usages: seq<MeterUsage>, maintenance: nat) returns (reply: Reply)
      requires Valid(Rows())
      modifies this
      ensures Valid(Rows())
      ensures (Rows(), reply)
          == Generate(old(Rows()), tenant, unit, resident, year, month, dueDate, currency, rent, usages, maintenance)
      ensures GeneratedAs(old(Rows()), tenant, Slot(unit, resident, Date(year, month, 1)), dueDate, currency, rent,
                          usages, maintenance, Rows(), reply)
    {
      GenerateKeeps(Rows(), tenant, unit, resident, year, month, dueDate, currency, rent, usages, maintenance);
      GenerateMeans(Rows(), tenant, unit, resident, year, month, dueDate, currency, rent, usages, maintenance);
      hide Valid; hide ElectricityLine; hide RecomputeTotals; hide GeneratedAs;
      if !(1 <= month <= 12) || !(2000 <= year <= 2100) { return Refused(InvalidPeriod); }
      var electricity := ElectricityLines(usages);
      if electricity.None? { return Refused(NegativeConsumption); }
      var slot := Slot(unit, resident, Date(year, month, 1));
      if Find(bills, Live(slot)).Some? { return Refused(BillExists); }
      reply := CreateDraft(Bill(tenant, slot, dueDate, currency, 0, Draft, [], [], 0, 0, 0, 0),
                           rent, electricity.value, maintenance);
    }

    /** The transaction of `generate_for_lease`: the bill row, its lines one after the other, the totals. */
    method CreateDraft(empty: Bill, rent: nat, electricity: seq<Line>, maintenance: nat) returns (reply: Reply)
      requires empty.lines == []
      modifies this
      ensures var lines := (if rent > 0 then [Line(Rent, rent, None)] else []) + electricity
                           + (if maintenance > 0 then [Line(Maintenance, maintenance, None)] else []);
              var bill := RecomputeTotals(empty.(lines := lines));
              && reply == (if bill.total < 0 then Refused(NegativeTotal) else Done)
              && Rows() == if bill.total < 0 then old(Rows()) else old(Rows()).(bills := old(bills) + [bill])
    {
      hide Sum;
      var saved := Rows();
      var bill := empty;
      bills := bills + [bill];
      if rent > 0 { bill := bill.(lines := bill.lines + [Line(Rent, rent, None)]); }
      bill := bill.(lines := bill.lines + electricity);
      if maintenance > 0 { bill := bill.(lines := bill.lines + [Line(Maintenance, maintenance, None)]); }
      ghost var lines := (if rent > 0 then [Line(Rent, rent, None)] else []) + electricity
                         + (if maintenance > 0 then [Line(Maintenance, maintenance, None)] else []);
      assert bill.lines == lines;
      bill := RecomputeTotals(bill);
      hide RecomputeTotals;
      if bill.total < 0 {
        Restore(saved);
        return Refused(NegativeTotal);
      }
      bills := bills[|saved.bills| := bill];
      assert bills == saved.bills + [bill];
      reply := Done;
    }

    /** Adding a line to a draft, removing one, and both kinds of correction: one locked bill each. */
    method Edit(i: nat, e: Ledger.Edit) returns (reply: Reply)
      requires Valid(Rows())
      modifies this`bills
      ensures Valid(Rows())
      ensures (Rows(), reply) == EditBill(old(Rows()), i, e)
      ensures BillEditedAs(old(Rows()), i, e, Rows(), reply)
    {
      hide Valid; hide BillEditedAs; hide AddLineTo; hide RemoveLineFrom; hide AdjustAmountOf; hide CorrectReadingOn;
      EditBillKeeps(Rows(), i, e);
      if i >= |bills| { return Refused(NotFound); }
      var edited;
      match e {
        case AddLine(kind, amount) => edited := AddLineItem(bills[i], kind, amount);
        case RemoveLine(line) => edited := RemoveLineItem(bills[i], line);
        case AdjustAmount(delta) => edited := AdjustBill(bills[i], delta);
        case CorrectReading(line, closing) => edited := CorrectBilledReading(bills[i], line, closing);
      }
      match edited {
        case Err(code) => reply := Refused(code);
        case Ok(bill) => bills := bills[i := bill]; reply := Done;
      }
    }

    method AddLineItem(locked: Bill, kind: LineType, amount: int) returns (r: Edited)
      ensures r == AddLineTo(locked, kind, amount)
      ensures BillOk(locked) ==> AddedAs(locked, kind, amount, r)
    {
      if BillOk(locked) { AddLineKeeps(locked, kind, amount); }
      hide Sum; hide AddedAs; hide BillOk;
      if !IsManual(kind) { return Err(LineTypeNotManual); }
      if kind.Adjustment? {
        if amount == 0 { return Err(AmountRequired); }
      } else if amount <= 0 { return Err(AmountPositive); }
      var stored := if kind.Discount? then -amount else amount;
      if !locked.status.Draft? { return Err(BillNotDraft); }
      var bill := locked.(lines := locked.lines + [Line(kind, stored, None)]);
      bill := RecomputeTotals(bill);
      if bill.total < 0 { return Err(NegativeTotal); }
      r := Ok(bill);
    }

    method RemoveLineItem(locked: Bill, line: nat) returns (r: Edited)
      ensures r == RemoveLineFrom(locked, line)
      ensures BillOk(locked) ==> RemovedAs(locked, line, r)
    {
      if BillOk(locked) { RemoveLineKeeps(locked, line); }
      hide Sum; hide RemovedAs; hide BillOk;
      if !locked.status.Draft? { return Err(BillNotDraft); }
      if line >= |locked.lines| { return Err(NotFound); }
      var bill := locked.(lines := locked.lines[..line] + locked.lines[line + 1..]);
      bill := RecomputeTotals(bill);
      if bill.total < 0 { return Err(NegativeTotal); }
      r := Ok(bill);
    }

    /** `BillCorrectionService._apply` */
    method Apply(locked: Bill, correction: Correction, delta: int) returns (r: Edited)
      ensures r == ApplyCorrection(locked, correction, delta)
      ensures TotalsOk(locked) && StatusOk(locked) ==>
                && (r.Ok? <==> locked.total + delta >= locked.paid)
                && (r.Ok? ==> r.bill.total == locked.total + delta && r.bill.total == Sum(r.bill.lines, AmountOf()))
      ensures r.Ok? ==> r.bill.paid == locked.paid && r.bill.corrections == locked.corrections + [correction]
                        && locked.lines <= r.bill.lines
                        && (IsIssued(locked.status) ==> r.bill.status == Settled(r.bill.total, r.bill.paid))
    {
      CorrectionMeaning(locked, correction, delta);
      hide Sum; hide SettleStatus;
      var newTotal := locked.total + delta;
      if newTotal < 0 || newTotal < locked.paid { return Err(CorrectionBelowPaid); }
      var bill := locked.(corrections := locked.corrections + [correction]);
      if delta != 0 { bill := bill.(lines := bill.lines + [Line(Adjustment, delta, None)]); }
      bill := RecomputeTotals(bill);
      if bill.total < 0 { return Err(NegativeTotal); }
      bill := SettleStatus(bill);
      r := Ok(bill);
    }

    method AdjustBill(locked: Bill, delta: int) returns (r: Edited)
      ensures r == AdjustAmountOf(locked, delta)
      ensures BillOk(locked) ==> AdjustedAs(locked, delta, r)
    {
      if BillOk(locked) { AdjustAmountKeeps(locked, delta); }
      hide ApplyCorrection; hide BillOk; hide AdjustedAs;
      if delta == 0 { return Err(AmountRequired); }
      if !IsIssued(locked.status) { return Err(BillNotPublished); }
      r := Apply(locked, AmountAdjustment(delta), delta);
    }

    method CorrectBilledReading(locked: Bill, line: nat, closing: int) returns (r: Edited)
      ensures r == CorrectReadingOn(locked, line, closing)
      ensures BillOk(locked) ==> ReadingCorrectedAs(locked, line, closing, r)
    {
      if BillOk(locked) { EditExactly(locked, CorrectReading(line, closing)); }
      hide BillOk; hide ReadingCorrectedAs;
      hide ApplyCorrection; hide Charges.BilledUnits; hide Charges.ChargeCents;
      if !IsIssued(locked.status) { return Err(BillNotPublished); }
      if line >= |locked.lines| || locked.lines[line].usage.None? { return Err(NotFound); }
      var usage := locked.lines[line].usage.value;
      var effective := PreviousCorrection(locked, line);
      var units := Charges.BilledUnits(usage.opening, closing, usage.multiplier);
      if units.None? { return Err(NegativeConsumption); }
      if closing == effective.closing { return Err(CorrectionUnchanged); }
      var amount := Charges.ChargeCents(units.value, usage.rate);
      r := Apply(locked, ReadingCorrection(line, effective, Billed(closing, units.value, amount)),
          amount - effective.amount);
    }

    /** The newest reading correction of the line, else its own snapshot. */
    method PreviousCorrection(locked: Bill, line: nat) returns (effective: Billed)
      requires line < |locked.lines| && locked.lines[line].usage.Some?
      ensures effective == BilledNow(locked.corrections, line, Original(locked.lines[line]))
    {
      effective := Original(locked.lines[line]);
      for k := 0 to |locked.corrections|
        invariant effective == BilledNow(locked.corrections[..k], line, Original(locked.lines[line]))
      {
        assert locked.corrections[..k + 1][..k] == locked.corrections[..k];
        var c := locked.corrections[k];
        if c.ReadingCorrection? && c.line == line { effective := c.now; }
      }
      assert locked.corrections[..|locked.corrections|] == locked.corrections;
    }

    // ---------- issuing and cancelling ----------

    method PublishBill(i: nat) returns (reply: Reply)
      requires Valid(Rows())
      modifies this`bills, this`billNumbers
      ensures Valid(Rows())
      ensures (Rows(), reply) == Publish(old(Rows()), i)
      ensures PublishedAs(old(Rows()), i, Rows(), reply)
    {
      hide Valid; hide SettleStatus; hide PublishedAs;
      PublishKeeps(Rows(), i);
      PublishExactly(Rows(), i);
      if i >= |bills| { return Refused(NotFound); }
      var bill := bills[i];
      if IsIssued(bill.status) { return Done; }
      if bill.status.Cancelled? { return Refused(BillCancelled); }
      var number := NextBillNumber(bill.tenant);
      bill := bill.(number := number);
      bill := bill.(status := Published);
      bill := SettleStatus(bill);
      bills := bills[i := bill];
      reply := Done;
    }

    method CancelBill(i: nat) returns (reply: Reply)
      requires Valid(Rows())
      modifies this`bills
      ensures Valid(Rows())
      ensures (Rows(), reply) == Cancel(old(Rows()), i)
      ensures CancelledAs(old(Rows()), i, Rows(), reply)
    {
      hide Valid; hide CancelledAs;
      CancelExactly(Rows(), i);
      if i >= |bills| { return Refused(NotFound); }
      var bill := bills[i];
      if bill.status.Cancelled? { return Done; }
      if bill.paid > 0 || Find(payments, CompletedFor(i)).Some? { return Refused(BillHasPayments); }
      bill := bill.(status := Cancelled);
      bills := bills[i := bill];
      reply := Done;
    }

    // ---------- money ----------

    method RecordPayment(tenant: nat, i: nat, amount: int, date: Date, today: Date,
                         means: Means, reference: Reference, key: Key) returns (reply: Reply)
      requires Valid(Rows())
      modifies this
      ensures Valid(Rows())
      ensures (Rows(), reply) == Pay(old(Rows()), tenant, i, amount, date, today, means, reference, key)
      ensures var p := Payment(tenant, i, amount, date, means, Completed, reference, key);
              && (reply == PaymentIs(|old(payments)|, true) <==>
                    NotAfter(date, today) && Creditable(old(Rows()), i, p))
              && (if reply == PaymentIs(|old(payments)|, true) then CreditedAs(old(Rows()), i, p, Rows())
                  else Rows() == old(Rows()))
    {
      if Creditable(Rows(), i, Payment(tenant, i, amount, date, means, Completed, reference, key)) {
        CreditKeeps(Rows(), i, Payment(tenant, i, amount, date, means, Completed, reference, key));
      }
      hide CreditedAs;
      PayKeeps(Rows(), tenant, i, amount, date, today, means, reference, key);
      PayExactly(Rows(), tenant, i, amount, date, today, means, reference, key);
      hide Valid; hide Creditable; hide NotAfter; hide Credit;
      if i >= |bills| || bills[i].tenant != tenant { return Refused(NotFound); }
      if !key.NoKey? {
        var existing := Find(payments, HasKey(tenant, key));
        if existing.Some? {
          var p := payments[existing.value];
          if p.bill != i || p.amount != amount { return Refused(IdempotencyKeyReused); }
          return PaymentIs(existing.value, false);
        }
      }
      if amount <= 0 { return Refused(AmountPositive); }
      if !NotAfter(date, today) { return Refused(PaymentDateInFuture); }
      var bill := bills[i];
      if !IsOpen(bill.status) { return Refused(BillNotPayable); }
      var due := bill.total - bill.paid;
      if amount > due { return Refused(Overpayment); }
      if !reference.NoReference? && Find(payments, HasReference(tenant, reference)).Some? {
        return Refused(DuplicatePaymentReference);
      }
      var id := |payments|;
      CreditBill(i, Payment(tenant, i, amount, date, means, Completed, reference, key));
      reply := PaymentIs(id, true);
    }

    /** The inner transaction of `record`: payment row, then balance and status, then the numbered receipt. */
    method CreditBill(i: nat, payment: Payment)
      requires i < |bills| && payment.bill == i
      modifies this`payments, this`bills, this`receipts, this`receiptNumbers
      ensures Rows() == Credit(old(Rows()), i, payment)
    {
      hide Settled;
      var id := |payments|;
      payments := payments + [payment];
      var bill := bills[i];
      bill := bill.(paid := bill.paid + payment.amount);
      bill := SettleStatus(bill);
      bills := bills[i := bill];
      IssueReceipt(payment.tenant, i, id, payment.amount);
    }

    method IssueReceipt(tenant: nat, bill: nat, payment: nat, amount: int)
      modifies this`receipts, this`receiptNumbers
      ensures var number := NextValue(old(receiptNumbers), tenant);
              && receipts == old(receipts) + [Receipt(tenant, bill, payment, number, amount)]
              && receiptNumbers == old(receiptNumbers)[tenant := number + 1]
    {
      var number := NextReceiptNumber(tenant);
      receipts := receipts + [Receipt(tenant, bill, payment, number, amount)];
    }

    method VoidPayment(id: nat) returns (reply: Reply)
      requires Valid(Rows())
      modifies this`bills, this`payments
      ensures Valid(Rows())
      ensures (Rows(), reply) == Void(old(Rows()), id)
      ensures VoidedAs(old(Rows()), id, Rows(), reply)
    {
      hide Valid; hide SettleStatus; hide VoidedAs;
      if id < |payments| { PaymentHasBill(Rows(), id); }
      VoidKeeps(Rows(), id);
      VoidExactly(Rows(), id);
      if id >= |payments| { return Refused(NotFound); }
      var payment := payments[id];
      var bill := bills[payment.bill];
      if payment.status.Voided? { return Done; }
      if payment.means.Online? { return Refused(OnlinePaymentNotVoidable); }
      payment := payment.(status := Voided);
      payments := payments[id := payment];
      bill := bill.(paid := bill.paid - payment.amount);
      bill := SettleStatus(bill);
      bills := bills[payment.bill := bill];
      reply := Done;
    }
  }
}
