/** Properties that relate several ledger operations, or a whole run, to each other. */
module LedgerHistory {
  import opened Tables
  import opened Calendar
  import opened Ledger
  import opened LedgerInvariant
  import Charges

  /** Payment rows are never deleted or rewritten; only an offline one may turn from completed to voided. */
  ghost predicate Continues(before: Book, after: Book) {
    && |before.payments| <= |after.payments| && |before.bills| <= |after.bills|
    && (forall p :: 0 <= p < |before.payments| ==>
         var row := before.payments[p];
         after.payments[p] == row || (!row.means.Online? && after.payments[p] == row.(status := Voided)))
    && (forall i :: 0 <= i < |before.bills| ==>
         var b, b' := before.bills[i], after.bills[i];
         b'.tenant == b.tenant && b'.slot == b.slot && b'.currency == b.currency && b'.dueDate == b.dueDate)
  }

  lemma EditIdentity(b: Bill, e: Edit)
    requires EditOf(b, e).Ok?
    ensures var b' := EditOf(b, e).bill;
            b'.tenant == b.tenant && b'.slot == b.slot && b'.currency == b.currency && b'.dueDate == b.dueDate
  {
    hide Sum; hide Charges.BilledUnits; hide Charges.ChargeCents; hide BilledNow;
  }

  lemma StepContinues(book: Book, op: Op)
    ensures Continues(book, Step(book, op).0)
  {
    hide Continues; hide Generate; hide EditBill; hide Publish; hide Cancel; hide Pay; hide Void;
    match op
    case PayOp(tenant, bill, amount, date, today, means, reference, key) =>
      PayContinues(book, tenant, bill, amount, date, today, means, reference, key);
    case VoidOp(payment) => VoidContinues(book, payment);
    case EditOp(bill, edit) => EditContinues(book, bill, edit);
    case _ => BillsContinue(book, op);
  }

  lemma PayContinues(book: Book, tenant: nat, bill: nat, amount: int, date: Date, today: Date, means: Means,
                     reference: Reference, key: Key)
    ensures Continues(book, Pay(book, tenant, bill, amount, date, today, means, reference, key).0)
  {
    hide Pay; hide Settled; hide Creditable;
    PayExactly(book, tenant, bill, amount, date, today, means, reference, key);
    PayFindsBill(book, tenant, bill, amount, date, today, means, reference, key);
  }

  lemma PayFindsBill(book: Book, tenant: nat, bill: nat, amount: int, date: Date, today: Date, means: Means,
                     reference: Reference, key: Key)
    ensures Pay(book, tenant, bill, amount, date, today, means, reference, key).1.PaymentIs? ==> bill < |book.bills|
  {
    hide Credit; hide Find;
  }

  lemma VoidContinues(book: Book, payment: nat)
    ensures Continues(book, Void(book, payment).0)
  {
    hide Settled;
  }

  lemma EditContinues(book: Book, bill: nat, e: Edit)
    ensures Continues(book, EditBill(book, bill, e).0)
  {
    hide EditOf;
    if bill < |book.bills| && EditOf(book.bills[bill], e).Ok? { EditIdentity(book.bills[bill], e); }
  }

  lemma BillsContinue(book: Book, op: Op)
    requires op.GenerateOp? || op.PublishOp? || op.CancelOp?
    ensures Continues(book, Step(book, op).0)
  {
    hide Sum; hide GeneratedLines; hide Find; hide Settled;
  }

  lemma ContinuesTransitive(a: Book, b: Book, c: Book)
    requires Continues(a, b) && Continues(b, c)
    ensures Continues(a, c)
  {
  }

  lemma {:induction false} RunContinues(book: Book, ops: seq<Op>)
    ensures Continues(book, Run(book, ops))
  {
    if ops != [] {
      hide Continues; hide Step;
      RunContinues(book, ops[..|ops| - 1]);
      StepContinues(Run(book, ops[..|ops| - 1]), ops[|ops| - 1]);
      ContinuesTransitive(book, Run(book, ops[..|ops| - 1]), Run(book, ops));
    } else {
      ContinuesRefl(book);
    }
  }

  lemma ContinuesRefl(book: Book)
    ensures Continues(book, book)
  {
  }

  lemma {:induction false} RunKeepsValid(book: Book, ops: seq<Op>)
    requires Valid(book)
    ensures Valid(Run(book, ops))
  {
    hide Valid; hide Step;
    if ops != [] {
      RunKeepsValid(book, ops[..|ops| - 1]);
      StepKeeps(Run(book, ops[..|ops| - 1]), ops[|ops| - 1]);
    }
  }

  // ---------- cancellation is final ----------

  lemma CancelledStep(book: Book, op: Op, i: nat)
    requires Valid(book) && i < |book.bills| && book.bills[i].status.Cancelled?
    ensures i < |Step(book, op).0.bills| && Step(book, op).0.bills[i] == book.bills[i]
    ensures forall p :: |book.payments| <= p < |Step(book, op).0.payments| ==> Step(book, op).0.payments[p].bill != i
  {
    hide Valid; hide Pay; hide EditBill; hide Void; hide Generate; hide Publish; hide Cancel;
    match op
    case EditOp(bill, edit) => EditSparesCancelled(book, bill, edit, i);
    case VoidOp(payment) => VoidSparesCancelled(book, payment, i);
    case PayOp(tenant, bill, amount, date, today, means, reference, key) =>
      PaySparesCancelled(book, tenant, bill, amount, date, today, means, reference, key, i);
    case _ => OthersSpareCancelled(book, op, i);
  }

  lemma PaySparesCancelled(book: Book, tenant: nat, bill: nat, amount: int, date: Date, today: Date, means: Means,
                           reference: Reference, key: Key, i: nat)
    requires i < |book.bills| && book.bills[i].status.Cancelled?
    ensures var book' := Pay(book, tenant, bill, amount, date, today, means, reference, key).0;
            && i < |book'.bills| && book'.bills[i] == book.bills[i]
            && forall p :: |book.payments| <= p < |book'.payments| ==> book'.payments[p].bill != i
  {
    PayExactly(book, tenant, bill, amount, date, today, means, reference, key);
    hide Pay; hide Find; hide SettleStatus;
  }

  lemma OthersSpareCancelled(book: Book, op: Op, i: nat)
    requires (op.GenerateOp? || op.PublishOp? || op.CancelOp?) && i < |book.bills| && book.bills[i].status.Cancelled?
    ensures var book' := Step(book, op).0;
            |book.bills| <= |book'.bills| && book'.bills[i] == book.bills[i] && book'.payments == book.payments
  {
    hide RecomputeTotals; hide GeneratedLines; hide Find; hide Settled;
  }

  lemma EditSparesCancelled(book: Book, bill: nat, e: Edit, i: nat)
    requires i < |book.bills| && book.bills[i].status.Cancelled?
    ensures var book' := EditBill(book, bill, e).0;
            |book'.bills| == |book.bills| && book'.bills[i] == book.bills[i] && book'.payments == book.payments
  {
    if bill == i { EditKeepsCancelled(book.bills[i], e); }
    hide EditOf;
  }

  lemma VoidSparesCancelled(book: Book, payment: nat, i: nat)
    requires Valid(book) && i < |book.bills| && book.bills[i].status.Cancelled?
    ensures var book' := Void(book, payment).0;
            |book'.bills| == |book.bills| && book'.bills[i] == book.bills[i] && |book'.payments| == |book.payments|
  {
    if payment < |book.payments| && book.payments[payment].status.Completed? { CompletedIsCovered(book, payment); }
    hide Valid; hide SettleStatus;
  }

  lemma EditKeepsCancelled(b: Bill, e: Edit)
    requires b.status.Cancelled?
    ensures EditOf(b, e).Err?
  {
  }

  /** A cancelled bill never changes again and never receives money, whatever is done to the book. */
  lemma {:induction false} CancelledForever(book: Book, ops: seq<Op>, i: nat)
    requires Valid(book) && i < |book.bills| && book.bills[i].status.Cancelled?
    ensures i < |Run(book, ops).bills| && Run(book, ops).bills[i] == book.bills[i]
    ensures forall p :: 0 <= p < |Run(book, ops).payments| && Run(book, ops).payments[p].bill == i
              ==> Run(book, ops).payments[p].status.Voided?
  {
    var book' := Run(book, ops);
    RunKeepsValid(book, ops);
    if ops != [] {
      hide Valid; hide Step;
      var init := ops[..|ops| - 1];
      CancelledForever(book, init, i);
      RunKeepsValid(book, init);
      CancelledStep(Run(book, init), ops[|ops| - 1], i);
    }
    forall p | 0 <= p < |book'.payments| && book'.payments[p].bill == i ensures book'.payments[p].status.Voided? {
      if book'.payments[p].status.Completed? { CompletedIsCovered(book', p); }
    }
  }

  // ---------- undo and retry ----------

  /** Voiding the payment just recorded restores every bill. */
  lemma VoidUndoesPay(book: Book, tenant: nat, i: nat, amount: int, date: Date, today: Date,
                      means: Means, reference: Reference, key: Key)
    requires Valid(book) && !means.Online?
    requires Pay(book, tenant, i, amount, date, today, means, reference, key).1 == PaymentIs(|book.payments|, true)
    ensures var paid := Pay(book, tenant, i, amount, date, today, means, reference, key).0;
            Void(paid, |book.payments|).1.Done? && Void(paid, |book.payments|).0.bills == book.bills
  {
    PayExactly(book, tenant, i, amount, date, today, means, reference, key);
    BillOfValid(book, i);
    hide Pay; hide ReadingsOk; hide TotalsOk;
    var b := book.bills[i];
    var p := Payment(tenant, i, amount, date, means, Completed, reference, key);
    var paid := Credit(book, i, p);
    assert paid.payments[|book.payments|] == p;
    assert SettleStatus(paid.bills[i].(paid := b.paid)) == b;
  }

  /** A request retried with its idempotency key after any other activity answers with the original
      payment and changes nothing. */
  lemma RetryIsIdempotent(book: Book, tenant: nat, i: nat, amount: int, date: Date, today: Date,
                          means: Means, reference: Reference, key: Key, ops: seq<Op>, later: Date)
    requires Valid(book) && !key.NoKey?
    requires Pay(book, tenant, i, amount, date, today, means, reference, key).1.PaymentIs?
    ensures var (first, reply) := Pay(book, tenant, i, amount, date, today, means, reference, key);
            var book' := Run(first, ops);
            Pay(book', tenant, i, amount, date, later, means, reference, key) == (book', PaymentIs(reply.id, false))
  {
    var (first, reply) := Pay(book, tenant, i, amount, date, today, means, reference, key);
    PayKeeps(book, tenant, i, amount, date, today, means, reference, key);
    assert reply.id < |first.payments| && HasKey(tenant, key)(first.payments[reply.id])
           && first.payments[reply.id].bill == i && first.payments[reply.id].amount == amount
           && i < |first.bills| && first.bills[i].tenant == tenant by {
      PayReplyHasKey(book, tenant, i, amount, date, today, means, reference, key);
    }
    hide Pay;
    var book' := Run(first, ops);
    RunKeepsValid(first, ops);
    RunContinues(first, ops);
    KeyFindsPayment(book', tenant, key, reply.id);
    PayWithKnownKey(book', tenant, i, amount, date, later, means, reference, key, reply.id);
  }

  lemma PayReplyHasKey(book: Book, tenant: nat, i: nat, amount: int, date: Date, today: Date,
                       means: Means, reference: Reference, key: Key)
    requires !key.NoKey?
    requires Pay(book, tenant, i, amount, date, today, means, reference, key).1.PaymentIs?
    ensures var (first, reply) := Pay(book, tenant, i, amount, date, today, means, reference, key);
            && reply.id < |first.payments| && HasKey(tenant, key)(first.payments[reply.id])
            && first.payments[reply.id].bill == i && first.payments[reply.id].amount == amount
            && i < |first.bills| && first.bills[i].tenant == tenant
  {
    hide Settled; hide NotAfter;
  }

  lemma KeyFindsPayment(book: Book, tenant: nat, key: Key, id: nat)
    requires KeysUnique(book.payments) && !key.NoKey? && id < |book.payments| && HasKey(tenant, key)(book.payments[id])
    ensures Find(book.payments, HasKey(tenant, key)) == Some(id)
  {
    var found := Find(book.payments, HasKey(tenant, key));
    assert found.Some?;
    assert HasKey(tenant, key)(book.payments[found.value]);
  }

  lemma PayWithKnownKey(book: Book, tenant: nat, i: nat, amount: int, date: Date, today: Date,
                        means: Means, reference: Reference, key: Key, id: nat)
    requires !key.NoKey? && i < |book.bills| && book.bills[i].tenant == tenant
    requires Find(book.payments, HasKey(tenant, key)) == Some(id)
    requires book.payments[id].bill == i && book.payments[id].amount == amount
    ensures Pay(book, tenant, i, amount, date, today, means, reference, key) == (book, PaymentIs(id, false))
  {
  }

  // ---------- reading corrections ----------

  /** Corrected charge of a line: its own amount plus every reading correction made to it. */
  function CorrectedAmount(b: Bill, line: nat): int
    requires line < |b.lines|
  {
    b.lines[line].amount + Sum(b.corrections, DeltaOf(line))
  }

  /** Only the last corrected closing matters: two electricity lines with the same snapshot that ended on
      the same closing reading charge the same, through whatever corrections they got there, and that
      charge is the one the engine would have billed for that closing at once. */
  lemma CorrectionsArePathIndependent(ops: seq<Op>, i: nat, line: nat, ops': seq<Op>, i': nat, line': nat)
    requires i < |Run(EMPTY, ops).bills| && line < |Run(EMPTY, ops).bills[i].lines|
    requires i' < |Run(EMPTY, ops').bills| && line' < |Run(EMPTY, ops').bills[i'].lines|
    requires var l, l' := Run(EMPTY, ops).bills[i].lines[line], Run(EMPTY, ops').bills[i'].lines[line'];
             && l.usage.Some? && l'.usage.Some?
             && l.usage.value.opening == l'.usage.value.opening && l.usage.value.multiplier == l'.usage.value.multiplier
             && l.usage.value.rate == l'.usage.value.rate
    requires var b, b' := Run(EMPTY, ops).bills[i], Run(EMPTY, ops').bills[i'];
             BilledNow(b.corrections, line, Original(b.lines[line])).closing
             == BilledNow(b'.corrections, line', Original(b'.lines[line'])).closing
    ensures var b, b' := Run(EMPTY, ops).bills[i], Run(EMPTY, ops').bills[i'];
            var u, closing := b.lines[line].usage.value,
                BilledNow(b.corrections, line, Original(b.lines[line])).closing;
            && CorrectedAmount(b, line) == CorrectedAmount(b', line')
            && Charges.BilledUnits(u.opening, closing, u.multiplier).Some?
            && b.lines[line].usage.value.units + Sum(b.corrections, UnitsDeltaOf(line))
               == b'.lines[line'].usage.value.units + Sum(b'.corrections, UnitsDeltaOf(line'))
               == Charges.BilledUnits(u.opening, closing, u.multiplier).value
            && CorrectedAmount(b, line)
                  == Charges.ChargeCents(Charges.BilledUnits(u.opening, closing, u.multiplier).value, u.rate)
  {
    RunsStayValid(ops);
    RunsStayValid(ops');
    ReadingOfRun(Run(EMPTY, ops), i, line);
    ReadingOfRun(Run(EMPTY, ops'), i', line');
    hide Run; hide Valid; hide BilledNow; hide Charges.BilledUnits; hide Charges.ChargeCents; hide Sum;
  }

  lemma ReadingOfRun(book: Book, i: nat, line: nat)
    requires Valid(book) && i < |book.bills| && line < |book.bills[i].lines|
    ensures ReadingOk(book.bills[i], line)
  {
    hide ReadingOk;
    BillOfValid(book, i);
  }

  // ---------- conservation of money ----------

  function BalanceOf(): Bill -> int { (b: Bill) => b.paid }
  function ReceivedBy(): Payment -> int { (p: Payment) => if p.status.Completed? then p.amount else 0 }

  /** What the payments pay into the first n bills. */
  function PaidIntoFirst(payments: seq<Payment>, n: nat): int {
    if n == 0 then 0 else PaidIntoFirst(payments, n - 1) + Sum(payments, PaidInto(n - 1))
  }

  lemma {:induction false} OnePaymentOneBill(payments: seq<Payment>, p: Payment, n: nat)
    ensures PaidIntoFirst(payments + [p], n) == PaidIntoFirst(payments, n) + if p.bill < n then ReceivedBy()(p) else 0
  {
    if n > 0 {
      OnePaymentOneBill(payments, p, n - 1);
      SumAppend(payments, p, PaidInto(n - 1));
      hide Sum;
    }
  }

  lemma {:induction false} PaymentsLandSomewhere(payments: seq<Payment>, n: nat)
    requires forall p :: 0 <= p < |payments| ==> payments[p].bill < n
    ensures PaidIntoFirst(payments, n) == Sum(payments, ReceivedBy())
  {
    if payments == [] {
      NothingPaidIn(n);
    } else {
      var m := |payments| - 1;
      PaymentsLandSomewhere(payments[..m], n);
      OnePaymentOneBill(payments[..m], payments[m], n);
      assert payments == payments[..m] + [payments[m]];
    }
  }

  lemma {:induction false} NothingPaidIn(n: nat)
    ensures PaidIntoFirst([], n) == 0
  {
    if n > 0 { NothingPaidIn(n - 1); }
  }

  lemma {:induction false} BalancesOfFirst(book: Book, n: nat)
    requires Balanced(book) && n <= |book.bills|
    ensures Sum(book.bills[..n], BalanceOf()) == PaidIntoFirst(book.payments, n)
  {
    if n > 0 {
      BalancesOfFirst(book, n - 1);
      assert book.bills[..n][..n - 1] == book.bills[..n - 1];
    }
  }

  /** Money is conserved: in every reachable ledger the balances of all bills add up to all completed
      payments, and every receipt, completed or voided, is for exactly its payment. */
  lemma MoneyConserved(ops: seq<Op>)
    ensures var book := Run(EMPTY, ops);
            && Sum(book.bills, BalanceOf()) == Sum(book.payments, ReceivedBy())
            && |book.receipts| == |book.payments|
            && forall r :: 0 <= r < |book.receipts| ==>
                 book.receipts[r].payment == r && book.receipts[r].amount == book.payments[r].amount
  {
    var book := Run(EMPTY, ops);
    RunsStayValid(ops);
    hide Run; hide BillsOk; hide KeysUnique; hide SlotsOk; hide NumbersOk; hide Sum;
    assert book.bills[..|book.bills|] == book.bills;
    BalancesOfFirst(book, |book.bills|);
    PaymentsLandSomewhere(book.payments, |book.bills|);
  }
}
