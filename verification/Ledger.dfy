/** Bills, corrections, payments and receipts of property workspaces: the tables, every operation
    that writes them as a function from book to book, and what each single bill keeps. */
module Ledger {
  import opened Tables
  import opened Calendar
  import Charges

  datatype BillStatus = Draft | Published | PartiallyPaid | Paid | Cancelled

  datatype LineType = Rent | Electricity | Maintenance | OtherCharge | Discount | Adjustment | LateFee

  /** The calculation snapshot of an electricity line. */
  datatype Usage = Usage(opening: int, closing: int, multiplier: nat, rate: nat, units: nat)

  datatype Line = Line(kind: LineType, amount: int, usage: Option<Usage>)

  /** What a reading correction says was billed for a line, before and after. */
  datatype Billed = Billed(closing: int, units: nat, amount: int)

  datatype Correction =
    | AmountAdjustment(delta: int)
    | ReadingCorrection(line: nat, was: Billed, now: Billed)

  datatype Slot = Slot(unit: nat, resident: nat, periodStart: Date)

  datatype Bill = Bill(
    tenant: nat, slot: Slot, dueDate: int, currency: string, number: nat,
    status: BillStatus, lines: seq<Line>, corrections: seq<Correction>,
    subtotal: int, adjustments: int, total: int, paid: int)

  datatype Means = Cash | BankTransfer | Upi | Card | Online | Other
  datatype PaymentStatus = Completed | Voided

  /** Idempotency keys: blank, "online:" followed by an attempt id, or anything else. */
  datatype Key = NoKey | OnlineKey(attempt: nat) | OtherKey(text: string)
  /** References: blank, "cashfree:" followed by a provider payment id, or anything else. */
  datatype Reference = NoReference | CashfreeReference(paymentId: string) | OtherReference(text: string)

  datatype Payment = Payment(
    tenant: nat, bill: nat, amount: int, date: Date, means: Means,
    status: PaymentStatus, reference: Reference, key: Key)

  datatype Receipt = Receipt(tenant: nat, bill: nat, payment: nat, number: nat, amount: int)

  datatype Book = Book(
    bills: seq<Bill>, payments: seq<Payment>, receipts: seq<Receipt>,
    billNumbers: map<nat, nat>, receiptNumbers: map<nat, nat>)

  const EMPTY := Book([], [], [], map[], map[])

  datatype Code =
    | NotFound | InvalidPeriod | BillExists | NegativeTotal | LineTypeNotManual | AmountRequired | AmountPositive
    | BillNotDraft | BillCancelled | BillHasPayments | BillNotPublished | CorrectionBelowPaid
    | NegativeConsumption | CorrectionUnchanged | IdempotencyKeyReused | PaymentDateInFuture
    | BillNotPayable | Overpayment | DuplicatePaymentReference | OnlinePaymentNotVoidable

  datatype Reply = Done | PaymentIs(id: nat, created: bool) | Refused(code: Code)

  // ---------- totals and status ----------

  predicate IsCharge(kind: LineType) {
    kind.Rent? || kind.Electricity? || kind.Maintenance? || kind.OtherCharge? || kind.LateFee?
  }

  function ChargeOf(): Line -> int { (l: Line) => if IsCharge(l.kind) then l.amount else 0 }
  function AdjustmentOf(): Line -> int { (l: Line) => if IsCharge(l.kind) then 0 else l.amount }
  function AmountOf(): Line -> int { (l: Line) => l.amount }

  function RecomputeTotals(b: Bill): Bill {
    var charges, adjustments := Sum(b.lines, ChargeOf()), Sum(b.lines, AdjustmentOf());
    b.(subtotal := charges, adjustments := adjustments, total := charges + adjustments)
  }

  predicate IsOpen(s: BillStatus) { s.Published? || s.PartiallyPaid? }
  predicate IsIssued(s: BillStatus) { IsOpen(s) || s.Paid? }

  /** The status an issued bill must have, given what is owed and what was paid. */
  function Settled(total: int, paid: int): BillStatus {
    if paid <= 0 then (if total == 0 then Paid else Published)
    else if paid >= total then Paid
    else PartiallyPaid
  }

  function SettleStatus(b: Bill): Bill {
    if b.status.Draft? || b.status.Cancelled? then b else b.(status := Settled(b.total, b.paid))
  }

  // ---------- operations on one bill ----------

  datatype Edit =
    | AddLine(kind: LineType, amount: int)
    | RemoveLine(line: nat)
    | AdjustAmount(delta: int)
    | CorrectReading(line: nat, closing: int)

  datatype Edited = Ok(bill: Bill) | Err(code: Code)

  predicate IsManual(kind: LineType) { !kind.Rent? && !kind.Electricity? }

  function AddLineTo(b: Bill, kind: LineType, amount: int): Edited {
    if !IsManual(kind) then Err(LineTypeNotManual)
    else if kind.Adjustment? && amount == 0 then Err(AmountRequired)
    else if !kind.Adjustment? && amount <= 0 then Err(AmountPositive)
    else if !b.status.Draft? then Err(BillNotDraft)
    else
      var stored := if kind.Discount? then -amount else amount;
      Checked(RecomputeTotals(b.(lines := b.lines + [Line(kind, stored, None)])))
  }

  function RemoveLineFrom(b: Bill, line: nat): Edited {
    if !b.status.Draft? then Err(BillNotDraft)
    else if line >= |b.lines| then Err(NotFound)
    else Checked(RecomputeTotals(b.(lines := b.lines[..line] + b.lines[line + 1..])))
  }

  /** `recompute_totals` refuses a negative total; the transaction rolls back. */
  function Checked(b: Bill): Edited { if b.total < 0 then Err(NegativeTotal) else Ok(b) }

  /** `BillCorrectionService._apply` */
  function ApplyCorrection(b: Bill, c: Correction, delta: int): Edited {
    var newTotal := b.total + delta;
    if newTotal < 0 || newTotal < b.paid then Err(CorrectionBelowPaid)
    else
      var lines := if delta != 0 then b.lines + [Line(Adjustment, delta, None)] else b.lines;
      match Checked(RecomputeTotals(b.(lines := lines, corrections := b.corrections + [c])))
      case Err(code) => Err(code)
      case Ok(b') => Ok(SettleStatus(b'))
  }

  /** The latest reading correction of a line, or the line's own snapshot. */
  function BilledNow(corrections: seq<Correction>, line: nat, original: Billed): Billed {
    if corrections == [] then original
    else
      var last := corrections[|corrections| - 1];
      if last.ReadingCorrection? && last.line == line then last.now
      else BilledNow(corrections[..|corrections| - 1], line, original)
  }

  function Original(l: Line): Billed
    requires l.usage.Some?
  {
    Billed(l.usage.value.closing, l.usage.value.units, l.amount)
  }

  function CorrectReadingOn(b: Bill, line: nat, closing: int): Edited {
    if !IsIssued(b.status) then Err(BillNotPublished)
    else if line >= |b.lines| || b.lines[line].usage.None? then Err(NotFound)
    else
      var u, was := b.lines[line].usage.value, BilledNow(b.corrections, line, Original(b.lines[line]));
      match Charges.BilledUnits(u.opening, closing, u.multiplier)
      case None => Err(NegativeConsumption)
      case Some(units) =>
        if closing == was.closing then Err(CorrectionUnchanged)
        else
          var now := Billed(closing, units, Charges.ChargeCents(units, u.rate));
          ApplyCorrection(b, ReadingCorrection(line, was, now), now.amount - was.amount)
  }

  function AdjustAmountOf(b: Bill, delta: int): Edited {
    if delta == 0 then Err(AmountRequired)
    else if !IsIssued(b.status) then Err(BillNotPublished)
    else ApplyCorrection(b, AmountAdjustment(delta), delta)
  }

  function EditOf(b: Bill, e: Edit): Edited {
    match e
    case AddLine(kind, amount) => AddLineTo(b, kind, amount)
    case RemoveLine(line) => RemoveLineFrom(b, line)
    case AdjustAmount(delta) => AdjustAmountOf(b, delta)
    case CorrectReading(line, closing) => CorrectReadingOn(b, line, closing)
  }

  // ---------- operations on the book ----------

  function EditBill(book: Book, i: nat, e: Edit): (Book, Reply) {
    if i >= |book.bills| then (book, Refused(NotFound))
    else
      match EditOf(book.bills[i], e)
      case Err(code) => (book, Refused(code))
      case Ok(b) => (book.(bills := book.bills[i := b]), Done)
  }

  datatype MeterUsage = MeterUsage(opening: int, closing: int, multiplier: nat, rate: nat)

  function ElectricityLine(m: MeterUsage): Line {
    var units := Charges.BilledUnits(m.opening, m.closing, m.multiplier).GetOr(0);
    Line(Electricity, Charges.ChargeCents(units, m.rate),
        Some(Usage(m.opening, m.closing, m.multiplier, m.rate, units)))
  }

  function GeneratedLines(rent: nat, usages: seq<MeterUsage>, maintenance: nat): seq<Line> {
    (if rent > 0 then [Line(Rent, rent, None)] else [])
    + seq(|usages|, k requires 0 <= k < |usages| => ElectricityLine(usages[k]))
    + (if maintenance > 0 then [Line(Maintenance, maintenance, None)] else [])
  }

  function Live(slot: Slot): Bill -> bool { (b: Bill) => b.slot == slot && !b.status.Cancelled? }

  function Generate(book: Book, tenant: nat, unit: nat, resident: nat, year: int, month: int, dueDate: int,
                    currency: string, rent: nat, usages: seq<MeterUsage>, maintenance: nat): (Book, Reply) {
    if !(1 <= month <= 12) || !(2000 <= year <= 2100) then (book, Refused(InvalidPeriod))
    else if exists k :: 0 <= k < |usages| && usages[k].closing < usages[k].opening
        then (book, Refused(NegativeConsumption))
    else
      var slot := Slot(unit, resident, Date(year, month, 1));
      if Find(book.bills, Live(slot)).Some? then (book, Refused(BillExists))
      else
        var lines := GeneratedLines(rent, usages, maintenance);
        match Checked(RecomputeTotals(Bill(tenant, slot, dueDate, currency, 0, Draft, lines, [], 0, 0, 0, 0)))
        case Err(code) => (book, Refused(code))
        case Ok(b) => (book.(bills := book.bills + [b]), Done)
  }

  function NextValue(sequence: map<nat, nat>, tenant: nat): nat {
    if tenant in sequence then sequence[tenant] else 1
  }

  function Publish(book: Book, i: nat): (Book, Reply) {
    if i >= |book.bills| then (book, Refused(NotFound))
    else
      var b := book.bills[i];
      if IsIssued(b.status) then (book, Done)
      else if b.status.Cancelled? then (book, Refused(BillCancelled))
      else
        var number := NextValue(book.billNumbers, b.tenant);
        (book.(bills := book.bills[i := SettleStatus(b.(number := number, status := Published))],
               billNumbers := book.billNumbers[b.tenant := number + 1]), Done)
  }

  function CompletedFor(i: nat): Payment -> bool { (p: Payment) => p.bill == i && p.status.Completed? }

  function Cancel(book: Book, i: nat): (Book, Reply) {
    if i >= |book.bills| then (book, Refused(NotFound))
    else
      var b := book.bills[i];
      if b.status.Cancelled? then (book, Done)
      else if b.paid > 0 || Find(book.payments, CompletedFor(i)).Some? then (book, Refused(BillHasPayments))
      else (book.(bills := book.bills[i := b.(status := Cancelled)]), Done)
  }

  function HasKey(tenant: nat, key: Key): Payment -> bool { (p: Payment) => p.tenant == tenant && p.key == key }
  function HasReference(tenant: nat, reference: Reference): Payment -> bool {
    (p: Payment) => p.tenant == tenant && p.reference == reference
  }

  /** `PaymentService.record`. A repeated key answers with the payment it created; the unique reference is
      the database's, reported as DUPLICATE_PAYMENT_REFERENCE after the inner rollback. */
  function Pay(book: Book, tenant: nat, i: nat, amount: int, date: Date, today: Date,
               means: Means, reference: Reference, key: Key): (Book, Reply) {
    if i >= |book.bills| || book.bills[i].tenant != tenant then (book, Refused(NotFound))
    else
      var existing := if key.NoKey? then None else Find(book.payments, HasKey(tenant, key));
      if existing.Some? then
        var p := book.payments[existing.value];
        if p.bill != i || p.amount != amount then (book, Refused(IdempotencyKeyReused))
        else (book, PaymentIs(existing.value, false))
      else if amount <= 0 then (book, Refused(AmountPositive))
      else if !NotAfter(date, today) then (book, Refused(PaymentDateInFuture))
      else
        var b := book.bills[i];
        if !IsOpen(b.status) then (book, Refused(BillNotPayable))
        else if amount > b.total - b.paid then (book, Refused(Overpayment))
        else if !reference.NoReference? && Find(book.payments, HasReference(tenant, reference)).Some? then
          (book, Refused(DuplicatePaymentReference))
        else (Credit(book, i, Payment(tenant, i, amount, date, means, Completed, reference, key)),
            PaymentIs(|book.payments|, true))
  }

  /** The writes of a successful payment: payment row, bill balance and status, numbered receipt. */
  function Credit(book: Book, i: nat, p: Payment): Book
    requires i < |book.bills|
  {
    var b := book.bills[i];
    var number := NextValue(book.receiptNumbers, p.tenant);
    book.(payments := book.payments + [p],
          bills := book.bills[i := SettleStatus(b.(paid := b.paid + p.amount))],
          receipts := book.receipts + [Receipt(p.tenant, i, |book.payments|, number, p.amount)],
          receiptNumbers := book.receiptNumbers[p.tenant := number + 1])
  }

  function Void(book: Book, id: nat): (Book, Reply) {
    if id >= |book.payments| || book.payments[id].bill >= |book.bills| then (book, Refused(NotFound))
    else
      var p := book.payments[id];
      var b := book.bills[p.bill];
      if p.status.Voided? then (book, Done)
      else if p.means.Online? then (book, Refused(OnlinePaymentNotVoidable))
      else
        (book.(payments := book.payments[id := p.(status := Voided)],
               bills := book.bills[p.bill := SettleStatus(b.(paid := b.paid - p.amount))]), Done)
  }

  datatype Op =
    | GenerateOp(tenant: nat, unit: nat, resident: nat, year: int, month: int, dueDate: int,
                 currency: string, rent: nat, usages: seq<MeterUsage>, maintenance: nat)
    | EditOp(bill: nat, edit: Edit)
    | PublishOp(bill: nat)
    | CancelOp(bill: nat)
    | PayOp(tenant: nat, bill: nat, amount: int, date: Date, today: Date, means: Means, reference: Reference, key: Key)
    | VoidOp(payment: nat)

  function Step(book: Book, op: Op): (Book, Reply) {
    match op
    case GenerateOp(tenant, unit, resident, year, month, dueDate, currency, rent, usages, maintenance) =>
      Generate(book, tenant, unit, resident, year, month, dueDate, currency, rent, usages, maintenance)
    case EditOp(bill, edit) => EditBill(book, bill, edit)
    case PublishOp(bill) => Publish(book, bill)
    case CancelOp(bill) => Cancel(book, bill)
    case PayOp(tenant, bill, amount, date, today, means, reference, key) =>
      Pay(book, tenant, bill, amount, date, today, means, reference, key)
    case VoidOp(payment) => Void(book, payment)
  }

  function Run(book: Book, ops: seq<Op>): Book {
    if ops == [] then book else Step(Run(book, ops[..|ops| - 1]), ops[|ops| - 1]).0
  }
}
