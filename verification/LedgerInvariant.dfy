/** What every run of ledger operations keeps. */
module LedgerInvariant {
  import opened Tables
  import Calendar
  import opened Ledger
  import Charges

  // ---------- one bill ----------

  ghost predicate TotalsOk(b: Bill) {
    && b.subtotal == Sum(b.lines, ChargeOf()) && b.adjustments == Sum(b.lines, AdjustmentOf())
    && b.total == b.subtotal + b.adjustments && b.total >= 0
  }

  ghost predicate StatusOk(b: Bill) {
    && 0 <= b.paid <= b.total
    && (b.status.Draft? ==> b.paid == 0 && b.corrections == [] && b.number == 0)
    && (b.status.Cancelled? ==> b.paid == 0)
    && (IsIssued(b.status) ==> b.status == Settled(b.total, b.paid) && b.number > 0)
  }

  function DeltaOf(line: nat): Correction -> int {
    (c: Correction) => if c.ReadingCorrection? && c.line == line then c.now.amount - c.was.amount else 0
  }

  function UnitsDeltaOf(line: nat): Correction -> int {
    (c: Correction) => if c.ReadingCorrection? && c.line == line then c.now.units - c.was.units else 0
  }

  /** Whatever corrections came in between, an electricity line plus its corrections charges exactly what
      its latest closing reading charges. */
  ghost predicate ReadingOk(b: Bill, line: nat)
    requires line < |b.lines|
  {
    var l := b.lines[line];
    l.usage.Some? ==>
      var u, now := l.usage.value, BilledNow(b.corrections, line, Original(l));
      && Charges.BilledUnits(u.opening, now.closing, u.multiplier) == Some(now.units)
      && now.amount == Charges.ChargeCents(now.units, u.rate)
      && l.amount + Sum(b.corrections, DeltaOf(line)) == now.amount
      && u.units + Sum(b.corrections, UnitsDeltaOf(line)) == now.units
  }

  ghost predicate ReadingsOk(b: Bill) { forall j :: 0 <= j < |b.lines| ==> ReadingOk(b, j) }

  ghost predicate BillOk(b: Bill) { TotalsOk(b) && StatusOk(b) && ReadingsOk(b) }

  /** What the status of an issued bill says about its balance. */
  ghost predicate StatusSays(b: Bill) {
    && (b.status.Paid? <==> b.paid == b.total)
    && (b.status.Published? <==> 0 == b.paid < b.total)
    && (b.status.PartiallyPaid? <==> 0 < b.paid < b.total)
  }

  lemma IssuedSays(b: Bill)
    requires BillOk(b) && IsIssued(b.status)
    ensures StatusSays(b)
  {
    hide TotalsOk; hide ReadingsOk;
  }

  /** A bill after one line of this type and amount came in (or, counted negative, went away). */
  function Moved(b: Bill, lines: seq<Line>, kind: LineType, amount: int): Bill {
    var adjusts := kind.Discount? || kind.Adjustment?;
    b.(lines := lines, total := b.total + amount,
       subtotal := if adjusts then b.subtotal else b.subtotal + amount,
       adjustments := if adjusts then b.adjustments + amount else b.adjustments)
  }

  /** The total of a bill is derivable from its visible lines. */
  lemma TotalIsSumOfLines(b: Bill)
    requires TotalsOk(b)
    ensures b.total == Sum(b.lines, AmountOf())
  {
    SumSplit(b.lines, AmountOf(), ChargeOf(), AdjustmentOf());
  }

  lemma CorrectionAppends(b: Bill, c: Correction, line: nat)
    requires line < |b.lines| && ReadingOk(b, line)
    requires c.ReadingCorrection? && c.line == line ==>
               && b.lines[line].usage.Some?
               && var u := b.lines[line].usage.value;
                  && c.was == BilledNow(b.corrections, line, Original(b.lines[line]))
                  && Charges.BilledUnits(u.opening, c.now.closing, u.multiplier) == Some(c.now.units)
                  && c.now.amount == Charges.ChargeCents(c.now.units, u.rate)
    ensures ReadingOk(b.(corrections := b.corrections + [c]), line)
  {
    hide Charges.BilledUnits; hide Charges.ChargeCents;
    SumAppend(b.corrections, c, DeltaOf(line));
    SumAppend(b.corrections, c, UnitsDeltaOf(line));
    assert (b.corrections + [c])[..|b.corrections|] == b.corrections;
  }

  lemma ReadingIgnoresRest(b: Bill, b': Bill, line: nat)
    requires line < |b.lines| && ReadingOk(b, line)
    requires line < |b'.lines| && b'.lines[line] == b.lines[line] && b'.corrections == b.corrections
    ensures ReadingOk(b', line)
  {
  }

  /** What an edit leaves alone, whoever calls it. */
  ghost predicate SameIdentity(b: Bill, b': Bill) {
    && b'.tenant == b.tenant && b'.slot == b.slot && b'.number == b.number && b'.paid == b.paid
    && b'.currency == b.currency
    && b'.dueDate == b.dueDate
    && (b'.status.Draft? <==> b.status.Draft?) && !b.status.Cancelled? && !b'.status.Cancelled?
  }

  /** A correction is recorded, shows as an adjustment line unless it moves nothing, moves the total by exactly its
      delta and settles the status anew; nothing else changes. */
  ghost predicate Corrected(b: Bill, c: Correction, delta: int, b': Bill) {
    var lines := if delta == 0 then b.lines else b.lines + [Line(Adjustment, delta, None)];
    b' == b.(lines := lines, corrections := b.corrections + [c], adjustments := b.adjustments + delta,
             total := b.total + delta, status := b'.status) && StatusSays(b')
  }

  lemma ApplyCorrectionKeeps(b: Bill, c: Correction, delta: int)
    requires BillOk(b) && IsIssued(b.status)
    requires forall j :: 0 <= j < |b.lines| ==> ReadingOk(b.(corrections := b.corrections + [c]), j)
    ensures var r := ApplyCorrection(b, c, delta);
            && (r.Ok? <==> b.total + delta >= b.paid)
            && (r.Ok? ==> BillOk(r.bill) && SameIdentity(b, r.bill) && Corrected(b, c, delta, r.bill))
  {
    hide ReadingOk; hide Sum; hide BilledNow;
    AdjustmentAppended(b.lines, delta);
    CorrectionMovesTotal(b, c, delta);
    var r := ApplyCorrection(b, c, delta);
    if r.Ok? {
      var b1 := b.(corrections := b.corrections + [c]);
      forall j | 0 <= j < |r.bill.lines| ensures ReadingOk(r.bill, j) {
        if j < |b.lines| { ReadingIgnoresRest(b1, r.bill, j); } else { NoUsageIsOk(r.bill, j); }
      }
    }
  }

  lemma AdjustmentAppended(lines: seq<Line>, delta: int)
    ensures Sum(lines + [Line(Adjustment, delta, None)], ChargeOf()) == Sum(lines, ChargeOf())
    ensures Sum(lines + [Line(Adjustment, delta, None)], AdjustmentOf()) == Sum(lines, AdjustmentOf()) + delta
  {
    SumAppend(lines, Line(Adjustment, delta, None), ChargeOf());
    SumAppend(lines, Line(Adjustment, delta, None), AdjustmentOf());
  }

  lemma NoUsageIsOk(b: Bill, line: nat)
    requires line < |b.lines| && b.lines[line].usage.None?
    ensures ReadingOk(b, line)
  {
  }

  /** What the line would charge for a closing reading. */
  function ChargeFor(u: Usage, closing: int): nat {
    Charges.ChargeCents(Charges.BilledUnits(u.opening, closing, u.multiplier).GetOr(0), u.rate)
  }

  lemma CorrectReadingKeeps(b: Bill, line: nat, closing: int)
    requires BillOk(b)
    ensures var r := CorrectReadingOn(b, line, closing); r.Ok? ==> BillOk(r.bill) && SameIdentity(b, r.bill)
  {
    hide Charges.BilledUnits; hide Charges.ChargeCents; hide ApplyCorrection; hide BilledNow; hide TotalsOk;
    hide StatusOk;
    var r := CorrectReadingOn(b, line, closing);
    if r.Ok? {
      var u, was := b.lines[line].usage.value, BilledNow(b.corrections, line, Original(b.lines[line]));
      var units := Charges.BilledUnits(u.opening, closing, u.multiplier).value;
      var c := ReadingCorrection(line, was, Billed(closing, units, Charges.ChargeCents(units, u.rate)));
      forall j | 0 <= j < |b.lines| ensures ReadingOk(b.(corrections := b.corrections + [c]), j) {
        CorrectionAppends(b, c, j);
      }
      ApplyCorrectionKeeps(b, c, c.now.amount - was.amount);
    }
  }

  ghost predicate ReadingCorrectedAs(b: Bill, line: nat, closing: int, r: Edited) {
    if !IsIssued(b.status) then r == Err(BillNotPublished)
    else if line >= |b.lines| || b.lines[line].usage.None? then r == Err(NotFound)
    else
      var u, was := b.lines[line].usage.value, BilledNow(b.corrections, line, Original(b.lines[line]));
      var moved := ChargeFor(u, closing) - ChargeFor(u, was.closing);
      if closing < u.opening then r == Err(NegativeConsumption)
      else if closing == was.closing then r == Err(CorrectionUnchanged)
      else if b.total + moved < b.paid then r == Err(CorrectionBelowPaid)
      else
        var units := Charges.BilledUnits(u.opening, closing, u.multiplier).GetOr(0);
        && r.Ok?
        && Corrected(b, ReadingCorrection(line, was, Billed(closing, units, ChargeFor(u, closing))), moved, r.bill)
  }

  /** A reading correction of an electricity line succeeds if and only if the bill is issued, the closing is not
      below the opening, differs from the billed one and leaves the total covering what was paid; the total then
      moves by the difference of the two charges. */
  lemma CorrectReadingExactly(b: Bill, line: nat, closing: int)
    requires BillOk(b) && line < |b.lines| && b.lines[line].usage.Some?
    ensures ReadingCorrectedAs(b, line, closing, CorrectReadingOn(b, line, closing))
  {
    var u, was := b.lines[line].usage.value, BilledNow(b.corrections, line, Original(b.lines[line]));
    hide Charges.BilledUnits; hide Charges.ChargeCents; hide BilledNow; hide ApplyCorrection; hide Corrected;
    hide BillOk; hide TotalsOk; hide StatusOk; hide ChargeFor; hide IsIssued;
    BillParts(b);
    UnitsKnown(u, closing);
    EffectiveIsCharged(b, line);
    if u.opening <= closing {
      var units := Charges.BilledUnits(u.opening, closing, u.multiplier).value;
      var c := ReadingCorrection(line, was, Billed(closing, units, Charges.ChargeCents(units, u.rate)));
      CorrectionMovesTotal(b, c, c.now.amount - was.amount);
    }
  }

  /** The reading a line stands on is charged by the engine's own rule. */
  lemma EffectiveIsCharged(b: Bill, line: nat)
    requires BillOk(b) && line < |b.lines| && b.lines[line].usage.Some?
    ensures var now := BilledNow(b.corrections, line, Original(b.lines[line]));
            now.amount == ChargeFor(b.lines[line].usage.value, now.closing)
  {
    assert ReadingOk(b, line);
    hide TotalsOk; hide StatusOk; hide ReadingsOk; hide BilledNow; hide Sum;
    hide Charges.BilledUnits; hide Charges.ChargeCents;
  }

  lemma CorrectionMovesTotal(b: Bill, c: Correction, delta: int)
    requires TotalsOk(b) && StatusOk(b)
    ensures var r := ApplyCorrection(b, c, delta);
            && (r.Ok? <==> b.total + delta >= b.paid)
            && (r.Ok? ==> r.bill.total == b.total + delta)
            && (r.Ok? && IsIssued(b.status) ==> Corrected(b, c, delta, r.bill))
            && (r.Err? ==> r.code == CorrectionBelowPaid)
  {
    AdjustmentAppended(b.lines, delta);
    hide Sum;
  }

  lemma UnitsKnown(u: Usage, closing: int)
    ensures Charges.BilledUnits(u.opening, closing, u.multiplier).Some? <==> u.opening <= closing
    ensures u.opening <= closing ==>
              ChargeFor(u, closing)
              == Charges.ChargeCents(Charges.BilledUnits(u.opening, closing, u.multiplier).value, u.rate)
  {
    hide Charges.ChargeCents;
  }

  lemma BillParts(b: Bill)
    requires BillOk(b)
    ensures TotalsOk(b) && StatusOk(b)
  {
  }

  ghost predicate AdjustedAs(b: Bill, delta: int, r: Edited) {
    && (r.Ok? <==> delta != 0 && IsIssued(b.status) && b.total + delta >= b.paid)
    && (r.Ok? ==> Corrected(b, AmountAdjustment(delta), delta, r.bill))
    && (r.Err? ==> r.code == if delta == 0 then AmountRequired
                             else if !IsIssued(b.status) then BillNotPublished else CorrectionBelowPaid)
  }

  lemma AdjustAmountKeeps(b: Bill, delta: int)
    requires BillOk(b)
    ensures var r := AdjustAmountOf(b, delta);
            AdjustedAs(b, delta, r) && (r.Ok? ==> BillOk(r.bill) && SameIdentity(b, r.bill))
  {
    assert IsIssued(b.status) ==> AdjustedAs(b, delta, AdjustAmountOf(b, delta)) by {
      CorrectionMovesTotal(b, AmountAdjustment(delta), delta);
      hide ApplyCorrection; hide Corrected; hide BillOk;
    }
    hide ApplyCorrection; hide TotalsOk; hide StatusOk; hide ReadingOk;
    if IsIssued(b.status) {
      var c := AmountAdjustment(delta);
      forall j | 0 <= j < |b.lines| ensures ReadingOk(b.(corrections := b.corrections + [c]), j) {
        CorrectionAppends(b, c, j);
      }
      ApplyCorrectionKeeps(b, c, delta);
    }
  }

  ghost predicate AddedAs(b: Bill, kind: LineType, amount: int, r: Edited) {
    var stored := if kind.Discount? then -amount else amount;
    && (r.Ok? <==> && b.status.Draft? && !kind.Rent? && !kind.Electricity? && b.total + stored >= 0
                   && (amount > 0 || (kind.Adjustment? && amount != 0)))
    && (r.Ok? ==> r.bill == Moved(b, b.lines + [Line(kind, stored, None)], kind, stored))
    && (r.Err? ==> r.code == if kind.Rent? || kind.Electricity? then LineTypeNotManual
                             else if kind.Adjustment? && amount == 0 then AmountRequired
                             else if !kind.Adjustment? && amount <= 0 then AmountPositive
                             else if !b.status.Draft? then BillNotDraft else NegativeTotal)
  }

  /** Only drafts take lines by hand: never rent or electricity, a discount counted negative, an adjustment of
      either sign, and never below a total of zero. */
  lemma AddLineKeeps(b: Bill, kind: LineType, amount: int)
    requires BillOk(b)
    ensures var r := AddLineTo(b, kind, amount);
            AddedAs(b, kind, amount, r) && (r.Ok? ==> BillOk(r.bill) && SameIdentity(b, r.bill))
  {
    hide ReadingOk;
    var stored := if kind.Discount? then -amount else amount;
    SumAppend(b.lines, Line(kind, stored, None), ChargeOf());
    SumAppend(b.lines, Line(kind, stored, None), AdjustmentOf());
    hide Sum;
    var r := AddLineTo(b, kind, amount);
    if r.Ok? {
      forall j | 0 <= j < |r.bill.lines| ensures ReadingOk(r.bill, j) {
        if j < |b.lines| { ReadingIgnoresRest(b, r.bill, j); } else { NoUsageIsOk(r.bill, j); }
      }
    }
  }

  ghost predicate RemovedAs(b: Bill, line: nat, r: Edited) {
    && (r.Ok? <==> b.status.Draft? && line < |b.lines| && b.total - b.lines[line].amount >= 0)
    && (r.Ok? ==> r.bill == Moved(b, b.lines[..line] + b.lines[line + 1..], b.lines[line].kind,
                                  -b.lines[line].amount))
    && (r.Err? ==> r.code == if !b.status.Draft? then BillNotDraft
                             else if line >= |b.lines| then NotFound else NegativeTotal)
  }

  lemma RemoveLineKeeps(b: Bill, line: nat)
    requires BillOk(b)
    ensures var r := RemoveLineFrom(b, line);
            RemovedAs(b, line, r) && (r.Ok? ==> BillOk(r.bill) && SameIdentity(b, r.bill))
  {
    hide ReadingOk;
    if line < |b.lines| {
      SumRemove(b.lines, line, ChargeOf());
      SumRemove(b.lines, line, AdjustmentOf());
    }
    hide Sum;
    var r := RemoveLineFrom(b, line);
    if r.Ok? {
      forall j | 0 <= j < |r.bill.lines| ensures ReadingOk(r.bill, j) {
        var k := if j < line then j else j + 1;
        assert r.bill.lines[j] == b.lines[k];
        DraftReading(b, k, r.bill, j);
      }
    }
  }

  /** On a draft no correction exists, so a line's position does not matter. */
  lemma DraftReading(b: Bill, k: nat, b': Bill, j: nat)
    requires k < |b.lines| && ReadingOk(b, k) && b.corrections == []
    requires j < |b'.lines| && b'.lines[j] == b.lines[k] && b'.corrections == []
    ensures ReadingOk(b', j)
  {
  }

  lemma EditKeeps(b: Bill, e: Edit)
    requires BillOk(b)
    ensures var r := EditOf(b, e); r.Ok? ==> BillOk(r.bill) && SameIdentity(b, r.bill)
  {
    hide BillOk; hide SameIdentity; hide AddLineTo; hide RemoveLineFrom; hide AdjustAmountOf; hide CorrectReadingOn;
    match e
    case AddLine(kind, amount) => AddLineKeeps(b, kind, amount);
    case RemoveLine(line) => RemoveLineKeeps(b, line);
    case AdjustAmount(delta) => AdjustAmountKeeps(b, delta);
    case CorrectReading(line, closing) => CorrectReadingKeeps(b, line, closing);
  }

  /** What each edit does, by its own rule. */
  ghost predicate EditedAs(b: Bill, e: Edit, r: Edited) {
    match e
    case AddLine(kind, amount) => AddedAs(b, kind, amount, r)
    case RemoveLine(line) => RemovedAs(b, line, r)
    case AdjustAmount(delta) => AdjustedAs(b, delta, r)
    case CorrectReading(line, closing) => ReadingCorrectedAs(b, line, closing, r)
  }

  lemma EditExactly(b: Bill, e: Edit)
    requires BillOk(b)
    ensures EditedAs(b, e, EditOf(b, e))
  {
    match e {
      case AddLine(kind, amount) =>
        AddLineKeeps(b, kind, amount);
      case RemoveLine(line) =>
        RemoveLineKeeps(b, line);
      case AdjustAmount(delta) =>
        AdjustAmountKeeps(b, delta);
      case CorrectReading(line, closing) =>
        if line < |b.lines| && b.lines[line].usage.Some? { CorrectReadingExactly(b, line, closing); }
        hide BilledNow; hide Corrected; hide ApplyCorrection; hide Charges.BilledUnits; hide Charges.ChargeCents;
    }
    hide BillOk; hide SameIdentity; hide AddLineTo; hide RemoveLineFrom; hide AdjustAmountOf;
    hide AddedAs; hide RemovedAs; hide AdjustedAs;
  }

  /** Status and balance writes do not disturb totals or readings. */
  lemma RepaidKeeps(b: Bill, paid: int)
    requires BillOk(b) && IsIssued(b.status) && 0 <= paid <= b.total
    ensures BillOk(SettleStatus(b.(paid := paid)))
    ensures SettleStatus(b.(paid := paid)) == b.(paid := paid, status := Settled(b.total, paid))
  {
    hide ReadingOk;
    var b' := SettleStatus(b.(paid := paid));
    forall j | 0 <= j < |b'.lines| ensures ReadingOk(b', j) { ReadingIgnoresRest(b, b', j); }
  }

  lemma StatusChangeKeeps(b: Bill, b': Bill)
    requires BillOk(b) && StatusOk(b')
    requires b' == b.(number := b'.number, status := b'.status)
    ensures BillOk(b')
  {
    hide ReadingOk;
    forall j | 0 <= j < |b'.lines| ensures ReadingOk(b', j) { ReadingIgnoresRest(b, b', j); }
  }

  lemma GeneratedOk(b: Bill, rent: nat, usages: seq<MeterUsage>, maintenance: nat)
    requires b.lines == GeneratedLines(rent, usages, maintenance) && b.corrections == []
    requires forall k :: 0 <= k < |usages| ==> usages[k].opening <= usages[k].closing
    ensures ReadingsOk(b)
  {
    hide Charges.ChargeCents;
    forall j | 0 <= j < |b.lines| ensures ReadingOk(b, j) {
      assert b.lines[j].usage.Some? ==> exists k :: 0 <= k < |usages| && b.lines[j] == ElectricityLine(usages[k]);
    }
  }

  // ---------- the whole book ----------

  function PaidInto(i: nat): Payment -> int {
    (p: Payment) => if p.bill == i && p.status.Completed? then p.amount else 0
  }

  ghost predicate BillsOk(book: Book) { forall i :: 0 <= i < |book.bills| ==> BillOk(book.bills[i]) }

  /** Every balance is the sum of the completed payments of that bill. */
  ghost predicate Balanced(book: Book) {
    forall i :: 0 <= i < |book.bills| ==> book.bills[i].paid == Sum(book.payments, PaidInto(i))
  }

  ghost predicate PaymentsOk(book: Book) {
    forall p :: 0 <= p < |book.payments| ==>
      var row := book.payments[p];
      row.amount > 0 && row.bill < |book.bills| && row.tenant == book.bills[row.bill].tenant
  }

  /** The two partial unique constraints of the payment table. */
  ghost predicate KeysUnique(payments: seq<Payment>) {
    && (forall p, q :: 0 <= p < q < |payments| && payments[p].tenant == payments[q].tenant && !payments[p].key.NoKey?
         ==> payments[p].key != payments[q].key)
    && (forall p, q :: 0 <= p < q < |payments| && payments[p].tenant == payments[q].tenant
          && !payments[p].reference.NoReference?
         ==> payments[p].reference != payments[q].reference)
  }

  /** One receipt per payment, for its amount, numbered increasingly within the workspace. */
  ghost predicate ReceiptsOk(book: Book) {
    && |book.receipts| == |book.payments|
    && (forall p :: 0 <= p < |book.receipts| ==>
         var r := book.receipts[p];
         && r.payment == p && r.tenant == book.payments[p].tenant && r.bill == book.payments[p].bill
         && r.amount == book.payments[p].amount && r.number < NextValue(book.receiptNumbers, r.tenant))
    && (forall p, q :: 0 <= p < q < |book.receipts| && book.receipts[p].tenant == book.receipts[q].tenant
         ==> book.receipts[p].number < book.receipts[q].number)
  }

  /** At most one live bill per unit, resident and month; bill numbers are never reused in a workspace. */
  ghost predicate SlotsOk(bills: seq<Bill>) {
    forall i, j :: 0 <= i < j < |bills| && bills[i].slot == bills[j].slot
      ==> bills[i].status.Cancelled? || bills[j].status.Cancelled?
  }

  ghost predicate NumbersOk(bills: seq<Bill>, sequence: map<nat, nat>) {
    && (forall t :: t in sequence ==> sequence[t] > 0)
    && (forall i :: 0 <= i < |bills| ==> bills[i].number < NextValue(sequence, bills[i].tenant))
    && (forall i, j :: 0 <= i < j < |bills| && bills[i].tenant == bills[j].tenant && bills[i].number > 0
         ==> bills[i].number != bills[j].number)
  }

  ghost predicate Valid(book: Book) {
    && BillsOk(book) && Balanced(book) && PaymentsOk(book) && KeysUnique(book.payments) && ReceiptsOk(book)
    && SlotsOk(book.bills) && NumbersOk(book.bills, book.billNumbers)
  }

  /** Slots and numbers only look at identity and cancellation. */
  lemma IdentityKept(bills: seq<Bill>, sequence: map<nat, nat>, i: nat, b: Bill)
    requires SlotsOk(bills) && NumbersOk(bills, sequence) && i < |bills|
    requires b.tenant == bills[i].tenant && b.slot == bills[i].slot && b.number == bills[i].number
    requires bills[i].status.Cancelled? ==> b.status.Cancelled?
    ensures SlotsOk(bills[i := b]) && NumbersOk(bills[i := b], sequence)
  {
  }

  /** Replacing one bill by an acceptable version of itself. */
  lemma ReplaceKeeps(book: Book, i: nat, b: Bill)
    requires Valid(book) && i < |book.bills| && BillOk(b)
    requires var was := book.bills[i];
             && b.tenant == was.tenant && b.slot == was.slot && b.number == was.number && b.paid == was.paid
             && (was.status.Cancelled? ==> b.status.Cancelled?)
    ensures Valid(book.(bills := book.bills[i := b]))
  {
    hide BillOk; hide Sum;
    IdentityKept(book.bills, book.billNumbers, i, b);
    hide SlotsOk; hide NumbersOk;
  }

  lemma PublishKeeps(book: Book, i: nat)
    requires Valid(book)
    ensures Valid(Publish(book, i).0)
  {
    if i < |book.bills| && book.bills[i].status.Draft? {
      var b, number := book.bills[i], NextValue(book.billNumbers, book.bills[i].tenant);
      var b' := SettleStatus(b.(number := number, status := Published));
      BillOfValid(book, i);
      PublishedOk(b, b');
      hide BillOk; hide Sum; hide SlotsOk; hide Balanced; hide ReceiptsOk; hide KeysUnique; hide SettleStatus;
      NumberedKeeps(book, i, b');
    }
  }

  /** Publishing is refused only for a missing or cancelled bill; a draft becomes an issued bill under its
      workspace's next number (the first is 1), paid at once if nothing is due; every other publication, like every
      other row, changes nothing. */
  lemma PublishExactly(book: Book, i: nat)
    requires Valid(book)
    ensures PublishedAs(book, i, Publish(book, i).0, Publish(book, i).1)
  {
    if i < |book.bills| { BillOfValid(book, i); }
    hide Valid; hide TotalsOk; hide ReadingsOk;
  }

  ghost predicate PublishedAs(book: Book, i: nat, book': Book, reply: Reply) {
    if i >= |book.bills| then book' == book && reply == Refused(NotFound)
    else
      var b := book.bills[i];
      if b.status.Cancelled? then book' == book && reply == Refused(BillCancelled)
      else if !b.status.Draft? then book' == book && reply == Done
      else
        var number := if b.tenant in book.billNumbers then book.billNumbers[b.tenant] else 1;
        var status := if b.total == 0 then Paid else Published;
        && book' == book.(bills := book.bills[i := b.(number := number, status := status)],
                          billNumbers := book.billNumbers[b.tenant := number + 1])
        && reply == Done
  }

  /** A draft that takes the next number of its workspace. */
  lemma NumberedKeeps(book: Book, i: nat, b: Bill)
    requires Valid(book) && i < |book.bills| && BillOk(b) && book.bills[i].status.Draft?
    requires b == book.bills[i].(number := b.number, status := b.status)
    requires b.number == NextValue(book.billNumbers, b.tenant)
    ensures Valid(book.(bills := book.bills[i := b], billNumbers := book.billNumbers[b.tenant := b.number + 1]))
  {
    hide BillOk; hide Sum;
    NumbersAdvance(book.bills, book.billNumbers, i, b);
    hide NumbersOk;
  }

  lemma NumbersAdvance(bills: seq<Bill>, sequence: map<nat, nat>, i: nat, b: Bill)
    requires NumbersOk(bills, sequence) && i < |bills|
    requires b.tenant == bills[i].tenant && b.number == NextValue(sequence, b.tenant)
    ensures NumbersOk(bills[i := b], sequence[b.tenant := b.number + 1])
  {
  }

  lemma PublishedOk(b: Bill, b': Bill)
    requires BillOk(b) && b.status.Draft?
    requires b'.number > 0 && b' == SettleStatus(b.(number := b'.number, status := Published))
    ensures BillOk(b') && IsIssued(b'.status)
  {
    hide ReadingsOk; hide TotalsOk;
    StatusChangeKeeps(b, b');
  }

  lemma {:induction false} NothingPaid(payments: seq<Payment>, i: nat)
    requires forall p :: 0 <= p < |payments| ==> payments[p].amount > 0
    ensures Sum(payments, PaidInto(i)) >= 0
    ensures Sum(payments, PaidInto(i)) == 0 <==> Find(payments, CompletedFor(i)).None?
  {
    if payments != [] {
      var n := |payments| - 1;
      NothingPaid(payments[..n], i);
      if Find(payments[..n], CompletedFor(i)).None? {
        assert forall p :: 0 <= p < n ==> !CompletedFor(i)(payments[..n][p]);
      }
    }
  }

  /** Cancelling marks the bill cancelled and touches nothing else, or is refused, changing nothing, because the
      bill is missing or something is paid into it. */
  ghost predicate CancelledAs(book: Book, i: nat, book': Book, reply: Reply) {
    if i >= |book.bills| then book' == book && reply == Refused(NotFound)
    else if book.bills[i].paid > 0 then book' == book && reply == Refused(BillHasPayments)
    else book' == book.(bills := book.bills[i := book.bills[i].(status := Cancelled)]) && reply == Done
  }

  lemma CancelExactly(book: Book, i: nat)
    requires Valid(book)
    ensures CancelledAs(book, i, Cancel(book, i).0, Cancel(book, i).1)
    ensures Valid(Cancel(book, i).0)
  {
    if i < |book.bills| {
      NothingPaid(book.payments, i);
      BillOfValid(book, i);
      var b := book.bills[i];
      if !b.status.Cancelled? && b.paid == 0 {
        CancelledOk(b);
        ReplaceKeeps(book, i, b.(status := Cancelled));
      }
    }
  }

  lemma CancelledOk(b: Bill)
    requires BillOk(b) && b.paid == 0
    ensures BillOk(b.(status := Cancelled))
  {
    hide ReadingsOk; hide TotalsOk;
    StatusChangeKeeps(b, b.(status := Cancelled));
  }

  /** An edit reaches one bill, by its own rule; a refusal leaves the whole book as it was. */
  ghost predicate BillEditedAs(book: Book, i: nat, e: Edit, book': Book, reply: Reply) {
    if i >= |book.bills| then book' == book && reply == Refused(NotFound)
    else if reply.Refused? then book' == book && EditedAs(book.bills[i], e, Err(reply.code))
    else
      && reply == Done && |book'.bills| == |book.bills|
      && book' == book.(bills := book.bills[i := book'.bills[i]])
      && EditedAs(book.bills[i], e, Ok(book'.bills[i]))
  }

  lemma EditBillKeeps(book: Book, i: nat, e: Edit)
    requires Valid(book)
    ensures Valid(EditBill(book, i, e).0)
    ensures BillEditedAs(book, i, e, EditBill(book, i, e).0, EditBill(book, i, e).1)
  {
    hide Valid; hide BillOk; hide EditOf; hide EditedAs;
    if i < |book.bills| {
      assert BillOk(book.bills[i]) by { BillOfValid(book, i); }
      EditExactly(book.bills[i], e);
      EditKeeps(book.bills[i], e);
      var r := EditOf(book.bills[i], e);
      if r.Ok? { ReplaceKeeps(book, i, r.bill); }
    }
  }

  lemma BillOfValid(book: Book, i: nat)
    requires Valid(book) && i < |book.bills|
    ensures BillOk(book.bills[i])
  {
  }

  lemma PaymentHasBill(book: Book, id: nat)
    requires Valid(book) && id < |book.payments|
    ensures book.payments[id].bill < |book.bills|
  {
  }

  lemma GenerateKeeps(book: Book, tenant: nat, unit: nat, resident: nat, year: int, month: int, dueDate: int,
                      currency: string, rent: nat, usages: seq<MeterUsage>, maintenance: nat)
    requires Valid(book)
    ensures Valid(Generate(book, tenant, unit, resident, year, month, dueDate, currency, rent, usages, maintenance).0)
  {
    hide Valid; hide Sum; hide GeneratedLines; hide ReadingOk;
    var (book', reply) :=
        Generate(book, tenant, unit, resident, year, month, dueDate, currency, rent, usages, maintenance);
    if reply.Done? {
      var b := book'.bills[|book.bills|];
      GeneratedOk(b, rent, usages, maintenance);
      assert book'.bills == book.bills + [b];
      AppendBillKeeps(book, b);
    }
  }

  function MeterCharge(): MeterUsage -> int { (m: MeterUsage) => ElectricityLine(m).amount }

  /** The generated lines charge the rent, every meter and the default maintenance, and nothing else. */
  lemma GeneratedTotals(rent: nat, usages: seq<MeterUsage>, maintenance: nat)
    ensures Sum(GeneratedLines(rent, usages, maintenance), ChargeOf()) == rent + Sum(usages, MeterCharge())
        + maintenance
    ensures Sum(GeneratedLines(rent, usages, maintenance), AdjustmentOf()) == 0
    ensures Sum(usages, MeterCharge()) >= 0
  {
    var first := if rent > 0 then [Line(Rent, rent, None)] else [];
    var meters := seq(|usages|, k requires 0 <= k < |usages| => ElectricityLine(usages[k]));
    var last := if maintenance > 0 then [Line(Maintenance, maintenance, None)] else [];
    assert GeneratedLines(rent, usages, maintenance) == first + meters + last;
    SumConcat(first + meters, last, ChargeOf());
    SumConcat(first, meters, ChargeOf());
    SumConcat(first + meters, last, AdjustmentOf());
    SumConcat(first, meters, AdjustmentOf());
    OneLine(first, rent);
    OneLine(last, maintenance);
    hide Charges.ChargeCents; hide Charges.BilledUnits;
    SumSame(meters, usages, ChargeOf(), MeterCharge());
    SumSame(meters, usages, AdjustmentOf(), Nought());
    SumNought(usages);
    SumBounds(usages, MeterCharge());
    hide Sum; hide GeneratedLines;
  }

  function AmountOfKind(kind: LineType): Line -> int { (l: Line) => if l.kind == kind then l.amount else 0 }
  function OfKind(kind: LineType): Line -> bool { (l: Line) => l.kind == kind }

  /** The electricity line of a meter: the meter's own readings, multiplier and rate, consumption times multiplier
      rounded to the nearest thousandth, units times rate rounded to the nearest minor unit, ties upwards. */
  ghost predicate ChargesMeter(l: Line, m: MeterUsage) {
    && l.kind == Electricity && l.usage.Some?
    && var u := l.usage.value;
       && u.opening == m.opening && u.closing == m.closing && u.multiplier == m.multiplier && u.rate == m.rate
       && l.amount >= 0
       && (0 <= (m.closing - m.opening) * m.multiplier < 10000000000000000000000000000 ==>
             (2 * u.units - 1) * 10000 <= 2 * ((m.closing - m.opening) * m.multiplier) < (2 * u.units + 1) * 10000)
       && (u.units * m.rate < 10000000000000000000000000000 ==>
             (2 * l.amount - 1) * 10000000 <= 2 * (u.units * m.rate) < (2 * l.amount + 1) * 10000000)
  }

  ghost predicate ChargesMeters(lines: seq<Line>, usages: seq<MeterUsage>) {
    |lines| == |usages| && forall k :: 0 <= k < |usages| ==> ChargesMeter(lines[k], usages[k])
  }

  /** A lease is billed its rent as RENT, its meters one ELECTRICITY line each in their order, and the default
      maintenance as MAINTENANCE, in this order, without empty lines and with no line of any other type. */
  ghost predicate ChargesLease(lines: seq<Line>, rent: nat, usages: seq<MeterUsage>, maintenance: nat) {
    && Sum(lines, AmountOfKind(Rent)) == rent
    && Sum(lines, AmountOfKind(Maintenance)) == maintenance
    && ChargesMeters(Keep(lines, OfKind(Electricity)), usages)
    && InBillOrder(lines)
  }

  ghost predicate InBillOrder(lines: seq<Line>) {
    && (forall j :: 0 <= j < |lines| && !lines[j].kind.Electricity? ==>
          (lines[j].kind.Rent? || lines[j].kind.Maintenance?) && lines[j].amount > 0 && lines[j].usage.None?)
    && (forall j :: 0 < j < |lines| ==> !lines[j].kind.Rent?)
    && (forall j :: 0 <= j < |lines| - 1 ==> !lines[j].kind.Maintenance?)
  }

  lemma MeterIsCharged(m: MeterUsage)
    requires m.opening <= m.closing
    ensures ChargesMeter(ElectricityLine(m), m)
  {
    Charges.ChargeExactly(m.opening, m.closing, m.multiplier, m.rate);
    hide Charges.ChargeCents; hide Charges.BilledUnits;
  }

  lemma LeaseIsCharged(rent: nat, usages: seq<MeterUsage>, maintenance: nat)
    requires forall k :: 0 <= k < |usages| ==> usages[k].opening <= usages[k].closing
    ensures ChargesLease(GeneratedLines(rent, usages, maintenance), rent, usages, maintenance)
  {
    var first := if rent > 0 then [Line(Rent, rent, None)] else [];
    var meters := seq(|usages|, k requires 0 <= k < |usages| => ElectricityLine(usages[k]));
    var last := if maintenance > 0 then [Line(Maintenance, maintenance, None)] else [];
    var lines := GeneratedLines(rent, usages, maintenance);
    assert lines == first + meters + last;
    hide GeneratedLines; hide ElectricityLine; hide ChargesMeters; hide Sum; hide Keep; hide InBillOrder;
    MetersAreCharged(usages, meters);
    KindParts(first, meters, last);
    SideLine(first, Rent, rent);
    SideLine(last, Maintenance, maintenance);
    PartsInOrder(first, meters, last);
  }

  lemma MetersAreCharged(usages: seq<MeterUsage>, meters: seq<Line>)
    requires |meters| == |usages|
    requires forall k :: 0 <= k < |usages| ==>
        usages[k].opening <= usages[k].closing && meters[k] == ElectricityLine(usages[k])
    ensures ChargesMeters(meters, usages) && forall l :: l in meters ==> l.kind == Electricity
  {
    hide ChargesMeter; hide ElectricityLine;
    forall k | 0 <= k < |usages| ensures ChargesMeter(meters[k], usages[k]) && meters[k].kind == Electricity {
      MeterIsCharged(usages[k]);
      MeterKind(usages[k]);
    }
  }

  lemma MeterKind(m: MeterUsage)
    ensures ElectricityLine(m).kind == Electricity
  {
  }

  lemma SideLine(side: seq<Line>, kind: LineType, amount: nat)
    requires side == if amount > 0 then [Line(kind, amount, None)] else []
    ensures Sum(side, AmountOfKind(kind)) == amount
  {
    assert side != [] ==> side[..0] == [];
  }

  lemma PartsInOrder(first: seq<Line>, meters: seq<Line>, last: seq<Line>)
    requires |first| <= 1 && |last| <= 1
    requires forall l :: l in first ==> l.kind == Rent && l.amount > 0 && l.usage.None?
    requires forall l :: l in meters ==> l.kind == Electricity
    requires forall l :: l in last ==> l.kind == Maintenance && l.amount > 0 && l.usage.None?
    ensures InBillOrder(first + meters + last)
  {
    var lines, n := first + meters + last, |first| + |meters|;
    forall j | 0 <= j < |lines|
      ensures lines[j] in if j < |first| then first else if j < n then meters else last
    {
      if j < |first| { assert lines[j] == first[j]; }
      else if j < n { assert lines[j] == meters[j - |first|]; }
      else { assert lines[j] == last[j - n]; }
    }
  }

  /** Filtering and summing a rent part, a meter part and a maintenance part by type. */
  lemma KindParts(first: seq<Line>, meters: seq<Line>, last: seq<Line>)
    requires forall l :: l in first ==> l.kind == Rent
    requires forall l :: l in meters ==> l.kind == Electricity
    requires forall l :: l in last ==> l.kind == Maintenance
    ensures Keep(first + meters + last, OfKind(Electricity)) == meters
    ensures Sum(first + meters + last, AmountOfKind(Rent)) == Sum(first, AmountOfKind(Rent))
    ensures Sum(first + meters + last, AmountOfKind(Maintenance)) == Sum(last, AmountOfKind(Maintenance))
    ensures Sum(first + meters + last, AmountOfKind(Electricity)) == Sum(meters, AmountOfKind(Electricity))
  {
    KeepConcat(first + meters, last, OfKind(Electricity));
    KeepConcat(first, meters, OfKind(Electricity));
    KeepAllOrNone(first, OfKind(Electricity), false);
    KeepAllOrNone(meters, OfKind(Electricity), true);
    KeepAllOrNone(last, OfKind(Electricity), false);
    hide Keep;
    forall kind: LineType
      ensures Sum(first + meters + last, AmountOfKind(kind))
              == Sum(first, AmountOfKind(kind)) + Sum(meters, AmountOfKind(kind)) + Sum(last, AmountOfKind(kind))
    {
      SumConcat(first + meters, last, AmountOfKind(kind));
      SumConcat(first, meters, AmountOfKind(kind));
    }
    NoneOfKind(first, Maintenance);
    NoneOfKind(first, Electricity);
    NoneOfKind(meters, Rent);
    NoneOfKind(meters, Maintenance);
    NoneOfKind(last, Rent);
    NoneOfKind(last, Electricity);
    hide Sum;
  }

  lemma {:induction false} NoneOfKind(lines: seq<Line>, kind: LineType)
    requires forall l :: l in lines ==> l.kind != kind
    ensures Sum(lines, AmountOfKind(kind)) == 0
  {
    if lines != [] {
      assert lines[|lines| - 1] in lines;
      NoneOfKind(lines[..|lines| - 1], kind);
    }
  }

  function Nought(): MeterUsage -> int { (m: MeterUsage) => 0 }

  lemma {:induction false} SumNought(usages: seq<MeterUsage>)
    ensures Sum(usages, Nought()) == 0
  {
    if usages != [] { SumNought(usages[..|usages| - 1]); }
  }

  lemma OneLine(lines: seq<Line>, amount: nat)
    requires lines == [] ==> amount == 0
    requires lines != [] ==> |lines| == 1 && IsCharge(lines[0].kind) && lines[0].amount == amount
    ensures Sum(lines, ChargeOf()) == amount && Sum(lines, AdjustmentOf()) == 0
  {
    if lines != [] { assert lines[..0] == []; }
  }

  lemma NoneLive(bills: seq<Bill>, slot: Slot)
    ensures Find(bills, Live(slot)).None? <==> forall i :: 0 <= i < |bills| ==>
        bills[i].slot != slot || bills[i].status.Cancelled?
  {
    var r := Find(bills, Live(slot));
    if r.Some? { assert Live(slot)(bills[r.value]); }
    if r.None? { assert forall i :: 0 <= i < |bills| ==> !Live(slot)(bills[i]); }
  }

  /** What generation must answer and leave: refused for a month outside 2000 to 2100, a meter that ran backwards or
      a live bill in the slot; else one more bill, a draft without number that charges exactly the lease. */
  ghost predicate GeneratedAs(book: Book, tenant: nat, slot: Slot, dueDate: int, currency: string, rent: nat,
                              usages: seq<MeterUsage>, maintenance: nat, book': Book, reply: Reply) {
    var month, n := slot.periodStart, |book.bills|;
    if !(1 <= month.month <= 12 && 2000 <= month.year <= 2100) then book' == book && reply == Refused(InvalidPeriod)
    else if exists k :: 0 <= k < |usages| && usages[k].closing < usages[k].opening then
      book' == book && reply == Refused(NegativeConsumption)
    else if exists i :: 0 <= i < n && book.bills[i].slot == slot && !book.bills[i].status.Cancelled? then
      book' == book && reply == Refused(BillExists)
    else
      && reply == Done && |book'.bills| == n + 1
      && var b := book'.bills[n];
         && book' == book.(bills := book.bills + [b])
         && ChargesLease(b.lines, rent, usages, maintenance)
         && b == Bill(tenant, slot, dueDate, currency, 0, Draft, b.lines, [], b.total, 0, b.total, 0)
         && b.total == rent + Sum(b.lines, AmountOfKind(Electricity)) + maintenance
  }

  /** A bill is generated if and only if the month is valid, no meter ran backwards and the unit and resident have
      no live bill for it; the draft then charges exactly rent, electricity and maintenance. */
  lemma GenerateMeans(book: Book, tenant: nat, unit: nat, resident: nat, year: int, month: int, dueDate: int,
                      currency: string, rent: nat, usages: seq<MeterUsage>, maintenance: nat)
    ensures var r := Generate(book, tenant, unit, resident, year, month, dueDate, currency, rent, usages, maintenance);
            GeneratedAs(book, tenant, Slot(unit, resident, Calendar.Date(year, month, 1)), dueDate, currency, rent,
                        usages, maintenance, r.0, r.1)
  {
    hide Generate; hide Sum; hide GeneratedLines; hide ChargesLease; hide ElectricityLine; hide AmountOfKind;
    GenerateExactly(book, tenant, unit, resident, year, month, dueDate, currency, rent, usages, maintenance);
    GenerateRefuses(book, tenant, unit, resident, year, month, dueDate, currency, rent, usages, maintenance);
    var r := Generate(book, tenant, unit, resident, year, month, dueDate, currency, rent, usages, maintenance);
    if r.1.Done? {
      LeaseIsCharged(rent, usages, maintenance);
      ElectricityTotal(rent, usages, maintenance);
    }
  }

  lemma GenerateRefuses(book: Book, tenant: nat, unit: nat, resident: nat, year: int, month: int, dueDate: int,
                        currency: string, rent: nat, usages: seq<MeterUsage>, maintenance: nat)
    ensures var r := Generate(book, tenant, unit, resident, year, month, dueDate, currency, rent, usages, maintenance);
            var slot := Slot(unit, resident, Calendar.Date(year, month, 1));
            !r.1.Done? ==>
              r.1 == Refused(if !(1 <= month <= 12 && 2000 <= year <= 2100) then InvalidPeriod
                             else if exists k :: 0 <= k < |usages| && usages[k].closing < usages[k].opening
                               then NegativeConsumption
                             else BillExists)
  {
    GeneratedTotals(rent, usages, maintenance);
    hide Find; hide Sum; hide GeneratedLines; hide ElectricityLine;
  }

  lemma ElectricityTotal(rent: nat, usages: seq<MeterUsage>, maintenance: nat)
    ensures Sum(GeneratedLines(rent, usages, maintenance), AmountOfKind(Electricity)) == Sum(usages, MeterCharge())
  {
    var first := if rent > 0 then [Line(Rent, rent, None)] else [];
    var meters := seq(|usages|, k requires 0 <= k < |usages| => ElectricityLine(usages[k]));
    var last := if maintenance > 0 then [Line(Maintenance, maintenance, None)] else [];
    assert GeneratedLines(rent, usages, maintenance) == first + meters + last;
    hide Charges.ChargeCents; hide Charges.BilledUnits;
    KindParts(first, meters, last);
    SumSame(meters, usages, AmountOfKind(Electricity), MeterCharge());
    hide GeneratedLines; hide Sum;
  }

  lemma GenerateExactly(book: Book, tenant: nat, unit: nat, resident: nat, year: int, month: int, dueDate: int,
                        currency: string, rent: nat, usages: seq<MeterUsage>, maintenance: nat)
    ensures var (book', reply) :=
        Generate(book, tenant, unit, resident, year, month, dueDate, currency, rent, usages, maintenance);
            var slot := Slot(unit, resident, Calendar.Date(year, month, 1));
            var lines := GeneratedLines(rent, usages, maintenance);
            var total := rent + Sum(usages, MeterCharge()) + maintenance;
            && (reply.Done? <==>
                  && 1 <= month <= 12 && 2000 <= year <= 2100
                  && (forall k :: 0 <= k < |usages| ==> usages[k].opening <= usages[k].closing)
                  && (forall i :: 0 <= i < |book.bills| ==>
                        book.bills[i].slot != slot || book.bills[i].status.Cancelled?))
            && (reply.Done? ==>
                  book' == book.(bills := book.bills + [Bill(tenant, slot, dueDate, currency, 0, Draft, lines, [],
                                                             total, 0, total, 0)]))
            && (!reply.Done? ==> book' == book)
  {
    NoneLive(book.bills, Slot(unit, resident, Calendar.Date(year, month, 1)));
    GeneratedTotals(rent, usages, maintenance);
    hide Find; hide Sum; hide GeneratedLines;
  }

  /** Cancelling frees the slot: before, the unit, resident and month are refused a second bill; after it, the same
      request makes one. */
  lemma CancelFreesSlot(book: Book, i: nat, tenant: nat, year: int, month: int, dueDate: int, currency: string,
                        rent: nat, usages: seq<MeterUsage>, maintenance: nat)
    requires Valid(book) && i < |book.bills| && !book.bills[i].status.Cancelled? && book.bills[i].paid == 0
    requires book.bills[i].slot.periodStart == Calendar.Date(year, month, 1)
    requires 1 <= month <= 12 && 2000 <= year <= 2100
    requires forall k :: 0 <= k < |usages| ==> usages[k].opening <= usages[k].closing
    ensures var s, after := book.bills[i].slot, Cancel(book, i).0;
            && Generate(book, tenant, s.unit, s.resident, year, month, dueDate, currency, rent, usages, maintenance).1
               == Refused(BillExists)
            && Generate(after, tenant, s.unit, s.resident, year, month, dueDate, currency, rent, usages, maintenance).1
               == Done
  {
    var s, after := book.bills[i].slot, Cancel(book, i).0;
    CancelExactly(book, i);
    assert after.bills[i].status.Cancelled? && |after.bills| == |book.bills|
           && forall j :: 0 <= j < |book.bills| && j != i ==> after.bills[j] == book.bills[j] by { hide Valid; }
    assert forall j :: 0 <= j < |after.bills| ==> after.bills[j].slot != s || after.bills[j].status.Cancelled? by {
      assert SlotsOk(book.bills);
      hide Valid; hide Cancel;
    }
    hide Cancel; hide Valid;
    GenerateExactly(after, tenant, s.unit, s.resident, year, month, dueDate, currency, rent, usages, maintenance);
    NoneLive(book.bills, s);
    hide Find; hide GeneratedLines; hide Sum;
  }

  lemma AppendBillKeeps(book: Book, b: Bill)
    requires Valid(book) && BillOk(b) && b.status.Draft?
    requires Find(book.bills, Live(b.slot)).None?
    ensures Valid(book.(bills := book.bills + [b]))
  {
    hide BillOk; hide Sum;
    var n, book' := |book.bills|, book.(bills := book.bills + [b]);
    assert Sum(book.payments, PaidInto(n)) == 0 by { NoPaymentsYet(book.payments, n); }
    DraftUnpaid(b);
    hide PaidInto;
    forall i | 0 <= i < n && book.bills[i].slot == b.slot ensures book.bills[i].status.Cancelled? {
      assert !Live(b.slot)(book.bills[i]);
    }
  }

  lemma DraftUnpaid(b: Bill)
    requires BillOk(b) && b.status.Draft?
    ensures b.paid == 0 && b.number == 0
  {
  }

  lemma {:induction false} NoPaymentsYet(payments: seq<Payment>, i: nat)
    requires forall p :: 0 <= p < |payments| ==> payments[p].bill != i
    ensures Sum(payments, PaidInto(i)) == 0
  {
    if payments != [] { NoPaymentsYet(payments[..|payments| - 1], i); }
  }

  // ---------- money in and out ----------

  ghost predicate Creditable(book: Book, i: nat, p: Payment) {
    && i < |book.bills| && p.bill == i && p.tenant == book.bills[i].tenant && p.status.Completed?
    && IsOpen(book.bills[i].status) && 0 < p.amount <= book.bills[i].total - book.bills[i].paid
    && (!p.key.NoKey? ==> forall q :: 0 <= q < |book.payments| ==> !HasKey(p.tenant, p.key)(book.payments[q]))
    && (!p.reference.NoReference? ==> forall q :: 0 <= q < |book.payments| ==>
          !HasReference(p.tenant, p.reference)(book.payments[q]))
  }

  /** A payment adds its row and its receipt under the workspace's next number (the first is 1), and raises its
      bill's balance, which is PAID exactly when nothing is left to pay. */
  ghost predicate CreditedAs(book: Book, i: nat, p: Payment, book': Book)
    requires i < |book.bills|
  {
    var b, number := book.bills[i], if p.tenant in book.receiptNumbers then book.receiptNumbers[p.tenant] else 1;
    var status := if b.paid + p.amount == b.total then Paid else PartiallyPaid;
    book' == book.(payments := book.payments + [p],
                   bills := book.bills[i := b.(paid := b.paid + p.amount, status := status)],
                   receipts := book.receipts + [Receipt(p.tenant, i, |book.payments|, number, p.amount)],
                   receiptNumbers := book.receiptNumbers[p.tenant := number + 1])
  }

  lemma CreditKeeps(book: Book, i: nat, p: Payment)
    requires Valid(book) && Creditable(book, i, p)
    ensures Valid(Credit(book, i, p))
    ensures CreditedAs(book, i, p, Credit(book, i, p))
  {
    assert CreditedAs(book, i, p, Credit(book, i, p)) by {
      BillOfValid(book, i);
      hide Valid; hide TotalsOk; hide ReadingsOk; hide HasKey; hide HasReference;
    }
    hide CreditedAs; hide Credit;
    hide BillsOk; hide Balanced; hide PaymentsOk; hide KeysUnique; hide ReceiptsOk; hide SlotsOk; hide NumbersOk;
    CreditBills(book, i, p);
    CreditBalances(book, i, p);
    CreditReceipts(book, i, p);
    assert KeysUnique(Credit(book, i, p).payments) by { KeyAppended(book, i, p); }
  }

  lemma CreditBills(book: Book, i: nat, p: Payment)
    requires BillsOk(book) && PaymentsOk(book) && SlotsOk(book.bills) && NumbersOk(book.bills, book.billNumbers)
    requires Creditable(book, i, p)
    ensures var book' := Credit(book, i, p);
            BillsOk(book') && PaymentsOk(book') && SlotsOk(book'.bills) && NumbersOk(book'.bills, book'.billNumbers)
  {
    var b, book' := book.bills[i], Credit(book, i, p);
    RepaidKeeps(b, b.paid + p.amount);
    hide BillOk; hide SettleStatus;
    IdentityKept(book.bills, book.billNumbers, i, book'.bills[i]);
    hide SlotsOk; hide NumbersOk;
  }

  lemma CreditBalances(book: Book, i: nat, p: Payment)
    requires Balanced(book) && Creditable(book, i, p)
    ensures Balanced(Credit(book, i, p))
  {
    hide Sum;
    forall j | 0 <= j < |book.bills|
      ensures Credit(book, i, p).bills[j].paid == Sum(book.payments + [p], PaidInto(j))
    {
      SumAppend(book.payments, p, PaidInto(j));
    }
  }

  lemma CreditReceipts(book: Book, i: nat, p: Payment)
    requires ReceiptsOk(book) && Creditable(book, i, p)
    ensures ReceiptsOk(Credit(book, i, p))
  {
    hide SettleStatus;
  }

  lemma KeyAppended(book: Book, i: nat, p: Payment)
    requires KeysUnique(book.payments) && Creditable(book, i, p)
    ensures KeysUnique(book.payments + [p])
  {
    assert forall q :: 0 <= q < |book.payments| && !p.key.NoKey? ==> !HasKey(p.tenant, p.key)(book.payments[q]);
    assert forall q :: 0 <= q < |book.payments| && !p.reference.NoReference? ==>
        !HasReference(p.tenant, p.reference)(book.payments[q]);
  }

  /** A payment is created if and only if the key is new, the amount fits what is due on an open bill of
      the workspace, the date has come and the reference is new. */
  lemma PayExactly(book: Book, tenant: nat, i: nat, amount: int, date: Calendar.Date, today: Calendar.Date,
                   means: Means, reference: Reference, key: Key)
    ensures var (book', reply) := Pay(book, tenant, i, amount, date, today, means, reference, key);
            var p := Payment(tenant, i, amount, date, means, Completed, reference, key);
            && (reply == PaymentIs(|book.payments|, true) <==> Calendar.NotAfter(date, today) && Creditable(book, i, p))
            && (reply.PaymentIs? && reply.created ==> reply.id == |book.payments| && book' == Credit(book, i, p))
            && (!(reply.PaymentIs? && reply.created) ==> book' == book)
  {
    hide Credit;
    if i < |book.bills| && book.bills[i].tenant == tenant {
      if !key.NoKey? && Find(book.payments, HasKey(tenant, key)).Some? {
        assert HasKey(tenant, key)(book.payments[Find(book.payments, HasKey(tenant, key)).value]);
      }
      if !reference.NoReference? && Find(book.payments, HasReference(tenant, reference)).Some? {
        var taken := Find(book.payments, HasReference(tenant, reference)).value;
        assert HasReference(tenant, reference)(book.payments[taken]);
      }
    }
  }

  /** A key that is taken answers for the payment that took it: with that payment if bill and amount agree, else
      refused. Every other refusal names the first guard that fails. */
  lemma PayAnswers(book: Book, tenant: nat, i: nat, amount: int, date: Calendar.Date, today: Calendar.Date,
                   means: Means, reference: Reference, key: Key)
    requires Valid(book) && i < |book.bills| && book.bills[i].tenant == tenant
    ensures var reply, b := Pay(book, tenant, i, amount, date, today, means, reference, key).1, book.bills[i];
            && (forall q :: 0 <= q < |book.payments| && !key.NoKey? && HasKey(tenant, key)(book.payments[q]) ==>
                  var p := book.payments[q];
                  reply == if p.bill == i && p.amount == amount then PaymentIs(q, false)
                           else Refused(IdempotencyKeyReused))
            && ((forall q :: 0 <= q < |book.payments| ==> key.NoKey? || !HasKey(tenant, key)(book.payments[q])) ==>
                  && (amount <= 0 ==> reply == Refused(AmountPositive))
                  && (amount > 0 && !Calendar.NotAfter(date, today) ==> reply == Refused(PaymentDateInFuture))
                  && (amount > 0 && Calendar.NotAfter(date, today) ==>
                        && (!IsOpen(b.status) ==> reply == Refused(BillNotPayable))
                        && (IsOpen(b.status) && amount > b.total - b.paid ==> reply == Refused(Overpayment))
                        && (IsOpen(b.status) && amount <= b.total - b.paid ==>
                              reply == PaymentIs(|book.payments|, true)
                              || reply == Refused(DuplicatePaymentReference))))
  {
    hide Calendar.NotAfter; hide Credit;
    var found := Find(book.payments, HasKey(tenant, key));
    if !key.NoKey? && found.Some? {
      assert HasKey(tenant, key)(book.payments[found.value]);
      forall q | 0 <= q < |book.payments| && HasKey(tenant, key)(book.payments[q]) ensures q == found.value {
        SameKeySamePayment(book, tenant, key, q, found.value);
      }
    }
    hide Valid;
  }

  lemma SameKeySamePayment(book: Book, tenant: nat, key: Key, p: nat, q: nat)
    requires KeysUnique(book.payments) && !key.NoKey? && p < |book.payments| && q < |book.payments|
    requires HasKey(tenant, key)(book.payments[p]) && HasKey(tenant, key)(book.payments[q])
    ensures p == q
  {
  }

  lemma PayKeeps(book: Book, tenant: nat, i: nat, amount: int, date: Calendar.Date, today: Calendar.Date,
                 means: Means, reference: Reference, key: Key)
    requires Valid(book)
    ensures Valid(Pay(book, tenant, i, amount, date, today, means, reference, key).0)
  {
    hide Valid; hide Pay; hide Creditable; hide Credit;
    PayExactly(book, tenant, i, amount, date, today, means, reference, key);
    var reply := Pay(book, tenant, i, amount, date, today, means, reference, key).1;
    if reply.PaymentIs? && reply.created {
      CreditKeeps(book, i, Payment(tenant, i, amount, date, means, Completed, reference, key));
    }
  }

  /** A completed payment sits on an issued bill whose balance covers it. */
  lemma CompletedIsCovered(book: Book, id: nat)
    requires Valid(book) && id < |book.payments| && book.payments[id].status.Completed?
    ensures var b := book.bills[book.payments[id].bill];
            IsIssued(b.status) && book.payments[id].amount <= b.paid
  {
    var i := book.payments[id].bill;
    SumBounds(book.payments, PaidInto(i));
    assert PaidInto(i)(book.payments[id]) <= Sum(book.payments, PaidInto(i));
  }

  /** Voiding marks a completed offline payment voided and lowers its bill's balance by the amount, so that the bill
      is open again; a voided payment stays as it is and an online one is refused. */
  ghost predicate VoidedAs(book: Book, id: nat, book': Book, reply: Reply) {
    if id >= |book.payments| || book.payments[id].bill >= |book.bills| then book' == book && reply == Refused(NotFound)
    else
      var p := book.payments[id];
      var b := book.bills[p.bill];
      if p.status.Voided? then book' == book && reply == Done
      else if p.means.Online? then book' == book && reply == Refused(OnlinePaymentNotVoidable)
      else
        var status := if b.paid == p.amount then Published else PartiallyPaid;
        && book' == book.(payments := book.payments[id := p.(status := Voided)],
                          bills := book.bills[p.bill := b.(paid := b.paid - p.amount, status := status)])
        && reply == Done
  }

  lemma VoidExactly(book: Book, id: nat)
    requires Valid(book)
    ensures VoidedAs(book, id, Void(book, id).0, Void(book, id).1)
  {
    if id < |book.payments| && book.payments[id].status.Completed? {
      CompletedIsCovered(book, id);
      BillOfValid(book, book.payments[id].bill);
      hide Balanced; hide BillsOk; hide KeysUnique; hide ReceiptsOk; hide SlotsOk; hide NumbersOk;
      hide TotalsOk; hide ReadingsOk;
    }
  }

  lemma VoidKeeps(book: Book, id: nat)
    requires Valid(book)
    ensures Valid(Void(book, id).0)
  {
    if id < |book.payments| && book.payments[id].status.Completed? && !book.payments[id].means.Online? {
      var p := book.payments[id];
      var b := book.bills[p.bill];
      CompletedIsCovered(book, id);
      BillOfValid(book, p.bill);
      RepaidKeeps(b, b.paid - p.amount);
      hide BillOk; hide SettleStatus; hide Sum; hide Balanced; hide KeysUnique; hide ReceiptsOk;
      VoidBalances(book, id);
      VoidRows(book, id);
      IdentityKept(book.bills, book.billNumbers, p.bill, Void(book, id).0.bills[p.bill]);
      hide SlotsOk; hide NumbersOk;
    }
  }

  lemma VoidRows(book: Book, id: nat)
    requires KeysUnique(book.payments) && ReceiptsOk(book) && id < |book.payments|
    ensures KeysUnique(book.payments[id := book.payments[id].(status := Voided)])
    ensures ReceiptsOk(Void(book, id).0)
  {
    hide SettleStatus;
  }

  lemma VoidBalances(book: Book, id: nat)
    requires Balanced(book) && PaymentsOk(book) && id < |book.payments| && Void(book, id).1.Done?
    ensures Balanced(Void(book, id).0)
  {
    hide Sum;
    var p := book.payments[id];
    if p.status.Completed? {
      forall j | 0 <= j < |book.bills|
        ensures Void(book, id).0.bills[j].paid == Sum(book.payments[id := p.(status := Voided)], PaidInto(j))
      {
        SumUpdate(book.payments, id, p.(status := Voided), PaidInto(j));
      }
    }
  }

  // ---------- every run ----------

  lemma StepKeeps(book: Book, op: Op)
    requires Valid(book)
    ensures Valid(Step(book, op).0)
  {
    hide Valid; hide Generate; hide EditBill; hide Publish; hide Cancel; hide Pay; hide Void;
    match op
    case GenerateOp(tenant, unit, resident, year, month, dueDate, currency, rent, usages, maintenance) =>
      GenerateKeeps(book, tenant, unit, resident, year, month, dueDate, currency, rent, usages, maintenance);
    case EditOp(bill, edit) => EditBillKeeps(book, bill, edit);
    case PublishOp(bill) => PublishKeeps(book, bill);
    case CancelOp(bill) => CancelExactly(book, bill);
    case PayOp(tenant, bill, amount, date, today, means, reference, key) =>
      PayKeeps(book, tenant, bill, amount, date, today, means, reference, key);
    case VoidOp(payment) => VoidKeeps(book, payment);
  }

  /** Ledger safety: whatever owners do in whatever order, totals are sums of lines and never negative,
      balances are sums of completed payments and never above the total, the status of an issued bill is
      determined by both, every payment has its own receipt, and no number, key or reference repeats. */
  lemma {:induction false} RunsStayValid(ops: seq<Op>)
    ensures Valid(Run(EMPTY, ops))
  {
    hide Valid; hide Step;
    if ops == [] {
      EmptyIsValid();
    } else {
      RunsStayValid(ops[..|ops| - 1]);
      StepKeeps(Run(EMPTY, ops[..|ops| - 1]), ops[|ops| - 1]);
    }
  }

  lemma EmptyIsValid()
    ensures Valid(EMPTY)
  {
  }

  // ---------- every step of a run ----------

  /** Each operation answers and leaves what its own rule says. */
  ghost predicate SteppedAs(book: Book, op: Op, book': Book, reply: Reply) {
    match op
    case GenerateOp(tenant, unit, resident, year, month, dueDate, currency, rent, usages, maintenance) =>
      GeneratedAs(book, tenant, Slot(unit, resident, Calendar.Date(year, month, 1)), dueDate, currency, rent, usages,
                  maintenance, book', reply)
    case EditOp(bill, edit) => BillEditedAs(book, bill, edit, book', reply)
    case PublishOp(bill) => PublishedAs(book, bill, book', reply)
    case CancelOp(bill) => CancelledAs(book, bill, book', reply)
    case PayOp(tenant, bill, amount, date, today, means, reference, key) =>
      var p := Payment(tenant, bill, amount, date, means, Completed, reference, key);
      if Calendar.NotAfter(date, today) && Creditable(book, bill, p) then
        reply == PaymentIs(|book.payments|, true) && CreditedAs(book, bill, p, book')
      else book' == book && reply != Done && reply != PaymentIs(|book.payments|, true)
    case VoidOp(payment) => VoidedAs(book, payment, book', reply)
  }

  lemma StepExactly(book: Book, op: Op)
    requires Valid(book)
    ensures SteppedAs(book, op, Step(book, op).0, Step(book, op).1)
  {
    hide Valid; hide Generate; hide EditBill; hide Publish; hide Cancel; hide Pay; hide Void; hide Creditable;
    hide GeneratedAs; hide BillEditedAs; hide PublishedAs; hide CancelledAs; hide CreditedAs; hide VoidedAs;
    hide Credit;
    match op
    case GenerateOp(tenant, unit, resident, year, month, dueDate, currency, rent, usages, maintenance) =>
      GenerateMeans(book, tenant, unit, resident, year, month, dueDate, currency, rent, usages, maintenance);
    case EditOp(bill, edit) => EditBillKeeps(book, bill, edit);
    case PublishOp(bill) => PublishExactly(book, bill);
    case CancelOp(bill) => CancelExactly(book, bill);
    case PayOp(tenant, bill, amount, date, today, means, reference, key) =>
      PayExactly(book, tenant, bill, amount, date, today, means, reference, key);
      PayNeverDone(book, tenant, bill, amount, date, today, means, reference, key);
      var p := Payment(tenant, bill, amount, date, means, Completed, reference, key);
      if Creditable(book, bill, p) { CreditKeeps(book, bill, p); }
    case VoidOp(payment) => VoidExactly(book, payment);
  }

  lemma PayNeverDone(book: Book, tenant: nat, i: nat, amount: int, date: Calendar.Date, today: Calendar.Date,
                     means: Means, reference: Reference, key: Key)
    ensures var reply := Pay(book, tenant, i, amount, date, today, means, reference, key).1;
            reply != Done && (reply == PaymentIs(|book.payments|, true) <==> reply.PaymentIs? && reply.created)
  {
    hide Credit; hide Calendar.NotAfter;
  }

  /** Whatever was done to the ledger before, the next operation does what its rule says. */
  lemma RunExactly(ops: seq<Op>, op: Op)
    ensures SteppedAs(Run(EMPTY, ops), op, Run(EMPTY, ops + [op]), Step(Run(EMPTY, ops), op).1)
  {
    hide SteppedAs; hide Step; hide Valid;
    RunsStayValid(ops);
    assert (ops + [op])[..|ops|] == ops;
    StepExactly(Run(EMPTY, ops), op);
  }
}
