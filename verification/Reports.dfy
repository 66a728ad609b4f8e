/** The monthly series of the owner's report, and the identities its rows satisfy because of the ledger's
    invariants. */
module Reports {
  import opened Tables
  import opened Calendar
  import opened Ledger
  import opened LedgerInvariant
  import opened LedgerHistory
  import Charges

  /** Sums over bills, over their lines, and over payments received. */
  datatype BillSums = BillSums(billed: int, collected: int, outstanding: int, unallocated: int)
  datatype LineSums = LineSums(rentBilled: int, electricityBilled: int, otherBilled: int,
                               rentCollected: int, electricityCollected: int, otherCollected: int, units: int)
  datatype Row = Row(bills: BillSums, lines: LineSums, cash: int)

  const ZERO_BILLS := BillSums(0, 0, 0, 0)
  const ZERO_LINES := LineSums(0, 0, 0, 0, 0, 0, 0)

  // ---------- what a row must say ----------

  predicate Issued(b: Bill, month: Date) { IsIssued(b.status) && b.slot.periodStart == month }

  function TotalIn(month: Date): Bill -> int { (b: Bill) => if Issued(b, month) then b.total else 0 }
  function PaidIn(month: Date): Bill -> int { (b: Bill) => if Issued(b, month) then b.paid else 0 }
  function DueIn(month: Date): Bill -> int { (b: Bill) => if Issued(b, month) then b.total - b.paid else 0 }
  function PartPaidIn(month: Date): Bill -> int {
    (b: Bill) => if Issued(b, month) && !b.status.Paid? then b.paid else 0
  }

  function BillSumsOf(bills: seq<Bill>, month: Date): BillSums {
    BillSums(Sum(bills, TotalIn(month)), Sum(bills, PaidIn(month)), Sum(bills, DueIn(month)),
        Sum(bills, PartPaidIn(month)))
  }

  function RentOf(): Line -> int { (l: Line) => if l.kind.Rent? then l.amount else 0 }
  function ElectricityOf(): Line -> int { (l: Line) => if l.kind.Electricity? then l.amount else 0 }
  function RestOf(): Line -> int { (l: Line) => if l.kind.Rent? || l.kind.Electricity? then 0 else l.amount }
  function UnitsOf(): Line -> int {
    (l: Line) => if l.kind.Electricity? && l.usage.Some? then l.usage.value.units else 0
  }

  function IfPaid(b: Bill, x: int): int { if b.status.Paid? then x else 0 }

  /** The lines of one bill, by charge type. */
  function LinesOf(b: Bill, lines: seq<Line>): LineSums {
    var rent, electricity, rest := Sum(lines, RentOf()), Sum(lines, ElectricityOf()), Sum(lines, RestOf());
    LineSums(rent, electricity, rest, IfPaid(b, rent), IfPaid(b, electricity), IfPaid(b, rest), Sum(lines, UnitsOf()))
  }

  function Plus(a: LineSums, b: LineSums): LineSums {
    LineSums(a.rentBilled + b.rentBilled, a.electricityBilled + b.electricityBilled, a.otherBilled + b.otherBilled,
             a.rentCollected + b.rentCollected, a.electricityCollected + b.electricityCollected,
             a.otherCollected + b.otherCollected, a.units + b.units)
  }

  function LineSumsOf(bills: seq<Bill>, month: Date): LineSums {
    if bills == [] then ZERO_LINES
    else
      var b := bills[|bills| - 1];
      Plus(LineSumsOf(bills[..|bills| - 1], month), if Issued(b, month) then LinesOf(b, b.lines) else ZERO_LINES)
  }

  function CashIn(month: Date): Payment -> int {
    (p: Payment) => if p.status.Completed? && MonthStart(p.date) == month then p.amount else 0
  }

  function RowOf(bills: seq<Bill>, payments: seq<Payment>, month: Date): Row {
    Row(BillSumsOf(bills, month), LineSumsOf(bills, month), Sum(payments, CashIn(month)))
  }

  // ---------- the loops ----------

  function Month(first: Date, m: int): Date { ShiftMonth(first, m) }

  /** Every month of the window has a row, and only those. */
  ghost predicate Window(rows: map<Date, Row>, first: Date, months: nat) {
    && (forall m :: 0 <= m < months ==> Month(first, m) in rows)
    && (forall d :: d in rows ==> exists m :: 0 <= m < months && d == Month(first, m))
  }

  ghost predicate Says(rows: map<Date, Row>, bills: seq<Bill>, lined: seq<Bill>, payments: seq<Payment>) {
    forall d :: d in rows ==>
      rows[d] == Row(BillSumsOf(bills, d), LineSumsOf(lined, d), Sum(payments, CashIn(d)))
  }

  method EmptyRows(first: Date, months: nat) returns (rows: map<Date, Row>)
    ensures Window(rows, first, months) && Says(rows, [], [], [])
  {
    rows := map[];
    for m := 0 to months
      invariant Window(rows, first, m) && Says(rows, [], [], [])
    {
      rows := rows[Month(first, m) := Row(ZERO_BILLS, ZERO_LINES, 0)];
    }
  }

  /** The query behind both loops over bills; months of the window are on or after its first. */
  predicate Queried(b: Bill, first: Date) { IsIssued(b.status) && NotAfter(first, b.slot.periodStart) }

  lemma WindowIsQueried(rows: map<Date, Row>, first: Date, months: nat, b: Bill)
    requires Window(rows, first, months) && b.slot.periodStart in rows && first.day == 1 && IsDate(first)
    ensures IsIssued(b.status) ==> Queried(b, first)
  {
    var m :| 0 <= m < months && b.slot.periodStart == Month(first, m);
    ShiftMonthMoves(first, m, 0);
    MonthIndexOrders(first, b.slot.periodStart);
  }

  function AddBill(row: Row, b: Bill): Row {
    row.(bills := BillSums(row.bills.billed + b.total, row.bills.collected + b.paid,
        row.bills.outstanding + (b.total - b.paid),
                           row.bills.unallocated + if b.status.Paid? then 0 else b.paid))
  }

  method AddBills(rows0: map<Date, Row>, bills: seq<Bill>, first: Date, months: nat) returns (rows: map<Date, Row>)
    requires Window(rows0, first, months) && Says(rows0, [], [], []) && first.day == 1 && IsDate(first)
    ensures Window(rows, first, months) && Says(rows, bills, [], [])
  {
    hide Window; hide Says; hide Queried;
    rows := rows0;
    for i := 0 to |bills|
      invariant Window(rows, first, months) && Says(rows, bills[..i], [], [])
    {
      var b := bills[i];
      assert bills[..i + 1] == bills[..i] + [b];
      BillStep(rows, bills[..i], b);
      if b.slot.periodStart in rows { WindowIsQueried(rows, first, months, b); }
      if Queried(b, first) && b.slot.periodStart in rows {
        QueriedIsIssued(b, first);
        WindowKept(rows, first, months, b.slot.periodStart, AddBill(rows[b.slot.periodStart], b));
        rows := rows[b.slot.periodStart := AddBill(rows[b.slot.periodStart], b)];
      }
    }
    assert bills[..|bills|] == bills;
  }

  lemma QueriedIsIssued(b: Bill, first: Date)
    ensures Queried(b, first) ==> IsIssued(b.status)
  {
  }

  lemma WindowKept(rows: map<Date, Row>, first: Date, months: nat, d: Date, row: Row)
    requires Window(rows, first, months) && d in rows
    ensures Window(rows[d := row], first, months)
  {
  }

  lemma BillStep(rows: map<Date, Row>, bills: seq<Bill>, b: Bill)
    requires Says(rows, bills, [], [])
    ensures var d := b.slot.periodStart;
            Says(if IsIssued(b.status) && d in rows then rows[d := AddBill(rows[d], b)] else rows, bills + [b], [], [])
  {
    hide Sum;
    forall d | d in rows
      ensures BillSumsOf(bills + [b], d) ==
                if Issued(b, d) then AddBill(Row(BillSumsOf(bills, d), ZERO_LINES, 0), b).bills
                else BillSumsOf(bills, d)
    {
      SumAppend(bills, b, TotalIn(d));
      SumAppend(bills, b, PaidIn(d));
      SumAppend(bills, b, DueIn(d));
      SumAppend(bills, b, PartPaidIn(d));
    }
  }

  /** One line of the joined query: its bill's month and status, its own type and amount. */
  function AddLine(sums: LineSums, paid: bool, l: Line): LineSums {
    var got := if paid then l.amount else 0;
    match l.kind
    case Rent => sums.(rentBilled := sums.rentBilled + l.amount, rentCollected := sums.rentCollected + got)
    case Electricity =>
      sums.(electricityBilled := sums.electricityBilled + l.amount,
          electricityCollected := sums.electricityCollected + got,
            units := sums.units + if l.usage.Some? then l.usage.value.units else 0)
    case _ => sums.(otherBilled := sums.otherBilled + l.amount, otherCollected := sums.otherCollected + got)
  }

  lemma LineStep(base: LineSums, b: Bill, lines: seq<Line>, l: Line)
    ensures AddLine(Plus(base, LinesOf(b, lines)), b.status.Paid?, l) == Plus(base, LinesOf(b, lines + [l]))
  {
    SumAppend(lines, l, RentOf());
    SumAppend(lines, l, ElectricityOf());
    SumAppend(lines, l, RestOf());
    SumAppend(lines, l, UnitsOf());
    hide Sum;
  }

  /** The lines of one bill, added to its month's row one after the other. */
  method AddLinesOf(sums0: LineSums, b: Bill) returns (sums: LineSums)
    ensures sums == Plus(sums0, LinesOf(b, b.lines))
  {
    hide Plus; hide LinesOf; hide AddLine;
    sums := sums0;
    NoLines(sums0, b);
    for j := 0 to |b.lines|
      invariant sums == Plus(sums0, LinesOf(b, b.lines[..j]))
    {
      assert b.lines[..j + 1] == b.lines[..j] + [b.lines[j]];
      LineStep(sums0, b, b.lines[..j], b.lines[j]);
      sums := AddLine(sums, b.status.Paid?, b.lines[j]);
    }
    assert b.lines[..|b.lines|] == b.lines;
  }

  lemma NoLines(sums: LineSums, b: Bill)
    ensures Plus(sums, LinesOf(b, b.lines[..0])) == sums
  {
  }

  method AddLines(rows0: map<Date, Row>, bills: seq<Bill>, first: Date, months: nat) returns (rows: map<Date, Row>)
    requires Window(rows0, first, months) && Says(rows0, bills, [], []) && first.day == 1 && IsDate(first)
    ensures Window(rows, first, months) && Says(rows, bills, bills, [])
  {
    hide Window; hide Says; hide Queried; hide Plus; hide LinesOf;
    rows := rows0;
    for i := 0 to |bills|
      invariant Window(rows, first, months) && Says(rows, bills, bills[..i], [])
    {
      var b := bills[i];
      assert bills[..i + 1] == bills[..i] + [b];
      LinesStep(rows, bills, bills[..i], b);
      if b.slot.periodStart in rows { WindowIsQueried(rows, first, months, b); }
      if Queried(b, first) && b.slot.periodStart in rows {
        QueriedIsIssued(b, first);
        var row := rows[b.slot.periodStart];
        var sums := AddLinesOf(row.lines, b);
        WindowKept(rows, first, months, b.slot.periodStart, row.(lines := sums));
        rows := rows[b.slot.periodStart := row.(lines := sums)];
      }
    }
    assert bills[..|bills|] == bills;
  }

  lemma LinesStep(rows: map<Date, Row>, bills: seq<Bill>, lined: seq<Bill>, b: Bill)
    requires Says(rows, bills, lined, [])
    ensures var d := b.slot.periodStart;
            Says(if IsIssued(b.status) && d in rows
                 then rows[d := rows[d].(lines := Plus(rows[d].lines, LinesOf(b, b.lines)))]
                     else rows, bills, lined + [b], [])
  {
    forall d | d in rows
      ensures LineSumsOf(lined + [b], d) ==
                if Issued(b, d) then Plus(LineSumsOf(lined, d), LinesOf(b, b.lines)) else LineSumsOf(lined, d)
    {
      LineSumsAppend(lined, b, d);
    }
    hide Sum; hide LineSumsOf; hide LinesOf; hide Plus; hide IsIssued; hide BillSumsOf;
  }

  lemma LineSumsAppend(lined: seq<Bill>, b: Bill, d: Date)
    ensures LineSumsOf(lined + [b], d) ==
              if Issued(b, d) then Plus(LineSumsOf(lined, d), LinesOf(b, b.lines)) else LineSumsOf(lined, d)
  {
    hide LinesOf; hide Issued; hide Plus; hide Sum;
    var all := lined + [b];
    assert all != [] && all[..|all| - 1] == lined && all[|all| - 1] == b;
    assert Plus(LineSumsOf(lined, d), ZERO_LINES) == LineSumsOf(lined, d) by { PlusZero(LineSumsOf(lined, d)); }
  }

  lemma PlusZero(sums: LineSums)
    ensures Plus(sums, ZERO_LINES) == sums
  {
  }

  method AddCash(rows0: map<Date, Row>, bills: seq<Bill>, payments: seq<Payment>, first: Date, months: nat)
      returns (rows: map<Date, Row>)
    requires Window(rows0, first, months) && Says(rows0, bills, bills, []) && first.day == 1 && IsDate(first)
    requires forall p :: p in payments ==> IsDate(p.date)
    ensures Window(rows, first, months) && Says(rows, bills, bills, payments)
  {
    hide Window; hide Says;
    rows := rows0;
    for i := 0 to |payments|
      invariant Window(rows, first, months) && Says(rows, bills, bills, payments[..i])
    {
      var p := payments[i];
      var month := MonthStart(p.date);
      assert payments[..i + 1] == payments[..i] + [p];
      CashStep(rows, bills, payments[..i], p);
      if month in rows { CashIsQueried(rows, first, months, p); }
      if p.status.Completed? && NotAfter(first, p.date) && month in rows {
        var row := rows[month];
        WindowKept(rows, first, months, month, row.(cash := row.cash + p.amount));
        rows := rows[month := row.(cash := row.cash + p.amount)];
      }
    }
    assert payments[..|payments|] == payments;
  }

  lemma CashStep(rows: map<Date, Row>, bills: seq<Bill>, payments: seq<Payment>, p: Payment)
    requires Says(rows, bills, bills, payments)
    ensures var d := MonthStart(p.date);
            Says(if p.status.Completed? && d in rows then rows[d := rows[d].(cash := rows[d].cash + p.amount)]
                else rows,
                 bills, bills, payments + [p])
  {
    hide Sum;
    forall d | d in rows ensures Sum(payments + [p], CashIn(d)) == Sum(payments, CashIn(d)) + CashIn(d)(p) {
      SumAppend(payments, p, CashIn(d));
    }
  }

  /** A payment whose month has a row is dated on or after the window's first day. */
  lemma CashIsQueried(rows: map<Date, Row>, first: Date, months: nat, p: Payment)
    requires Window(rows, first, months) && MonthStart(p.date) in rows && first.day == 1 && IsDate(first)
    ensures 1 <= p.date.day ==> NotAfter(first, p.date)
  {
    var m :| 0 <= m < months && MonthStart(p.date) == Month(first, m);
    ShiftMonthMoves(first, m, 0);
    MonthIndexOrders(first, MonthStart(p.date));
  }

  /** `monthly_series`: one row per month, oldest first, each a statement about bills and payments alone. */
  method MonthlySeries(bills: seq<Bill>, payments: seq<Payment>, today: Date, months: nat) returns (out: seq<Row>)
    requires IsDate(today) && forall p :: p in payments ==> IsDate(p.date)
    ensures |out| == months
    ensures forall m :: 0 <= m < months ==> out[m] == RowOf(bills, payments, ShiftMonth(today, m - (months - 1)))
  {
    hide Window; hide Says; hide RowOf; hide ShiftMonth;
    var first := ShiftMonth(MonthStart(today), -(months - 1));
    ShiftMonthMoves(MonthStart(today), -(months - 1), 0);
    var rows := EmptyRows(first, months);
    rows := AddBills(rows, bills, first, months);
    rows := AddLines(rows, bills, first, months);
    rows := AddCash(rows, bills, payments, first, months);
    out := [];
    for m := 0 to months
      invariant |out| == m
      invariant forall k :: 0 <= k < m ==> out[k] == RowOf(bills, payments, ShiftMonth(today, k - (months - 1)))
    {
      ReadOff(rows, bills, payments, first, months, m);
      SameMonth(today, m, months);
      out := out + [rows[Month(first, m)]];
    }
  }

  lemma ReadOff(rows: map<Date, Row>, bills: seq<Bill>, payments: seq<Payment>, first: Date, months: nat, m: nat)
    requires Window(rows, first, months) && Says(rows, bills, bills, payments) && m < months
    ensures Month(first, m) in rows && rows[Month(first, m)] == RowOf(bills, payments, Month(first, m))
  {
    hide Sum; hide LineSumsOf; hide BillSumsOf;
  }

  lemma SameMonth(today: Date, m: nat, months: nat)
    ensures Month(ShiftMonth(MonthStart(today), -(months - 1)), m) == ShiftMonth(today, m - (months - 1))
  {
    ShiftMonthMoves(MonthStart(today), -(months - 1), m);
  }

  // ---------- identities ----------

  /** Every charge type adds up: of one bill's lines to its total, and, once PAID, to what was paid. */
  lemma LinesAddUp(b: Bill)
    requires BillOk(b)
    ensures Sum(b.lines, RentOf()) + Sum(b.lines, ElectricityOf()) + Sum(b.lines, RestOf()) == b.total
    ensures b.status.Paid? ==> b.paid == b.total
  {
    TotalIsSumOfLines(b);
    ThreeWays(b.lines);
    hide ReadingsOk; hide TotalsOk; hide Sum;
  }

  lemma {:induction false} ThreeWays(lines: seq<Line>)
    ensures Sum(lines, RentOf()) + Sum(lines, ElectricityOf()) + Sum(lines, RestOf()) == Sum(lines, AmountOf())
  {
    if lines != [] { ThreeWays(lines[..|lines| - 1]); }
  }

  /** The identities each row shows, whatever bills it is made of. */
  ghost predicate AddsUp(bills: BillSums, lines: LineSums) {
    && lines.rentBilled + lines.electricityBilled + lines.otherBilled == bills.billed
    && lines.rentCollected + lines.electricityCollected + lines.otherCollected + bills.unallocated == bills.collected
    && bills.outstanding == bills.billed - bills.collected
  }

  /** What one more bill adds to both sides. */
  lemma OneMoreBill(bills: seq<Bill>, b: Bill, month: Date, lines: LineSums)
    requires BillOk(b) && AddsUp(BillSumsOf(bills, month), lines)
    ensures AddsUp(BillSumsOf(bills + [b], month),
        Plus(lines, if Issued(b, month) then LinesOf(b, b.lines) else ZERO_LINES))
  {
    LinesAddUp(b);
    SumAppend(bills, b, TotalIn(month));
    SumAppend(bills, b, PaidIn(month));
    SumAppend(bills, b, DueIn(month));
    SumAppend(bills, b, PartPaidIn(month));
    hide Sum; hide BillOk;
  }

  lemma {:induction false} RowAddsUp(bills: seq<Bill>, month: Date)
    requires forall i :: 0 <= i < |bills| ==> BillOk(bills[i])
    ensures AddsUp(BillSumsOf(bills, month), LineSumsOf(bills, month))
  {
    hide Sum; hide BillOk; hide AddsUp; hide BillSumsOf; hide Plus; hide LinesOf; hide Issued; hide LineSumsOf;
    if bills == [] {
      NothingAddsUp(month);
    } else {
      var n := |bills| - 1;
      LastBill(bills, month);
      RowAddsUp(bills[..n], month);
      OneMoreBill(bills[..n], bills[n], month, LineSumsOf(bills[..n], month));
      assert bills == bills[..n] + [bills[n]];
    }
  }

  lemma NothingAddsUp(month: Date)
    ensures AddsUp(BillSumsOf([], month), LineSumsOf([], month))
  {
  }

  lemma LastBill(bills: seq<Bill>, month: Date)
    requires bills != []
    ensures var n := |bills| - 1;
            LineSumsOf(bills, month)
            == Plus(LineSumsOf(bills[..n], month), if Issued(bills[n], month) then LinesOf(bills[n], bills[n].lines)
                else ZERO_LINES)
  {
    hide Plus; hide LinesOf; hide Issued;
  }

  /** The report identity: in every reachable ledger, every month's rent, electricity and other billed add up to
      billed; rent, electricity and other collected plus the unallocated part payments add up to collected. */
  lemma ReportIdentity(ops: seq<Op>, month: Date)
    ensures var row := RowOf(Run(EMPTY, ops).bills, Run(EMPTY, ops).payments, month);
            AddsUp(row.bills, row.lines)
  {
    var book := Run(EMPTY, ops);
    RunsStayValid(ops);
    forall i | 0 <= i < |book.bills| ensures BillOk(book.bills[i]) { BillOfValid(book, i); }
    hide BillOk; hide Valid; hide Run; hide Sum;
    RowAddsUp(book.bills, month);
  }

  // ---------- from generation to the report ----------

  function UnitsBilled(): MeterUsage -> int {
    (m: MeterUsage) => Charges.BilledUnits(m.opening, m.closing, m.multiplier).GetOr(0)
  }

  /** A row's lines after a bill of that month with these sums came in, unpaid. */
  ghost predicate GrewBy(was: LineSums, now: LineSums, rent: int, electricity: int, other: int, units: int) {
    && now.rentBilled == was.rentBilled + rent && now.electricityBilled == was.electricityBilled + electricity
    && now.otherBilled == was.otherBilled + other && now.units == was.units + units
    && now.rentCollected == was.rentCollected && now.electricityCollected == was.electricityCollected
    && now.otherCollected == was.otherCollected
  }

  /** A generated bill enters the report when it is published, in its own month and in no other: as a draft it shows
      nowhere, and then rent, electricity and other billed grow by exactly the rent, the meters' charges and the
      maintenance it was generated from. */
  lemma GeneratedIsReported(book: Book, tenant: nat, unit: nat, resident: nat, year: int, month: int, dueDate: int,
                            currency: string, rent: nat, usages: seq<MeterUsage>, maintenance: nat, shown: Date)
    requires Valid(book)
    requires Generate(book, tenant, unit, resident, year, month, dueDate, currency, rent, usages, maintenance).1.Done?
    ensures var drafted :=
              Generate(book, tenant, unit, resident, year, month, dueDate, currency, rent, usages, maintenance).0;
            var (published, reply) := Publish(drafted, |book.bills|);
            var was, now := LineSumsOf(book.bills, shown), LineSumsOf(published.bills, shown);
            && reply.Done? && LineSumsOf(drafted.bills, shown) == was
            && (shown == Date(year, month, 1) ==>
                  GrewBy(was, now, rent, Sum(usages, MeterCharge()), maintenance, Sum(usages, UnitsBilled())))
            && (shown != Date(year, month, 1) ==> now == was)
  {
    hide LineSumsOf; hide Sum; hide GeneratedLines; hide Valid; hide Plus; hide LinesOf; hide Generate; hide Publish;
    var drafted := Generate(book, tenant, unit, resident, year, month, dueDate, currency, rent, usages, maintenance).0;
    GenerateKeeps(book, tenant, unit, resident, year, month, dueDate, currency, rent, usages, maintenance);
    GenerateExactly(book, tenant, unit, resident, year, month, dueDate, currency, rent, usages, maintenance);
    var n := |book.bills|;
    PublishExactly(drafted, n);
    var draft, published := drafted.bills[n], Publish(drafted, n).0;
    assert drafted.bills == book.bills + [draft] && published.bills == book.bills + [published.bills[n]];
    LineSumsAppend(book.bills, draft, shown);
    LineSumsAppend(book.bills, published.bills[n], shown);
    GeneratedLineSums(published.bills[n], rent, usages, maintenance, LineSumsOf(book.bills, shown));
  }

  /** The same bill raises billed and outstanding of its month by its total, and nothing else. */
  lemma GeneratedIsBilled(book: Book, tenant: nat, unit: nat, resident: nat, year: int, month: int, dueDate: int,
                          currency: string, rent: nat, usages: seq<MeterUsage>, maintenance: nat, shown: Date)
    requires Valid(book)
    requires Generate(book, tenant, unit, resident, year, month, dueDate, currency, rent, usages, maintenance).1.Done?
    ensures var drafted :=
              Generate(book, tenant, unit, resident, year, month, dueDate, currency, rent, usages, maintenance).0;
            var was, now := BillSumsOf(book.bills, shown), BillSumsOf(Publish(drafted, |book.bills|).0.bills, shown);
            var added := if shown == Date(year, month, 1) then rent + Sum(usages, MeterCharge()) + maintenance else 0;
            && now.billed == was.billed + added && now.outstanding == was.outstanding + added
            && now.collected == was.collected && now.unallocated == was.unallocated
  {
    hide Sum; hide GeneratedLines; hide Valid; hide Generate; hide Publish;
    var drafted := Generate(book, tenant, unit, resident, year, month, dueDate, currency, rent, usages, maintenance).0;
    GenerateKeeps(book, tenant, unit, resident, year, month, dueDate, currency, rent, usages, maintenance);
    GenerateExactly(book, tenant, unit, resident, year, month, dueDate, currency, rent, usages, maintenance);
    var n := |book.bills|;
    PublishExactly(drafted, n);
    var b := Publish(drafted, n).0.bills[n];
    assert Publish(drafted, n).0.bills == book.bills + [b];
    SumAppend(book.bills, b, TotalIn(shown));
    SumAppend(book.bills, b, PaidIn(shown));
    SumAppend(book.bills, b, DueIn(shown));
    SumAppend(book.bills, b, PartPaidIn(shown));
  }

  /** A payment shows as cash in the month it is dated, and as collected instead of outstanding in its bill's month;
      billed stays. */
  lemma PaymentIsReported(book: Book, i: nat, p: Payment, shown: Date)
    requires Valid(book) && Creditable(book, i, p)
    ensures var was, now := RowOf(book.bills, book.payments, shown),
                RowOf(Credit(book, i, p).bills, Credit(book, i, p).payments, shown);
            var moved := if book.bills[i].slot.periodStart == shown then p.amount else 0;
            && now.cash == was.cash + (if shown == Date(p.date.year, p.date.month, 1) then p.amount else 0)
            && now.bills.collected == was.bills.collected + moved
            && now.bills.outstanding == was.bills.outstanding - moved
            && now.bills.billed == was.bills.billed
  {
    hide Sum; hide Valid; hide LineSumsOf; hide Credit;
    CreditKeeps(book, i, p);
    var b' := Credit(book, i, p).bills[i];
    SumAppend(book.payments, p, CashIn(shown));
    SumUpdate(book.bills, i, b', TotalIn(shown));
    SumUpdate(book.bills, i, b', PaidIn(shown));
    SumUpdate(book.bills, i, b', DueIn(shown));
  }

  /** Voiding takes it out again, from the same two months. */
  lemma VoidIsReported(book: Book, id: nat, shown: Date)
    requires Valid(book) && id < |book.payments|
    requires book.payments[id].status.Completed? && !book.payments[id].means.Online?
    ensures var p, book' := book.payments[id], Void(book, id).0;
            var was, now := RowOf(book.bills, book.payments, shown), RowOf(book'.bills, book'.payments, shown);
            var moved := if book.bills[p.bill].slot.periodStart == shown then p.amount else 0;
            && now.cash == was.cash - (if shown == Date(p.date.year, p.date.month, 1) then p.amount else 0)
            && now.bills.collected == was.bills.collected - moved
            && now.bills.outstanding == was.bills.outstanding + moved
            && now.bills.billed == was.bills.billed
  {
    hide Sum; hide Valid; hide LineSumsOf; hide Void;
    VoidExactly(book, id);
    CompletedIsCovered(book, id);
    PaymentHasBill(book, id);
    var p, book' := book.payments[id], Void(book, id).0;
    SumUpdate(book.payments, id, p.(status := Voided), CashIn(shown));
    SumUpdate(book.bills, p.bill, book'.bills[p.bill], TotalIn(shown));
    SumUpdate(book.bills, p.bill, book'.bills[p.bill], PaidIn(shown));
    SumUpdate(book.bills, p.bill, book'.bills[p.bill], DueIn(shown));
  }

  lemma GeneratedLineSums(b: Bill, rent: nat, usages: seq<MeterUsage>, maintenance: nat, was: LineSums)
    requires b.lines == GeneratedLines(rent, usages, maintenance)
    requires b.status.Paid? ==> rent + Sum(usages, MeterCharge()) + maintenance == 0
    ensures GrewBy(was, Plus(was, LinesOf(b, b.lines)), rent, Sum(usages, MeterCharge()), maintenance,
                   Sum(usages, UnitsBilled()))
  {
    hide Sum; hide GeneratedLines; hide ElectricityLine; hide MeterCharge; hide UnitsBilled;
    hide RentOf; hide ElectricityOf; hide RestOf; hide UnitsOf;
    GeneratedColumns(rent, usages, maintenance);
    GeneratedTotals(rent, usages, maintenance);
  }

  /** Each column of the report, summed over the generated lines. */
  lemma GeneratedColumns(rent: nat, usages: seq<MeterUsage>, maintenance: nat)
    ensures var lines := GeneratedLines(rent, usages, maintenance);
            && Sum(lines, RentOf()) == rent && Sum(lines, RestOf()) == maintenance
            && Sum(lines, ElectricityOf()) == Sum(usages, MeterCharge())
            && Sum(lines, UnitsOf()) == Sum(usages, UnitsBilled())
  {
    hide Sum; hide ElectricityLine; hide MeterCharge; hide UnitsBilled;
    hide RentOf; hide ElectricityOf; hide RestOf; hide UnitsOf;
    var first := if rent > 0 then [Line(Rent, rent, None)] else [];
    var meters := seq(|usages|, k requires 0 <= k < |usages| => ElectricityLine(usages[k]));
    var last := if maintenance > 0 then [Line(Maintenance, maintenance, None)] else [];
    assert GeneratedLines(rent, usages, maintenance) == first + meters + last;
    MeterSums(usages, meters);
    SideSums(first, last, rent, maintenance);
    ThreeParts(first, meters, last, RentOf());
    ThreeParts(first, meters, last, ElectricityOf());
    ThreeParts(first, meters, last, RestOf());
    ThreeParts(first, meters, last, UnitsOf());
  }

  lemma ThreeParts(first: seq<Line>, meters: seq<Line>, last: seq<Line>, f: Line -> int)
    ensures Sum(first + meters + last, f) == Sum(first, f) + Sum(meters, f) + Sum(last, f)
  {
    SumConcat(first + meters, last, f);
    SumConcat(first, meters, f);
  }

  lemma MeterSums(usages: seq<MeterUsage>, meters: seq<Line>)
    requires |meters| == |usages| && forall k :: 0 <= k < |usages| ==> meters[k] == ElectricityLine(usages[k])
    ensures Sum(meters, ElectricityOf()) == Sum(usages, MeterCharge())
    ensures Sum(meters, UnitsOf()) == Sum(usages, UnitsBilled())
    ensures Sum(meters, RentOf()) == 0 && Sum(meters, RestOf()) == 0
  {
    hide Charges.ChargeCents; hide Charges.BilledUnits; hide Sum;
    SumSame(meters, usages, ElectricityOf(), MeterCharge());
    SumSame(meters, usages, UnitsOf(), UnitsBilled());
    SumSame(meters, usages, RentOf(), Nought());
    SumSame(meters, usages, RestOf(), Nought());
    SumNought(usages);
  }

  lemma SideSums(first: seq<Line>, last: seq<Line>, rent: nat, maintenance: nat)
    requires first == if rent > 0 then [Line(Rent, rent, None)] else []
    requires last == if maintenance > 0 then [Line(Maintenance, maintenance, None)] else []
    ensures Sum(first, RentOf()) == rent && Sum(last, RestOf()) == maintenance
    ensures Sum(first, ElectricityOf()) == Sum(first, RestOf()) == Sum(first, UnitsOf()) == 0
    ensures Sum(last, ElectricityOf()) == Sum(last, RentOf()) == Sum(last, UnitsOf()) == 0
  {
    assert first != [] ==> first[..0] == [];
    assert last != [] ==> last[..0] == [];
  }

  // ---------- each bill in exactly one row ----------

  function InWindow(first: Date, months: nat): Bill -> int {
    (b: Bill) => if IsIssued(b.status)
        && MonthIndex(first) <= MonthIndex(b.slot.periodStart) < MonthIndex(first) + months
                 then b.total else 0
  }

  /** Billed over the first k rows of a series. */
  function BilledOver(bills: seq<Bill>, first: Date, months: nat): int {
    if months == 0 then 0 else BilledOver(bills, first, months - 1) + Sum(bills, TotalIn(Month(first, months - 1)))
  }

  ghost predicate PeriodsOk(bills: seq<Bill>) {
    forall i :: 0 <= i < |bills| ==> IsDate(bills[i].slot.periodStart) && bills[i].slot.periodStart.day == 1
  }

  /** An issued bill of the window lands in exactly one row. */
  lemma ExactlyOneRow(b: Bill, first: Date, months: nat)
    requires IsIssued(b.status) && IsDate(b.slot.periodStart) && b.slot.periodStart.day == 1
    ensures (exists m :: 0 <= m < months && Issued(b, Month(first, m)))
            <==> MonthIndex(first) <= MonthIndex(b.slot.periodStart) < MonthIndex(first) + months
    ensures forall m, n :: 0 <= m < months && 0 <= n < months ==>
              (Issued(b, Month(first, m)) && Issued(b, Month(first, n)) ==> m == n)
  {
    forall m: int
      ensures Month(first, m) == b.slot.periodStart <==> MonthIndex(first) + m == MonthIndex(b.slot.periodStart)
    {
      ShiftMonthMoves(first, m, 0);
      MonthIndexOrders(Month(first, m), b.slot.periodStart);
    }
    var m := MonthIndex(b.slot.periodStart) - MonthIndex(first);
    if 0 <= m < months { assert Issued(b, Month(first, m)); }
    hide ShiftMonth; hide IsIssued;
  }

  /** Conservation: the rows of a series together bill every issued bill of the window once and nothing else. */
  lemma {:induction false} WindowConserves(bills: seq<Bill>, first: Date, months: nat)
    requires PeriodsOk(bills)
    ensures BilledOver(bills, first, months) == Sum(bills, InWindow(first, months))
  {
    if months == 0 {
      NothingInWindow(bills, first);
    } else {
      WindowConserves(bills, first, months - 1);
      WindowGrows(bills, first, months - 1);
    }
  }

  lemma {:induction false} NothingInWindow(bills: seq<Bill>, first: Date)
    ensures Sum(bills, InWindow(first, 0)) == 0
  {
    if bills != [] { NothingInWindow(bills[..|bills| - 1], first); }
  }

  lemma {:induction false} WindowGrows(bills: seq<Bill>, first: Date, months: nat)
    requires PeriodsOk(bills)
    ensures Sum(bills, InWindow(first, months + 1)) == Sum(bills, InWindow(first, months))
        + Sum(bills, TotalIn(Month(first, months)))
  {
    forall i | 0 <= i < |bills|
      ensures InWindow(first, months + 1)(bills[i]) == InWindow(first, months)(bills[i])
          + TotalIn(Month(first, months))(bills[i])
    {
      ShiftMonthMoves(first, months, 0);
      MonthIndexOrders(Month(first, months), bills[i].slot.periodStart);
    }
    SumSplit(bills, InWindow(first, months + 1), InWindow(first, months), TotalIn(Month(first, months)));
  }

  /** Reachable ledgers bill whole months. */
  lemma {:induction false} RunsBillMonths(ops: seq<Op>)
    ensures PeriodsOk(Run(EMPTY, ops).bills)
  {
    if ops != [] {
      var before, op := Run(EMPTY, ops[..|ops| - 1]), ops[|ops| - 1];
      RunsBillMonths(ops[..|ops| - 1]);
      StepContinues(before, op);
      NewBillsAreMonthly(before, op);
      hide Step; hide Run;
    }
  }

  lemma NewBillsAreMonthly(book: Book, op: Op)
    ensures var bills := Step(book, op).0.bills;
            forall i :: |book.bills| <= i < |bills| ==>
                IsDate(bills[i].slot.periodStart) && bills[i].slot.periodStart.day == 1
  {
    hide EditOf; hide Sum; hide GeneratedLines; hide Find; hide SettleStatus;
  }

  /** Together: the series of any reachable ledger conserves what was billed in its window. */
  lemma SeriesConserves(ops: seq<Op>, first: Date, months: nat)
    ensures var bills := Run(EMPTY, ops).bills;
            BilledOver(bills, first, months) == Sum(bills, InWindow(first, months))
  {
    RunsBillMonths(ops);
    WindowConserves(Run(EMPTY, ops).bills, first, months);
  }
}
