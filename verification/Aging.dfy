/** Overdue days, aging buckets and the status a person sees; the aging report and what it adds up to.
    Due dates and today are day ordinals. */
module Aging {
  import opened Tables
  import opened Ledger
  import opened LedgerInvariant

  datatype Bucket = Current | Days1To30 | Days31To60 | Days61To90 | Days90Plus

  predicate Owes(b: Bill) { IsOpen(b.status) && b.total - b.paid > 0 }

  function Due(b: Bill): int { b.total - b.paid }

  function OverdueDays(b: Bill, today: int): nat {
    if Owes(b) && today > b.dueDate then today - b.dueDate else 0
  }

  function BucketForDays(days: int): Bucket {
    if days <= 0 then Current
    else if days <= 30 then Days1To30
    else if days <= 60 then Days31To60
    else if days <= 90 then Days61To90
    else Days90Plus
  }

  function BucketOf(b: Bill, today: int): Bucket { BucketForDays(OverdueDays(b, today)) }

  datatype Shown = Overdue | Stored(status: BillStatus)

  function DisplayStatus(b: Bill, today: int): Shown {
    if Owes(b) && OverdueDays(b, today) > 0 then Overdue else Stored(b.status)
  }

  /** The ledger settles statuses, so an open status alone says that money is due. */
  lemma OpenMeansOwing(b: Bill)
    requires BillOk(b)
    ensures IsOpen(b.status) <==> Owes(b)
  {
    hide TotalsOk; hide ReadingsOk;
  }

  /** The buckets and the shown status of a ledger bill, in days past its due date. */
  lemma BucketExactly(b: Bill, today: int)
    requires BillOk(b)
    ensures var late := if b.status.Published? || b.status.PartiallyPaid? then today - b.dueDate else 0;
            && OverdueDays(b, today) == (if late > 0 then late else 0)
            && (BucketOf(b, today).Current? <==> late <= 0)
            && (BucketOf(b, today).Days1To30? <==> 1 <= late <= 30)
            && (BucketOf(b, today).Days31To60? <==> 31 <= late <= 60)
            && (BucketOf(b, today).Days61To90? <==> 61 <= late <= 90)
            && (BucketOf(b, today).Days90Plus? <==> 91 <= late)
            && DisplayStatus(b, today) == if late > 0 then Overdue else Stored(b.status)
  {
    hide BillOk;
    OpenMeansOwing(b);
  }

  // ---------- the report ----------

  datatype Row = Row(bill: Bill, days: nat, bucket: Bucket, due: int)

  datatype Report = Report(outstanding: int, overdue: int, amounts: map<Bucket, int>, counts: map<Bucket, int>,
      rows: seq<Row>)

  function DueIn(bucket: Bucket, today: int): Bill -> int {
    (b: Bill) => if Owes(b) && BucketOf(b, today) == bucket then Due(b) else 0
  }
  function CountIn(bucket: Bucket, today: int): Bill -> int {
    (b: Bill) => if Owes(b) && BucketOf(b, today) == bucket then 1 else 0
  }
  function DueOf(): Bill -> int { (b: Bill) => if Owes(b) then Due(b) else 0 }
  function OverdueOf(today: int): Bill -> int { (b: Bill) => if OverdueDays(b, today) > 0 then Due(b) else 0 }

  function RowFor(b: Bill, today: int): Row { Row(b, OverdueDays(b, today), BucketOf(b, today), Due(b)) }

  function RowsFor(bills: seq<Bill>, today: int): seq<Row> {
    if bills == [] then []
    else
      var last := bills[|bills| - 1];
      RowsFor(bills[..|bills| - 1], today) + if Owes(last) then [RowFor(last, today)] else []
  }

  /** The sort key (-days, due date). */
  predicate Before(a: Row, b: Row) { a.days > b.days || (a.days == b.days && a.bill.dueDate <= b.bill.dueDate) }

  ghost predicate SortedByKey(rows: seq<Row>) { forall i, j :: 0 <= i < j < |rows| ==> Before(rows[i], rows[j]) }

  lemma AppendSorted(rows: seq<Row>, row: Row)
    requires SortedByKey(rows) && forall x :: x in multiset(rows) ==> Before(x, row)
    ensures SortedByKey(rows + [row]) && multiset(rows + [row]) == multiset(rows) + multiset{row}
  {
    assert forall i :: 0 <= i < |rows| ==> rows[i] in multiset(rows);
    hide Before;
  }

  lemma SplitLast(sorted: seq<Row>)
    requires SortedByKey(sorted) && sorted != []
    ensures var n := |sorted| - 1;
            && SortedByKey(sorted[..n]) && multiset(sorted) == multiset(sorted[..n]) + multiset{sorted[n]}
            && forall x :: x in multiset(sorted[..n]) ==> Before(x, sorted[n])
  {
    var n := |sorted| - 1;
    assert sorted == sorted[..n] + [sorted[n]];
    hide Before;
  }

  /** Stable insertion behind everything that is not after it. */
  function Insert(sorted: seq<Row>, row: Row): (r: seq<Row>)
    requires SortedByKey(sorted)
    ensures SortedByKey(r) && multiset(r) == multiset(sorted) + multiset{row}
  {
    if sorted == [] then [row]
    else
      var n := |sorted| - 1;
      SplitLast(sorted);
      if Before(sorted[n], row) then
        AppendSorted(sorted, row);
        sorted + [row]
      else
        var r := Insert(sorted[..n], row);
        AppendSorted(r, sorted[n]);
        r + [sorted[n]]
  }

  /** `rows.sort(key=...)` */
  method SortRows(rows: seq<Row>) returns (sorted: seq<Row>)
    ensures SortedByKey(sorted) && multiset(sorted) == multiset(rows)
  {
    hide SortedByKey;
    sorted := [];
    assert SortedByKey(sorted) by { NothingToSort(); }
    for n := 0 to |rows|
      invariant SortedByKey(sorted) && multiset(sorted) == multiset(rows[..n])
    {
      sorted := Insert(sorted, rows[n]);
      assert rows[..n + 1] == rows[..n] + [rows[n]];
    }
    assert rows[..|rows|] == rows;
  }

  lemma NothingToSort()
    ensures SortedByKey([])
  {
  }

  /** One entry per bucket. */
  ghost predicate Tallied(totals: map<Bucket, int>, counts: map<Bucket, int>, bills: seq<Bill>, today: int) {
    && (forall bucket :: bucket in totals && bucket in counts)
    && (forall bucket :: totals[bucket] == Sum(bills, DueIn(bucket, today))
          && counts[bucket] == Sum(bills, CountIn(bucket, today)))
  }

  lemma ZerosTally(today: int)
    ensures var zeros := map[Current := 0, Days1To30 := 0, Days31To60 := 0, Days61To90 := 0, Days90Plus := 0];
            Tallied(zeros, zeros, [], today)
  {
    var zeros := map[Current := 0, Days1To30 := 0, Days31To60 := 0, Days61To90 := 0, Days90Plus := 0];
    forall bucket: Bucket ensures bucket in zeros && zeros[bucket] == 0 {
      match bucket case Current => case Days1To30 => case Days31To60 => case Days61To90 => case Days90Plus =>
    }
  }

  lemma TallyStep(totals: map<Bucket, int>, counts: map<Bucket, int>, bills: seq<Bill>, bill: Bill, today: int)
    requires Tallied(totals, counts, bills, today)
    ensures var bucket := BucketOf(bill, today);
            Tallied(if Owes(bill) then totals[bucket := totals[bucket] + Due(bill)] else totals,
                    if Owes(bill) then counts[bucket := counts[bucket] + 1] else counts, bills + [bill], today)
  {
    hide BucketForDays; hide OverdueDays; hide Sum;
    forall bucket
      ensures Sum(bills + [bill], DueIn(bucket, today)) == Sum(bills, DueIn(bucket, today)) + DueIn(bucket, today)(bill)
      ensures Sum(bills + [bill], CountIn(bucket, today)) == Sum(bills, CountIn(bucket, today))
          + CountIn(bucket, today)(bill)
    {
      SumAppend(bills, bill, DueIn(bucket, today));
      SumAppend(bills, bill, CountIn(bucket, today));
    }
  }

  method AgingReport(bills: seq<Bill>, today: int) returns (report: Report)
    ensures Tallied(report.amounts, report.counts, bills, today)
    ensures report.outstanding == Sum(bills, DueOf()) && report.overdue == Sum(bills, OverdueOf(today))
    ensures multiset(report.rows) == multiset(RowsFor(bills, today)) && SortedByKey(report.rows)
  {
    hide Tallied; hide BucketForDays; hide OverdueDays; hide SortedByKey; hide Sum;
    var totals := map[Current := 0, Days1To30 := 0, Days31To60 := 0, Days61To90 := 0, Days90Plus := 0];
    var counts := totals;
    var rows := [];
    ZerosTally(today);
    for i := 0 to |bills|
      invariant Tallied(totals, counts, bills[..i], today) && rows == RowsFor(bills[..i], today)
    {
      var bill := bills[i];
      assert bills[..i + 1][..i] == bills[..i] && bills[..i + 1] == bills[..i] + [bill];
      TallyStep(totals, counts, bills[..i], bill, today);
      if Owes(bill) {
        var days := OverdueDays(bill, today);
        var bucket := BucketForDays(days);
        var due := bill.total - bill.paid;
        TallyHas(totals, counts, bills[..i], today, bucket);
        totals := totals[bucket := totals[bucket] + due];
        counts := counts[bucket := counts[bucket] + 1];
        rows := rows + [Row(bill, days, bucket, due)];
      }
    }
    assert bills[..|bills|] == bills;
    BucketsAddUp(bills, today);
    TallyHas(totals, counts, bills, today, Current);
    TallyHas(totals, counts, bills, today, Days1To30);
    TallyHas(totals, counts, bills, today, Days31To60);
    TallyHas(totals, counts, bills, today, Days61To90);
    TallyHas(totals, counts, bills, today, Days90Plus);
    var sorted := SortRows(rows);
    report := Report(
      totals[Current] + totals[Days1To30] + totals[Days31To60] + totals[Days61To90] + totals[Days90Plus],
      totals[Days1To30] + totals[Days31To60] + totals[Days61To90] + totals[Days90Plus],
      totals, counts, sorted);
  }

  lemma TallyHas(totals: map<Bucket, int>, counts: map<Bucket, int>, bills: seq<Bill>, today: int, bucket: Bucket)
    requires Tallied(totals, counts, bills, today)
    ensures bucket in totals && bucket in counts && totals[bucket] == Sum(bills, DueIn(bucket, today))
  {
  }

  /** Every owing bill is in exactly one bucket, so the buckets add up to what is outstanding; all but
      CURRENT add up to what is overdue. */
  lemma {:induction false} BucketsAddUp(bills: seq<Bill>, today: int)
    ensures var late := Sum(bills, DueIn(Days1To30, today)) + Sum(bills, DueIn(Days31To60, today))
                        + Sum(bills, DueIn(Days61To90, today)) + Sum(bills, DueIn(Days90Plus, today));
            && Sum(bills, DueIn(Current, today)) + late == Sum(bills, DueOf())
            && late == Sum(bills, OverdueOf(today))
  {
    if bills != [] { BucketsAddUp(bills[..|bills| - 1], today); }
  }

  /** A report sorted by its key is sorted by due date: days overdue are counted from it. */
  lemma KeyOrderIsDueOrder(rows: seq<Row>, today: int)
    requires SortedByKey(rows)
    requires forall i :: 0 <= i < |rows| ==> Owes(rows[i].bill) && rows[i] == RowFor(rows[i].bill, today)
    ensures forall i, j :: 0 <= i < j < |rows| ==> rows[i].bill.dueDate <= rows[j].bill.dueDate
  {
    forall i, j | 0 <= i < j < |rows| ensures rows[i].bill.dueDate <= rows[j].bill.dueDate {
      assert Before(rows[i], rows[j]);
      assert rows[i] == RowFor(rows[i].bill, today) && rows[j] == RowFor(rows[j].bill, today);
    }
  }

  function TotalOf(): Bill -> int { (b: Bill) => if IsIssued(b.status) then b.total else 0 }
  function PaidOf(): Bill -> int { (b: Bill) => if IsIssued(b.status) then b.paid else 0 }

  /** On ledger bills, the outstanding total of the aging report is billed minus collected over issued bills. */
  lemma {:induction false} OutstandingIsBilledMinusCollected(bills: seq<Bill>)
    requires forall i :: 0 <= i < |bills| ==> BillOk(bills[i])
    ensures Sum(bills, DueOf()) == Sum(bills, TotalOf()) - Sum(bills, PaidOf())
  {
    if bills != [] {
      var n := |bills| - 1;
      OutstandingIsBilledMinusCollected(bills[..n]);
      IssuedDue(bills[n]);
      hide BillOk;
    }
  }

  lemma IssuedDue(b: Bill)
    requires BillOk(b)
    ensures DueOf()(b) == TotalOf()(b) - PaidOf()(b)
  {
    hide TotalsOk; hide ReadingsOk;
  }

  /** The owner's report, over every run of the ledger: rows in order of due date, one for each open bill, and a
      total equal to everything billed minus everything collected. */
  lemma ReportOfRun(ops: seq<Op>, today: int, report: Report)
    requires var bills := Run(EMPTY, ops).bills;
             && report.outstanding == Sum(bills, DueOf()) && SortedByKey(report.rows)
             && multiset(report.rows) == multiset(RowsFor(bills, today))
    ensures var bills := Run(EMPTY, ops).bills;
            && report.outstanding == Sum(bills, TotalOf()) - Sum(bills, PaidOf())
            && (forall i, j :: 0 <= i < j < |report.rows| ==>
                  report.rows[i].bill.dueDate <= report.rows[j].bill.dueDate)
            && (forall b :: b in bills && IsOpen(b.status) ==> RowFor(b, today) in report.rows)
  {
    hide BillOk; hide Valid; hide Run; hide Sum; hide SortedByKey;
    var bills := Run(EMPTY, ops).bills;
    RunsStayValid(ops);
    forall i | 0 <= i < |bills| ensures BillOk(bills[i]) { BillOfValid(Run(EMPTY, ops), i); }
    OutstandingIsBilledMinusCollected(bills);
    RowsOfReport(bills, today, report);
  }

  lemma RowsOfReport(bills: seq<Bill>, today: int, report: Report)
    requires SortedByKey(report.rows) && multiset(report.rows) == multiset(RowsFor(bills, today))
    requires forall i :: 0 <= i < |bills| ==> BillOk(bills[i])
    ensures forall i, j :: 0 <= i < j < |report.rows| ==> report.rows[i].bill.dueDate <= report.rows[j].bill.dueDate
    ensures forall b :: b in bills && IsOpen(b.status) ==> RowFor(b, today) in report.rows
  {
    hide BillOk; hide SortedByKey; hide Owes; hide RowFor; hide RowsFor;
    RowsAreForOwing(bills, today);
    forall row | row in report.rows ensures Owes(row.bill) && row == RowFor(row.bill, today) {
      assert row in multiset(report.rows);
      assert row in RowsFor(bills, today);
    }
    KeyOrderIsDueOrder(report.rows, today);
    forall b | b in bills && IsOpen(b.status) ensures RowFor(b, today) in report.rows {
      OpenMeansOwing(b);
      assert RowFor(b, today) in multiset(RowsFor(bills, today));
    }
  }

  function Owing(): Bill -> bool { (b: Bill) => IsOpen(b.status) && b.total - b.paid > 0 }

  /** One row for each owing bill, in their order. */
  lemma {:induction false} RowsAreOfOwing(bills: seq<Bill>, today: int)
    ensures |RowsFor(bills, today)| == |Keep(bills, Owing())|
    ensures forall k :: 0 <= k < |RowsFor(bills, today)| ==>
              RowsFor(bills, today)[k] == RowFor(Keep(bills, Owing())[k], today)
  {
    if bills != [] { RowsAreOfOwing(bills[..|bills| - 1], today); }
  }

  lemma {:induction false} RowsAreForOwing(bills: seq<Bill>, today: int)
    ensures forall row :: row in RowsFor(bills, today) ==> Owes(row.bill) && row == RowFor(row.bill, today)
    ensures forall b :: b in bills && Owes(b) ==> RowFor(b, today) in RowsFor(bills, today)
  {
    if bills != [] {
      RowsAreForOwing(bills[..|bills| - 1], today);
      assert bills == bills[..|bills| - 1] + [bills[|bills| - 1]];
    }
  }
}
