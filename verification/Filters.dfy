/** The bill list filters. They query stored statuses and date ranges; on ledger bills they select exactly
    the bills that the aging rules and the balances describe. */
module Filters {
  import opened Tables
  import opened Calendar
  import opened Ledger
  import opened LedgerInvariant
  import opened Aging

  /** A query parameter naming a row: absent, an id, or text that is no id. */
  datatype IdParam = AnyId | IdIs(id: nat) | BadId
  datatype PeriodParam = AnyPeriod | PeriodIs(start: Date) | BadPeriod

  /** Text parameters are blank when absent. */
  datatype Params = Params(tenant: IdParam, unit: IdParam, resident: IdParam, period: PeriodParam,
                           status: string, paymentStatus: string, overdue: string, aging: string)

  function StatusName(s: BillStatus): string {
    match s
    case Draft => "DRAFT"
    case Published => "PUBLISHED"
    case PartiallyPaid => "PARTIALLY_PAID"
    case Paid => "PAID"
    case Cancelled => "CANCELLED"
  }

  const BILL_STATUSES := {"DRAFT", "PUBLISHED", "PARTIALLY_PAID", "PAID", "CANCELLED"}

  function BucketName(b: Bucket): string {
    match b
    case Current => "CURRENT"
    case Days1To30 => "1_30"
    case Days31To60 => "31_60"
    case Days61To90 => "61_90"
    case Days90Plus => "90_PLUS"
  }

  // ---------- what a parameter means ----------

  predicate IdAllows(p: IdParam, id: nat) { p.AnyId? || (p.IdIs? && p.id == id) }

  /** OVERDUE and UNPAID are derived: a status that is shown, a balance that is owed. */
  predicate StatusAllows(status: string, b: Bill, today: int) {
    if status == "" then true
    else if status == "OVERDUE" then DisplayStatus(b, today).Overdue?
    else if status == "UNPAID" then Owes(b)
    else StatusName(b.status) == status
  }

  /** Payment status is a statement about the balance of an issued bill. */
  predicate PaymentAllows(payment: string, b: Bill) {
    if payment == "" then true
    else if payment == "PAID" then IsIssued(b.status) && b.paid == b.total
    else if payment == "PARTIALLY_PAID" then IsIssued(b.status) && 0 < b.paid < b.total
    else if payment == "UNPAID" then IsIssued(b.status) && b.paid == 0 < b.total
    else false
  }

  predicate OverdueAllows(overdue: string, b: Bill, today: int) {
    if overdue == "1" || overdue == "true" then OverdueDays(b, today) > 0
    else if overdue == "0" || overdue == "false" then OverdueDays(b, today) == 0
    else true
  }

  predicate AgingAllows(aging: string, b: Bill, today: int) {
    aging == "" || (Owes(b) && BucketName(BucketOf(b, today)) == aging)
  }

  predicate Allows(p: Params, b: Bill, today: int) {
    && IdAllows(p.tenant, b.tenant) && IdAllows(p.unit, b.slot.unit) && IdAllows(p.resident, b.slot.resident)
    && (p.period.AnyPeriod? || (p.period.PeriodIs? && p.period.start == b.slot.periodStart))
    && StatusAllows(p.status, b, today) && PaymentAllows(p.paymentStatus, b)
    && OverdueAllows(p.overdue, b, today) && AgingAllows(p.aging, b, today)
  }

  function Selected(p: Params, today: int): Bill -> bool { (b: Bill) => Allows(p, b, today) }

  // ---------- what the query says ----------

  function OpenDue(low: Option<int>, high: Option<int>): Bill -> bool {
    (b: Bill) => IsOpen(b.status) && (low.Some? ==> b.dueDate >= low.value) && (high.Some? ==> b.dueDate <= high.value)
  }
  function HasStatus(name: string): Bill -> bool { (b: Bill) => StatusName(b.status) == name }
  function NotOpenDue(high: int): Bill -> bool { (b: Bill) => !(IsOpen(b.status) && b.dueDate <= high) }
  /** A blank parameter is no condition, text that is no id matches nothing. */
  predicate Chosen(p: IdParam, id: nat) {
    match p
    case AnyId => true
    case IdIs(x) => x == id
    case BadId => false
  }
  function ByTenant(p: IdParam): Bill -> bool { (b: Bill) => Chosen(p, b.tenant) }
  function ByUnit(p: IdParam): Bill -> bool { (b: Bill) => Chosen(p, b.slot.unit) }
  function ByResident(p: IdParam): Bill -> bool { (b: Bill) => Chosen(p, b.slot.resident) }
  function InPeriod(start: Date): Bill -> bool { (b: Bill) => b.slot.periodStart == start }
  function Nothing(): Bill -> bool { (b: Bill) => false }

  /** The due-date range of a bucket, in days overdue: AGING_RANGES. */
  function AgingRange(aging: string): Option<(int, Option<int>)> {
    if aging == "1_30" then Some((1, Some(30)))
    else if aging == "31_60" then Some((31, Some(60)))
    else if aging == "61_90" then Some((61, Some(90)))
    else if aging == "90_PLUS" then Some((91, None))
    else None
  }

  // ---------- both agree on ledger bills ----------

  lemma StatusesOfLedger(b: Bill)
    requires BillOk(b)
    ensures Owes(b) <==> IsOpen(b.status)
    ensures b.status.Paid? <==> IsIssued(b.status) && b.paid == b.total
    ensures b.status.PartiallyPaid? <==> IsIssued(b.status) && 0 < b.paid < b.total
    ensures b.status.Published? <==> IsIssued(b.status) && b.paid == 0 < b.total
  {
    hide TotalsOk; hide ReadingsOk;
  }

  /** Each date range is the bucket of the same name. */
  lemma RangeIsBucket(b: Bill, aging: string, today: int)
    requires BillOk(b) && AgingRange(aging).Some?
    ensures var (low, high) := AgingRange(aging).value;
            AgingAllows(aging, b, today)
            <==> IsOpen(b.status) && b.dueDate <= today - low && (high.Some? ==> b.dueDate >= today - high.value)
  {
    StatusesOfLedger(b);
    hide BillOk;
  }

  /** The five aging filters partition the open bills. */
  lemma BucketsPartition(b: Bill, today: int)
    requires BillOk(b)
    ensures IsOpen(b.status) <==> exists bucket :: AgingAllows(BucketName(bucket), b, today)
    ensures forall x, y :: AgingAllows(BucketName(x), b, today) && AgingAllows(BucketName(y), b, today) ==> x == y
  {
    StatusesOfLedger(b);
    hide BillOk; hide BucketForDays;
    if IsOpen(b.status) { assert AgingAllows(BucketName(BucketOf(b, today)), b, today); }
    forall x, y | AgingAllows(BucketName(x), b, today) && AgingAllows(BucketName(y), b, today) ensures x == y {
      NamesDiffer(x, y);
    }
  }

  lemma NamesDiffer(x: Bucket, y: Bucket)
    ensures BucketName(x) == BucketName(y) <==> x == y
    ensures BucketName(x) != ""
  {
    assert "CURRENT"[0] == 'C' && "1_30"[0] == '1' && "31_60"[0] == '3' && "61_90"[0] == '6' && "90_PLUS"[0] == '9';
  }

  // ---------- the query is narrowed step by step ----------

  lemma {:induction false} KeepKeep<T(!new)>(rows: seq<T>, p: T -> bool, q: T -> bool, r: T -> bool)
    requires forall x :: x in rows ==> (r(x) <==> p(x) && q(x))
    ensures Keep(Keep(rows, p), q) == Keep(rows, r)
  {
    if rows != [] {
      var init, last := rows[..|rows| - 1], rows[|rows| - 1];
      KeepKeep(init, p, q, r);
      if p(last) {
        var kept := Keep(init, p);
        assert (kept + [last])[..|kept|] == kept;
      }
    }
  }

  lemma {:induction false} KeepSame<T(!new)>(rows: seq<T>, p: T -> bool, q: T -> bool)
    requires forall x :: x in rows ==> (p(x) <==> q(x))
    ensures Keep(rows, p) == Keep(rows, q)
  {
    if rows != [] { KeepSame(rows[..|rows| - 1], p, q); }
  }

  function StatusPicks(status: string, today: int): Bill -> bool { (b: Bill) => StatusAllows(status, b, today) }
  function PaymentPicks(payment: string): Bill -> bool { (b: Bill) => PaymentAllows(payment, b) }
  function OverduePicks(overdue: string, today: int): Bill -> bool { (b: Bill) => OverdueAllows(overdue, b, today) }
  function AgingPicks(aging: string, today: int): Bill -> bool { (b: Bill) => AgingAllows(aging, b, today) }

  ghost predicate FromLedger(bills: seq<Bill>) { forall b :: b in bills ==> BillOk(b) }

  lemma {:induction false} KeepAll<T(!new)>(rows: seq<T>, p: T -> bool)
    requires forall x :: x in rows ==> p(x)
    ensures Keep(rows, p) == rows
  {
    if rows != [] {
      KeepAll(rows[..|rows| - 1], p);
      assert rows == rows[..|rows| - 1] + [rows[|rows| - 1]];
    }
  }

  method FilterByStatus(bills: seq<Bill>, status: string, today: int) returns (qs: seq<Bill>)
    requires FromLedger(bills)
    ensures qs == Keep(bills, StatusPicks(status, today))
  {
    forall b | b in bills ensures Owes(b) <==> IsOpen(b.status) { StatusesOfLedger(b); }
    hide BillOk;
    qs := bills;
    if status == "OVERDUE" {
      qs := Keep(qs, OpenDue(None, Some(today - 1)));
      KeepSame(bills, OpenDue(None, Some(today - 1)), StatusPicks(status, today));
    } else if status == "UNPAID" {
      qs := Keep(qs, OpenDue(None, None));
      KeepSame(bills, OpenDue(None, None), StatusPicks(status, today));
    } else if status in BILL_STATUSES {
      qs := Keep(qs, HasStatus(status));
      KeepSame(bills, HasStatus(status), StatusPicks(status, today));
    } else if status != "" {
      qs := Keep(qs, Nothing());
      forall b | b in bills ensures StatusName(b.status) != status { StatusHasName(b.status); }
      KeepSame(bills, Nothing(), StatusPicks(status, today));
    } else {
      KeepAll(bills, StatusPicks(status, today));
    }
  }

  lemma StatusHasName(s: BillStatus)
    ensures StatusName(s) in BILL_STATUSES
  {
  }

  method FilterByPayment(bills: seq<Bill>, payment: string) returns (qs: seq<Bill>)
    requires FromLedger(bills)
    ensures qs == Keep(bills, PaymentPicks(payment))
  {
    forall b | b in bills
      ensures b.status.Paid? <==> IsIssued(b.status) && b.paid == b.total
      ensures b.status.PartiallyPaid? <==> IsIssued(b.status) && 0 < b.paid < b.total
      ensures b.status.Published? <==> IsIssued(b.status) && b.paid == 0 < b.total
    {
      StatusesOfLedger(b);
    }
    hide BillOk; hide IsIssued;
    qs := bills;
    if payment == "PAID" {
      qs := Keep(qs, HasStatus("PAID"));
      NamedStatuses();
      KeepSame(bills, HasStatus("PAID"), PaymentPicks(payment));
    } else if payment == "PARTIALLY_PAID" {
      qs := Keep(qs, HasStatus("PARTIALLY_PAID"));
      NamedStatuses();
      KeepSame(bills, HasStatus("PARTIALLY_PAID"), PaymentPicks(payment));
    } else if payment == "UNPAID" {
      qs := Keep(qs, HasStatus("PUBLISHED"));
      NamedStatuses();
      KeepSame(bills, HasStatus("PUBLISHED"), PaymentPicks(payment));
    } else if payment != "" {
      qs := Keep(qs, Nothing());
      KeepSame(bills, Nothing(), PaymentPicks(payment));
    } else {
      KeepAll(bills, PaymentPicks(payment));
    }
  }

  lemma NamedStatuses()
    ensures forall s: BillStatus :: (StatusName(s) == "PAID" <==> s.Paid?)
                                    && (StatusName(s) == "PARTIALLY_PAID" <==> s.PartiallyPaid?)
                                    && (StatusName(s) == "PUBLISHED" <==> s.Published?)
                                    && (StatusName(s) == "DRAFT" <==> s.Draft?)
                                    && (StatusName(s) == "CANCELLED" <==> s.Cancelled?)
  {
    assert |"DRAFT"| == 5 && |"PUBLISHED"| == 9 && |"PARTIALLY_PAID"| == 14 && |"PAID"| == 4 && |"CANCELLED"| == 9;
    assert "PUBLISHED"[0] == 'P' && "CANCELLED"[0] == 'C';
  }

  method FilterByOverdue(bills: seq<Bill>, overdue: string, today: int) returns (qs: seq<Bill>)
    requires FromLedger(bills)
    ensures qs == Keep(bills, OverduePicks(overdue, today))
  {
    forall b | b in bills ensures Owes(b) <==> IsOpen(b.status) { StatusesOfLedger(b); }
    hide BillOk;
    qs := bills;
    if overdue == "1" || overdue == "true" {
      qs := Keep(qs, OpenDue(None, Some(today - 1)));
      KeepSame(bills, OpenDue(None, Some(today - 1)), OverduePicks(overdue, today));
    } else if overdue == "0" || overdue == "false" {
      qs := Keep(qs, NotOpenDue(today - 1));
      KeepSame(bills, NotOpenDue(today - 1), OverduePicks(overdue, today));
    } else {
      KeepAll(bills, OverduePicks(overdue, today));
    }
  }

  function NotAfterDue(high: int): Bill -> bool { (b: Bill) => IsOpen(b.status) && b.dueDate <= high }
  function DueFrom(low: int): Bill -> bool { (b: Bill) => b.dueDate >= low }

  method FilterByAging(bills: seq<Bill>, aging: string, today: int) returns (qs: seq<Bill>)
    requires FromLedger(bills)
    ensures qs == Keep(bills, AgingPicks(aging, today))
  {
    qs := bills;
    if aging == "CURRENT" {
      qs := Keep(qs, OpenDue(Some(today), None));
      forall b | b in bills ensures OpenDue(Some(today), None)(b) <==> AgingPicks(aging, today)(b) {
        CurrentIsBucket(b, today);
      }
      KeepSame(bills, OpenDue(Some(today), None), AgingPicks(aging, today));
    } else if AgingRange(aging).Some? {
      var (low, high) := AgingRange(aging).value;
      qs := Keep(qs, NotAfterDue(today - low));
      forall b | b in bills
        ensures AgingPicks(aging, today)(b)
            <==> NotAfterDue(today - low)(b) && (high.Some? ==> DueFrom(today - high.value)(b))
      {
        RangeIsBucket(b, aging, today);
      }
      hide BillOk; hide AgingAllows;
      if high.Some? {
        qs := Keep(qs, DueFrom(today - high.value));
        KeepKeep(bills, NotAfterDue(today - low), DueFrom(today - high.value), AgingPicks(aging, today));
      } else {
        KeepSame(bills, NotAfterDue(today - low), AgingPicks(aging, today));
      }
    } else if aging != "" {
      qs := Keep(qs, Nothing());
      forall b | b in bills ensures !AgingPicks(aging, today)(b) { NoSuchBucket(b, aging, today); }
      KeepSame(bills, Nothing(), AgingPicks(aging, today));
    } else {
      KeepAll(bills, AgingPicks(aging, today));
    }
  }

  lemma CurrentIsBucket(b: Bill, today: int)
    requires BillOk(b)
    ensures AgingAllows("CURRENT", b, today) <==> IsOpen(b.status) && b.dueDate >= today
  {
    StatusesOfLedger(b);
    NamesDiffer(BucketOf(b, today), Current);
    hide BillOk;
  }

  lemma NoSuchBucket(b: Bill, aging: string, today: int)
    requires aging != "" && aging != "CURRENT" && AgingRange(aging).None?
    ensures !AgingAllows(aging, b, today)
  {
  }

  lemma Narrowed(bills: seq<Bill>, p: Bill -> bool)
    requires FromLedger(bills)
    ensures FromLedger(Keep(bills, p))
  {
    hide BillOk;
  }

  /** `filter_bills`: what remains, in order, is exactly what the parameters mean together. */
  method FilterBills(bills: seq<Bill>, p: Params, today: int) returns (qs: seq<Bill>)
    requires FromLedger(bills)
    ensures qs == Keep(bills, Selected(p, today))
  {
    hide BillOk; hide Keep; hide StatusAllows; hide PaymentAllows; hide OverdueAllows; hide AgingAllows;
    hide FromLedger;
    qs := FilterByIds(bills, p);
    Narrowed(bills, Placed(p));
    var before := qs;
    qs := FilterByStatus(before, p.status, today);
    Narrowed(before, StatusPicks(p.status, today));
    before := qs;
    qs := FilterByPayment(before, p.paymentStatus);
    Narrowed(before, PaymentPicks(p.paymentStatus));
    before := qs;
    qs := FilterByOverdue(before, p.overdue, today);
    Narrowed(before, OverduePicks(p.overdue, today));
    before := qs;
    qs := FilterByAging(before, p.aging, today);
    AllTogether(bills, p, today);
  }

  function Placed(p: Params): Bill -> bool {
    (b: Bill) =>
      && IdAllows(p.tenant, b.tenant) && IdAllows(p.unit, b.slot.unit) && IdAllows(p.resident, b.slot.resident)
      && (p.period.AnyPeriod? || (p.period.PeriodIs? && p.period.start == b.slot.periodStart))
  }

  function Both(p: Bill -> bool, q: Bill -> bool): Bill -> bool { (b: Bill) => p(b) && q(b) }

  method FilterByIds(bills: seq<Bill>, p: Params) returns (qs: seq<Bill>)
    ensures qs == Keep(bills, Placed(p))
  {
    hide Keep;
    qs := Keep(bills, ByTenant(p.tenant));
    qs := Keep(qs, ByUnit(p.unit));
    qs := Keep(qs, ByResident(p.resident));
    var two := Both(ByTenant(p.tenant), ByUnit(p.unit));
    var three := Both(two, ByResident(p.resident));
    KeepKeep(bills, ByTenant(p.tenant), ByUnit(p.unit), two);
    KeepKeep(bills, two, ByResident(p.resident), three);
    match p.period {
      case AnyPeriod => KeepSame(bills, three, Placed(p));
      case PeriodIs(start) =>
        qs := Keep(qs, InPeriod(start));
        KeepKeep(bills, three, InPeriod(start), Placed(p));
      case BadPeriod =>
        qs := Keep(qs, Nothing());
        KeepKeep(bills, three, Nothing(), Placed(p));
    }
  }

  lemma AllTogether(bills: seq<Bill>, p: Params, today: int)
    ensures Keep(Keep(Keep(Keep(Keep(bills, Placed(p)), StatusPicks(p.status, today)), PaymentPicks(p.paymentStatus)),
                      OverduePicks(p.overdue, today)), AgingPicks(p.aging, today)) == Keep(bills, Selected(p, today))
  {
    hide Keep; hide StatusAllows; hide PaymentAllows; hide OverdueAllows; hide AgingAllows;
    var a := Both(Placed(p), StatusPicks(p.status, today));
    var b := Both(a, PaymentPicks(p.paymentStatus));
    var c := Both(b, OverduePicks(p.overdue, today));
    KeepKeep(bills, Placed(p), StatusPicks(p.status, today), a);
    KeepKeep(bills, a, PaymentPicks(p.paymentStatus), b);
    KeepKeep(bills, b, OverduePicks(p.overdue, today), c);
    KeepKeep(bills, c, AgingPicks(p.aging, today), Selected(p, today));
  }

  /** The list an aging filter shows adds up to the report's bucket of the same name. */
  lemma BucketTotalIsFilteredSum(bills: seq<Bill>, bucket: Bucket, today: int)
    requires FromLedger(bills)
    ensures Sum(Keep(bills, AgingPicks(BucketName(bucket), today)), DueOf()) == Sum(bills, DueIn(bucket, today))
    ensures |Keep(bills, AgingPicks(BucketName(bucket), today))| == Sum(bills, CountIn(bucket, today))
  {
    hide BillOk; hide BucketForDays; hide OverdueDays;
    NamesDiffer(bucket, bucket);
    forall b | b in bills
      ensures AgingPicks(BucketName(bucket), today)(b) <==> Owes(b) && BucketOf(b, today) == bucket
    {
      NamesDiffer(BucketOf(b, today), bucket);
    }
    KeepSum(bills, AgingPicks(BucketName(bucket), today), DueOf(), DueIn(bucket, today));
    KeepSum(bills, AgingPicks(BucketName(bucket), today), One(), CountIn(bucket, today));
    SumOfOnes(Keep(bills, AgingPicks(BucketName(bucket), today)));
  }

  function One(): Bill -> int { (b: Bill) => 1 }

  lemma {:induction false} SumOfOnes(bills: seq<Bill>)
    ensures Sum(bills, One()) == |bills|
  {
    if bills != [] { SumOfOnes(bills[..|bills| - 1]); }
  }
}
