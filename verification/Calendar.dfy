/** Calendar dates as far as billing months need them. */
module Calendar {

  datatype Date = Date(year: int, month: int, day: int)

  predicate IsDate(d: Date) { 1 <= d.month <= 12 && 1 <= d.day <= 31 }

  predicate NotAfter(a: Date, b: Date) {
    a.year < b.year || (a.year == b.year && (a.month < b.month || (a.month == b.month && a.day <= b.day)))
  }

  function MonthStart(d: Date): Date { Date(d.year, d.month, 1) }

  /** Months since year 0; the number `shift_month` computes with. */
  function MonthIndex(d: Date): int { d.year * 12 + (d.month - 1) }

  function ShiftMonth(d: Date, months: int): Date {
    var index := d.year * 12 + (d.month - 1) + months;
    Date(index / 12, index % 12 + 1, 1)
  }

  /** Shifting lands on the first of a real month, exactly `months` months away, and shifts compose. */
  lemma ShiftMonthMoves(d: Date, a: int, b: int)
    ensures IsDate(ShiftMonth(d, a)) && ShiftMonth(d, a).day == 1
    ensures MonthIndex(ShiftMonth(d, a)) == MonthIndex(d) + a
    ensures ShiftMonth(ShiftMonth(d, a), b) == ShiftMonth(d, a + b)
  {
  }

  /** Distinct months have distinct first days, in the same order. */
  lemma MonthIndexOrders(a: Date, b: Date)
    requires IsDate(a) && IsDate(b) && a.day == b.day == 1
    ensures NotAfter(a, b) <==> MonthIndex(a) <= MonthIndex(b)
    ensures a == b <==> MonthIndex(a) == MonthIndex(b)
  {
  }
}
