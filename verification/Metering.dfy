/** One meter's readings: recording, correcting, and choosing the pair that bills a period.
    Dates are day ordinals, values are thousandths of a unit. */
module Metering {
  import opened Tables
  import opened Charges
  import opened Decimals

  datatype Reading = Reading(date: int, value: int)

  datatype Refusal =
    | MeterInactive | ReadingNegative | ReadingInFuture
    | BelowPrevious | AboveNext | DuplicateReading | CorrectionUnchanged | NotFound

  /** `.filter(p).order_by("-reading_date").first()` */
  function Latest(rows: seq<Reading>, p: Reading -> bool): (r: Option<nat>)
    ensures r.Some? ==> r.value < |rows| && p(rows[r.value])
    ensures r.Some? ==> forall j :: 0 <= j < |rows| && p(rows[j]) ==> rows[j].date <= rows[r.value].date
    ensures r.None? ==> forall j :: 0 <= j < |rows| ==> !p(rows[j])
  {
    if rows == [] then None
    else
      var n := |rows| - 1;
      var best := Latest(rows[..n], p);
      if p(rows[n]) && (best.None? || rows[best.value].date < rows[n].date) then Some(n) else best
  }

  /** `.filter(p).order_by("reading_date").first()` */
  function Earliest(rows: seq<Reading>, p: Reading -> bool): (r: Option<nat>)
    ensures r.Some? ==> r.value < |rows| && p(rows[r.value])
    ensures r.Some? ==> forall j :: 0 <= j < |rows| && p(rows[j]) ==> rows[r.value].date <= rows[j].date
    ensures r.None? ==> forall j :: 0 <= j < |rows| ==> !p(rows[j])
  {
    if rows == [] then None
    else
      var n := |rows| - 1;
      var best := Earliest(rows[..n], p);
      if p(rows[n]) && (best.None? || rows[n].date < rows[best.value].date) then Some(n) else best
  }

  function Before(d: int): Reading -> bool { (r: Reading) => r.date < d }
  function After(d: int): Reading -> bool { (r: Reading) => r.date > d }
  function Within(lo: int, hi: int): Reading -> bool { (r: Reading) => lo <= r.date <= hi }

  /** `_check_chronology`: only the two neighbouring dates are looked at. */
  function Chronology(rows: seq<Reading>, date: int, value: int): Option<Refusal> {
    var previous, following := Latest(rows, Before(date)), Earliest(rows, After(date));
    if previous.Some? && value < rows[previous.value].value then Some(BelowPrevious)
    else if following.Some? && value > rows[following.value].value then Some(AboveNext)
    else None
  }

  function OnDay(d: int): Reading -> bool { (r: Reading) => r.date == d }

  function Record(rows: seq<Reading>, active: bool, today: int, date: int, value: int): (seq<Reading>,
      Option<Refusal>) {
    if !active then (rows, Some(MeterInactive))
    else if value < 0 then (rows, Some(ReadingNegative))
    else if date > today then (rows, Some(ReadingInFuture))
    else
      match Chronology(rows, date, value)
      case Some(refusal) => (rows, Some(refusal))
      case None =>
        if Find(rows, OnDay(date)).Some? then (rows, Some(DuplicateReading))
        else (rows + [Reading(date, value)], None)
  }

  /** The row under correction is excluded from its own neighbour check. */
  function Others(rows: seq<Reading>, i: nat): seq<Reading>
    requires i < |rows|
  {
    rows[..i] + rows[i + 1..]
  }

  function Correct(rows: seq<Reading>, i: nat, value: int): (seq<Reading>, Option<Refusal>) {
    if value < 0 then (rows, Some(ReadingNegative))
    else if i >= |rows| then (rows, Some(NotFound))
    else if value == rows[i].value then (rows, Some(CorrectionUnchanged))
    else
      match Chronology(Others(rows, i), rows[i].date, value)
      case Some(refusal) => (rows, Some(refusal))
      case None => (rows[i := Reading(rows[i].date, value)], None)
  }

  /** The global property the neighbour check is meant to protect. */
  ghost predicate Chronological(rows: seq<Reading>) {
    && (forall i :: 0 <= i < |rows| ==> rows[i].value >= 0)
    && (forall i, j :: 0 <= i < |rows| && 0 <= j < |rows| && i != j ==> rows[i].date != rows[j].date)
    && (forall i, j :: 0 <= i < |rows| && 0 <= j < |rows| && rows[i].date < rows[j].date ==>
          rows[i].value <= rows[j].value)
  }

  /** On a chronological table the two-neighbour check accepts a value exactly when it fits between
      every pair of rows, however far away. */
  lemma NeighboursSuffice(rows: seq<Reading>, date: int, value: int)
    requires Chronological(rows)
    ensures Chronology(rows, date, value).None? <==>
              forall j :: 0 <= j < |rows| ==>
                (rows[j].date < date ==> rows[j].value <= value) && (rows[j].date > date ==> value <= rows[j].value)
  {
    var previous, following := Latest(rows, Before(date)), Earliest(rows, After(date));
    if Chronology(rows, date, value).None? {
      forall j | 0 <= j < |rows|
        ensures (rows[j].date < date ==> rows[j].value <= value) && (rows[j].date > date ==> value <= rows[j].value)
      {
        if rows[j].date < date { assert Before(date)(rows[j]); assert rows[j].date <= rows[previous.value].date; }
        if rows[j].date > date { assert After(date)(rows[j]); assert rows[following.value].date <= rows[j].date; }
      }
    }
  }

  /** A refusal names the side on which the value does not fit; the earlier readings are looked at first. */
  lemma ChronologyExactly(rows: seq<Reading>, date: int, value: int)
    requires Chronological(rows)
    ensures Chronology(rows, date, value) ==
              if exists j :: 0 <= j < |rows| && rows[j].date < date && rows[j].value > value then Some(BelowPrevious)
              else if exists j :: 0 <= j < |rows| && rows[j].date > date && rows[j].value < value then Some(AboveNext)
              else None
  {
    hide Latest; hide Earliest;
    NeighboursSuffice(rows, date, value);
    var previous := Latest(rows, Before(date));
    forall j | 0 <= j < |rows| && rows[j].date < date
      ensures previous.Some? && rows[j].value <= rows[previous.value].value
    {
      assert Before(date)(rows[j]);
    }
    if previous.Some? { assert Before(date)(rows[previous.value]); }
    var following := Earliest(rows, After(date));
    if following.Some? { assert After(date)(rows[following.value]); }
  }

  /** What recording must leave and answer. */
  ghost predicate RecordedAs(rows: seq<Reading>, active: bool, today: int, date: int, value: int,
                             rows': seq<Reading>, refusal: Option<Refusal>) {
    && rows' == (if refusal.None? then rows + [Reading(date, value)] else rows)
    && refusal ==
         if !active then Some(MeterInactive)
         else if value < 0 then Some(ReadingNegative)
         else if date > today then Some(ReadingInFuture)
         else if exists j :: 0 <= j < |rows| && rows[j].date < date && rows[j].value > value then Some(BelowPrevious)
         else if exists j :: 0 <= j < |rows| && rows[j].date > date && rows[j].value < value then Some(AboveNext)
         else if exists j :: 0 <= j < |rows| && rows[j].date == date then Some(DuplicateReading)
         else None
  }

  lemma RecordExactly(rows: seq<Reading>, active: bool, today: int, date: int, value: int)
    requires Chronological(rows)
    ensures var r := Record(rows, active, today, date, value);
            RecordedAs(rows, active, today, date, value, r.0, r.1)
  {
    hide Chronology; hide Chronological; hide Find;
    ChronologyExactly(rows, date, value);
    DayIsTaken(rows, date);
  }

  lemma DayIsTaken(rows: seq<Reading>, date: int)
    ensures Find(rows, OnDay(date)).Some? <==> exists j :: 0 <= j < |rows| && rows[j].date == date
  {
    var found := Find(rows, OnDay(date));
    if found.Some? { assert OnDay(date)(rows[found.value]); }
    if found.None? { assert forall j :: 0 <= j < |rows| ==> !OnDay(date)(rows[j]); }
    hide Find;
  }

  /** `record` succeeds if and only if the meter is active, the date is not in the future, and the
      table with the new row would still be chronological. */
  lemma RecordExactlyKeepsOrder(rows: seq<Reading>, active: bool, today: int, date: int, value: int)
    requires Chronological(rows)
    ensures Chronological(Record(rows, active, today, date, value).0)
    ensures Record(rows, active, today, date, value).1.None? <==>
              active && date <= today && Chronological(rows + [Reading(date, value)])
  {
    hide Latest; hide Earliest; hide Chronology;
    NeighboursSuffice(rows, date, value);
    var rows' := rows + [Reading(date, value)];
    if active && value >= 0 && date <= today {
      if Chronological(rows') {
        forall j | 0 <= j < |rows|
          ensures rows[j].date != date
          ensures (rows[j].date < date ==> rows[j].value <= value) && (rows[j].date > date ==> value <= rows[j].value)
        {
          assert rows'[j] == rows[j] && rows'[|rows|] == Reading(date, value);
        }
      }
      if Chronology(rows, date, value).None? && Find(rows, OnDay(date)).None? {
        assert forall j :: 0 <= j < |rows| ==> !OnDay(date)(rows[j]);
        assert Chronological(rows');
      }
    } else if value < 0 {
      assert rows'[|rows|].value < 0;
    }
  }

  lemma OthersChronological(rows: seq<Reading>, i: nat)
    requires Chronological(rows) && i < |rows|
    ensures Chronological(Others(rows, i))
    ensures forall j :: 0 <= j < |Others(rows, i)| ==> Others(rows, i)[j] == rows[if j < i then j else j + 1]
  {
  }

  lemma CorrectExactlyKeepsOrder(rows: seq<Reading>, i: nat, value: int)
    requires Chronological(rows)
    ensures Chronological(Correct(rows, i, value).0)
    ensures Correct(rows, i, value).1.None? <==>
              i < |rows| && value != rows[i].value && Chronological(rows[i := Reading(rows[i].date, value)])
  {
    hide Latest; hide Earliest; hide Chronology;
    if i < |rows| {
      var others, rows' := Others(rows, i), rows[i := Reading(rows[i].date, value)];
      OthersChronological(rows, i);
      NeighboursSuffice(others, rows[i].date, value);
      if Chronological(rows') {
        forall j | 0 <= j < |others|
          ensures others[j].date < rows[i].date ==> others[j].value <= value
          ensures others[j].date > rows[i].date ==> value <= others[j].value
        {
          var k := if j < i then j else j + 1;
          assert rows'[k] == others[j] && rows'[i].value == value;
        }
        assert rows'[i].value == value;
      }
      if value >= 0 && Chronology(others, rows[i].date, value).None? {
        forall k | 0 <= k < |rows| && k != i
          ensures (rows[k].date < rows[i].date ==> rows[k].value <= value)
          ensures (rows[k].date > rows[i].date ==> value <= rows[k].value)
        {
          assert others[if k < i then k else k - 1] == rows[k];
        }
        assert Chronological(rows');
      }
    }
  }

  /** What correcting must leave and answer: the value alone changes, and only to one that fits its neighbours. */
  ghost predicate CorrectedAs(rows: seq<Reading>, i: nat, value: int, rows': seq<Reading>, refusal: Option<Refusal>) {
    if value < 0 then rows' == rows && refusal == Some(ReadingNegative)
    else if i >= |rows| then rows' == rows && refusal == Some(NotFound)
    else
      && rows' == (if refusal.None? then rows[i := Reading(rows[i].date, value)] else rows)
      && refusal ==
           if value == rows[i].value then Some(CorrectionUnchanged)
           else if exists j :: 0 <= j < |rows| && rows[j].date < rows[i].date && rows[j].value > value
             then Some(BelowPrevious)
           else if exists j :: 0 <= j < |rows| && rows[j].date > rows[i].date && rows[j].value < value
             then Some(AboveNext)
           else None
  }

  lemma CorrectExactly(rows: seq<Reading>, i: nat, value: int)
    requires Chronological(rows)
    ensures CorrectedAs(rows, i, value, Correct(rows, i, value).0, Correct(rows, i, value).1)
  {
    hide Chronology; hide Chronological;
    if i < |rows| {
      OthersChronological(rows, i);
      ChronologyExactly(Others(rows, i), rows[i].date, value);
      SameNeighbours(rows, i);
    }
  }

  /** Leaving a row out loses no reading of another day. */
  lemma SameNeighbours(rows: seq<Reading>, i: nat)
    requires i < |rows|
    ensures forall x :: x in Others(rows, i) ==> x in rows
    ensures forall j :: 0 <= j < |rows| && rows[j].date != rows[i].date ==> rows[j] in Others(rows, i)
    ensures forall j :: 0 <= j < |Others(rows, i)| ==> Others(rows, i)[j] in rows
  {
    forall j | 0 <= j < |rows| && rows[j].date != rows[i].date ensures rows[j] in Others(rows, i) {
      assert Others(rows, i)[if j < i then j else j - 1] == rows[j];
    }
  }

  // ---------- runs ----------

  datatype Op = RecordOp(active: bool, today: int, date: int, value: int) | CorrectOp(i: nat, value: int)

  function Run(rows: seq<Reading>, ops: seq<Op>): seq<Reading> {
    if ops == [] then rows
    else
      var r := Run(rows, ops[..|ops| - 1]);
      match ops[|ops| - 1]
      case RecordOp(active, today, date, value) => Record(r, active, today, date, value).0
      case CorrectOp(i, value) => Correct(r, i, value).0
  }

  lemma {:induction false} RunsStayChronological(ops: seq<Op>)
    ensures Chronological(Run([], ops))
  {
    if ops != [] {
      var rows := Run([], ops[..|ops| - 1]);
      RunsStayChronological(ops[..|ops| - 1]);
      match ops[|ops| - 1]
      case RecordOp(active, today, date, value) => RecordExactlyKeepsOrder(rows, active, today, date, value);
      case CorrectOp(i, value) => CorrectExactlyKeepsOrder(rows, i, value);
    }
  }

  ghost predicate SteppedAs(rows: seq<Reading>, op: Op, rows': seq<Reading>) {
    match op
    case RecordOp(active, today, date, value) =>
      exists refusal :: RecordedAs(rows, active, today, date, value, rows', refusal)
    case CorrectOp(i, value) => exists refusal :: CorrectedAs(rows, i, value, rows', refusal)
  }

  /** Whatever was recorded and corrected before, the next step does what its rule says. */
  lemma RunExactly(ops: seq<Op>, op: Op)
    ensures SteppedAs(Run([], ops), op, Run([], ops + [op]))
  {
    hide Record; hide Correct; hide RecordedAs; hide CorrectedAs; hide Chronological;
    RunsStayChronological(ops);
    assert (ops + [op])[..|ops|] == ops;
    var rows, rows' := Run([], ops), Run([], ops + [op]);
    match op
    case RecordOp(active, today, date, value) =>
      RecordExactly(rows, active, today, date, value);
      assert RecordedAs(rows, active, today, date, value, rows', Record(rows, active, today, date, value).1);
    case CorrectOp(i, value) =>
      CorrectExactly(rows, i, value);
      assert CorrectedAs(rows, i, value, rows', Correct(rows, i, value).1);
  }

  // ---------- the pair of readings that bills a period ----------

  datatype Usage =
    | Billable(opening: nat, closing: nat, units: nat)
    | MissingReading | MissingOpeningReading | NegativeConsumption

  function ElectricityForPeriod(rows: seq<Reading>, multiplier: nat, start: int, end: int): (u: Usage)
    ensures u.Billable? ==> u.opening < |rows| && u.closing < |rows|
  {
    match Latest(rows, Within(start, end))
    case None => MissingReading
    case Some(closing) =>
      var earlier := Latest(rows, Before(start));
      var opening := if earlier.Some? then earlier else Earliest(rows, Within(start, rows[closing].date - 1));
      if opening.None? then MissingOpeningReading
      else
        match BilledUnits(rows[opening.value].value, rows[closing].value, multiplier)
        case None => NegativeConsumption
        case Some(units) => Billable(opening.value, closing, units)
  }

  /** NEGATIVE_CONSUMPTION cannot be reported for any table the service can produce. */
  lemma NegativeConsumptionUnreachable(ops: seq<Op>, multiplier: nat, start: int, end: int)
    ensures !ElectricityForPeriod(Run([], ops), multiplier, start, end).NegativeConsumption?
  {
    RunsStayChronological(ops);
  }

  /** The pair of readings that bills a period: it closes on the period's newest reading and opens on the newest one
      before the period, or, for a meter without one, on the period's earliest before the closing. */
  ghost predicate Bills(rows: seq<Reading>, start: int, end: int, opening: nat, closing: nat) {
    && closing < |rows| && start <= rows[closing].date <= end
    && (forall j :: 0 <= j < |rows| && start <= rows[j].date <= end ==> rows[j].date <= rows[closing].date)
    && opening < |rows| && rows[opening].date < rows[closing].date
    && (forall j :: 0 <= j < |rows| && rows[j].date < start ==> rows[j].date <= rows[opening].date < start)
    && (rows[opening].date >= start ==>
          forall j :: 0 <= j < |rows| ==> rows[opening].date <= rows[j].date)
  }

  /** The reading selection rule: exactly that pair is billed, its units are the consumption times the multiplier,
      and a missing pair is reported by what is missing. */
  lemma UsageExactly(rows: seq<Reading>, multiplier: nat, start: int, end: int)
    requires Chronological(rows) && start <= end
    ensures var u := ElectricityForPeriod(rows, multiplier, start, end);
            && (u.MissingReading? <==> forall j :: 0 <= j < |rows| ==> !(start <= rows[j].date <= end))
            && (u.MissingOpeningReading? <==>
                  && (exists j :: 0 <= j < |rows| && start <= rows[j].date <= end)
                  && (forall i, j :: 0 <= i < |rows| && 0 <= j < |rows| && start <= rows[j].date <= end ==>
                        rows[i].date >= rows[j].date))
            && !u.NegativeConsumption?
            && (u.Billable? ==>
                  && Bills(rows, start, end, u.opening, u.closing)
                  && Some(u.units) == BilledUnits(rows[u.opening].value, rows[u.closing].value, multiplier))
  {
    hide Latest; hide Earliest; hide BilledUnits; hide Chronological;
    BilledUnitsExist(rows, multiplier);
    var u, closing := ElectricityForPeriod(rows, multiplier, start, end), Latest(rows, Within(start, end));
    if closing.None? {
      forall j | 0 <= j < |rows| ensures !(start <= rows[j].date <= end) { assert !Within(start, end)(rows[j]); }
    } else {
      assert Within(start, end)(rows[closing.value]);
      forall j | 0 <= j < |rows| && start <= rows[j].date <= end ensures rows[j].date <= rows[closing.value].date {
        assert Within(start, end)(rows[j]);
      }
      OpeningExactly(rows, start, rows[closing.value].date);
    }
  }

  lemma BilledUnitsExist(rows: seq<Reading>, multiplier: nat)
    requires Chronological(rows)
    ensures forall o, c :: 0 <= o < |rows| && 0 <= c < |rows| && rows[o].date < rows[c].date ==>
              BilledUnits(rows[o].value, rows[c].value, multiplier).Some?
  {
    hide HalfUp; hide Context;
  }

  lemma OpeningExactly(rows: seq<Reading>, start: int, closing: int)
    requires start <= closing
    ensures var earlier, first := Latest(rows, Before(start)), Earliest(rows, Within(start, closing - 1));
            var opening := if earlier.Some? then earlier else first;
            if opening.None? then forall i :: 0 <= i < |rows| ==> rows[i].date >= closing
            else
              var o := opening.value;
              && rows[o].date < closing
              && (forall j :: 0 <= j < |rows| && rows[j].date < start ==> rows[j].date <= rows[o].date < start)
              && (rows[o].date >= start ==> forall j :: 0 <= j < |rows| ==> rows[o].date <= rows[j].date)
  {
    hide Latest; hide Earliest;
    var earlier, first := Latest(rows, Before(start)), Earliest(rows, Within(start, closing - 1));
    if earlier.Some? { assert Before(start)(rows[earlier.value]); }
    if first.Some? { assert Within(start, closing - 1)(rows[first.value]); }
    forall j | 0 <= j < |rows|
      ensures rows[j].date < start ==> earlier.Some? && rows[j].date <= rows[earlier.value].date
      ensures start <= rows[j].date < closing ==> first.Some? && rows[first.value].date <= rows[j].date
    {
      if rows[j].date < start { assert Before(start)(rows[j]); }
      if start <= rows[j].date < closing { assert Within(start, closing - 1)(rows[j]); }
    }
  }

  /** A period is billable if and only if it contains a reading and some reading precedes the last one in it. */
  lemma BillableExactly(rows: seq<Reading>, multiplier: nat, start: int, end: int)
    requires Chronological(rows) && start <= end
    ensures ElectricityForPeriod(rows, multiplier, start, end).Billable? <==>
              exists o, c :: 0 <= o < |rows| && 0 <= c < |rows| && start <= rows[c].date <= end
                  && rows[o].date < rows[c].date
  {
    hide Latest; hide Earliest;
    var u := ElectricityForPeriod(rows, multiplier, start, end);
    if u.Billable? {
      assert rows[u.opening].date < rows[u.closing].date;
    }
    if o, c :| 0 <= o < |rows| && 0 <= c < |rows| && start <= rows[c].date <= end && rows[o].date < rows[c].date {
      assert Within(start, end)(rows[c]);
      var closing := Latest(rows, Within(start, end)).value;
      assert rows[c].date <= rows[closing].date;
      if rows[o].date < start {
        assert Before(start)(rows[o]);
      } else {
        assert Within(start, rows[closing].date - 1)(rows[o]);
      }
    }
  }

  // ---------- conservation over consecutive months ----------

  datatype Period = Period(start: int, end: int)

  ghost predicate Consecutive(periods: seq<Period>) {
    && (forall k :: 0 <= k < |periods| ==> periods[k].start <= periods[k].end)
    && (forall k :: 0 < k < |periods| ==> periods[k].start == periods[k - 1].end + 1)
  }

  function UsageOf(rows: seq<Reading>, multiplier: nat, p: Period): (u: Usage)
    ensures u.Billable? ==> u.opening < |rows| && u.closing < |rows|
  {
    ElectricityForPeriod(rows, multiplier, p.start, p.end)
  }

  function ConsumedIn(rows: seq<Reading>, multiplier: nat): Period -> int {
    (p: Period) => var u := UsageOf(rows, multiplier, p);
      if u.Billable? then rows[u.closing].value - rows[u.opening].value else 0
  }

  function UnitsIn(rows: seq<Reading>, multiplier: nat): Period -> int {
    (p: Period) => var u := UsageOf(rows, multiplier, p); if u.Billable? then u.units else 0
  }

  function BilledIn(rows: seq<Reading>, multiplier: nat): Period -> int {
    (p: Period) => if UsageOf(rows, multiplier, p).Billable? then 1 else 0
  }

  /** The first billed month's opening row and the last billed month's closing row. */
  function Ends(rows: seq<Reading>, multiplier: nat, periods: seq<Period>): (r: Option<(nat, nat)>)
    ensures r.Some? ==> r.value.0 < |rows| && r.value.1 < |rows|
  {
    if periods == [] then None
    else
      var init := Ends(rows, multiplier, periods[..|periods| - 1]);
      var u := UsageOf(rows, multiplier, periods[|periods| - 1]);
      if !u.Billable? then init
      else Some((if init.Some? then init.value.0 else u.opening, u.closing))
  }

  /** What one month does to the newest reading: a billed month ends on its closing row and opens on the
      previous newest row; a month that is skipped although an earlier reading exists holds no reading. */
  lemma MonthStep(rows: seq<Reading>, multiplier: nat, p: Period)
    requires Chronological(rows) && p.start <= p.end
    ensures var u, before, newest := UsageOf(rows, multiplier, p), Latest(rows, Before(p.start)),
        Latest(rows, Before(p.end + 1));
            && (u.Billable? ==> newest == Some(u.closing))
            && (u.Billable? && before.Some? ==> u.opening == before.value)
            && (!u.Billable? && before.Some? ==> newest == before)
  {
    var u, before, newest := UsageOf(rows, multiplier, p), Latest(rows, Before(p.start)),
        Latest(rows, Before(p.end + 1));
    var within := Latest(rows, Within(p.start, p.end));
    if within.Some? {
      assert Before(p.end + 1)(rows[within.value]);
      assert Within(p.start, p.end)(rows[newest.value]);
      assert newest == within;
    } else if before.Some? {
      assert Before(p.end + 1)(rows[before.value]);
      assert !Within(p.start, p.end)(rows[newest.value]);
      assert Before(p.start)(rows[newest.value]);
    }
  }

  /** Once some month has been billed, the last billed closing is the newest reading so far. */
  lemma {:induction false} LastClosingIsNewest(rows: seq<Reading>, multiplier: nat, periods: seq<Period>)
    requires Chronological(rows) && Consecutive(periods) && periods != []
    requires Ends(rows, multiplier, periods).Some?
    ensures Latest(rows, Before(periods[|periods| - 1].end + 1)) == Some(Ends(rows, multiplier, periods).value.1)
  {
    hide UsageOf; hide Latest;
    var n := |periods| - 1;
    MonthStep(rows, multiplier, periods[n]);
    if !UsageOf(rows, multiplier, periods[n]).Billable? {
      LastClosingIsNewest(rows, multiplier, periods[..n]);
      assert periods[n].start == periods[..n][n - 1].end + 1;
    }
  }

  /** Conservation: over consecutive months, whatever months were skipped for want of a reading, the
      billed consumptions add up to the last closing minus the first opening. */
  lemma {:induction false} ConsumptionTelescopes(rows: seq<Reading>, multiplier: nat, periods: seq<Period>)
    requires Chronological(rows) && Consecutive(periods)
    ensures Sum(periods, ConsumedIn(rows, multiplier)) ==
              match Ends(rows, multiplier, periods)
              case None => 0
              case Some((opening, closing)) => rows[closing].value - rows[opening].value
  {
    hide UsageOf;
    if periods != [] {
      var n := |periods| - 1;
      ConsumptionTelescopes(rows, multiplier, periods[..n]);
      if Ends(rows, multiplier, periods[..n]).Some? {
        LastClosingIsNewest(rows, multiplier, periods[..n]);
        assert periods[n].start == periods[..n][n - 1].end + 1;
        MonthStep(rows, multiplier, periods[n]);
      }
    }
  }

  /** The widths of the reading and multiplier columns keep every product exact. */
  ghost predicate InColumns(rows: seq<Reading>, multiplier: nat) {
    multiplier < 10000000000 && forall i :: 0 <= i < |rows| ==> 0 <= rows[i].value < 100000000000000
  }

  lemma UnitsError(rows: seq<Reading>, multiplier: nat, p: Period)
    requires Chronological(rows) && InColumns(rows, multiplier)
    ensures var c, units := ConsumedIn(rows, multiplier)(p), UnitsIn(rows, multiplier)(p);
            var slack := 5000 * BilledIn(rows, multiplier)(p);
            -slack <= 10000 * units - c * multiplier <= slack
  {
    hide Latest; hide Earliest; hide HalfUp;
    var u := UsageOf(rows, multiplier, p);
    if u.Billable? {
      var c := rows[u.closing].value - rows[u.opening].value;
      Scale(c, 100000000000000, multiplier);
      NearestError(c * multiplier, MULTIPLIER_SCALE);
    }
  }

  /** Billed units over n billed months stay within n half-thousandths of multiplier times consumption. */
  lemma {:induction false} UnitsConserved(rows: seq<Reading>, multiplier: nat, periods: seq<Period>)
    requires Chronological(rows) && InColumns(rows, multiplier)
    ensures var exact, units := Sum(periods, ConsumedIn(rows, multiplier)) * multiplier,
        Sum(periods, UnitsIn(rows, multiplier));
            var slack := 5000 * Sum(periods, BilledIn(rows, multiplier));
            -slack <= 10000 * units - exact <= slack
  {
    hide UsageOf;
    if periods != [] {
      var n := |periods| - 1;
      UnitsConserved(rows, multiplier, periods[..n]);
      UnitsError(rows, multiplier, periods[n]);
      Distribute(Sum(periods[..n], ConsumedIn(rows, multiplier)), ConsumedIn(rows, multiplier)(periods[n]), multiplier);
    }
  }

  lemma Distribute(a: int, b: int, k: int)
    ensures (a + b) * k == a * k + b * k
  {
  }

  // ---------- the service ----------

  datatype Trail = Trail(reading: nat, original: int, corrected: int)

  class MeterReadingService {
    var rows: seq<Reading>
    var corrections: seq<Trail>

    ghost predicate Valid()
      reads this
    {
      Chronological(rows)
    }

    constructor ()
      ensures Valid() && rows == [] && corrections == []
    {
      rows, corrections := [], [];
    }

    method RecordReading(active: bool, today: int, date: int, value: int) returns (refusal: Option<Refusal>)
      requires Valid()
      modifies this`rows
      ensures Valid()
      ensures (rows, refusal) == Record(old(rows), active, today, date, value)
      ensures refusal.None? <==> active && date <= today && Chronological(old(rows) + [Reading(date, value)])
      ensures RecordedAs(old(rows), active, today, date, value, rows, refusal)
    {
      hide Chronological; hide RecordedAs; hide Chronology; hide Find;
      RecordExactlyKeepsOrder(rows, active, today, date, value);
      RecordExactly(rows, active, today, date, value);
      if !active { return Some(MeterInactive); }
      if value < 0 { return Some(ReadingNegative); }
      if date > today { return Some(ReadingInFuture); }
      refusal := Chronology(rows, date, value);
      if refusal.Some? { return; }
      var clash := Find(rows, OnDay(date));
      if clash.Some? { return Some(DuplicateReading); }
      rows := rows + [Reading(date, value)];
    }

    method CorrectReading(i: nat, value: int) returns (refusal: Option<Refusal>)
      requires Valid()
      modifies this
      ensures Valid()
      ensures (rows, refusal) == Correct(old(rows), i, value)
      ensures refusal.None? <==> i < |old(rows)| && value != old(rows)[i].value
                                 && Chronological(old(rows)[i := Reading(old(rows)[i].date, value)])
      ensures CorrectedAs(old(rows), i, value, rows, refusal)
      ensures corrections == old(corrections) + if refusal.None? then [Trail(i, old(rows)[i].value, value)] else []
    {
      hide Chronological; hide CorrectedAs; hide Chronology;
      CorrectExactlyKeepsOrder(rows, i, value);
      CorrectExactly(rows, i, value);
      if value < 0 { return Some(ReadingNegative); }
      if i >= |rows| { return Some(NotFound); }
      if value == rows[i].value { return Some(CorrectionUnchanged); }
      refusal := Chronology(Others(rows, i), rows[i].date, value);
      if refusal.Some? { return; }
      corrections := corrections + [Trail(i, rows[i].value, value)];
      rows := rows[i := Reading(rows[i].date, value)];
    }
  }
}
