/** What a lease's bill is generated from: the readings of its meters and the rate in force at the end of
    the period. Joins the metering, tariff and ledger models. */
module Generation {
  import opened Tables
  import opened Metering
  import opened Tariffs
  import Ledger
  import Charges
  import Decimals

  datatype Meter = Meter(readings: seq<Reading>, multiplier: nat)

  datatype Issue = MissingTariff | MissingReadingOf(meter: nat) | MissingOpeningOf(meter: nat) | NegativeOf(meter: nat)

  datatype Prepared = Prepared(usages: seq<Ledger.MeterUsage>, issues: seq<Issue>)

  function RateAt(tariffs: seq<Tariff>, d: int): Option<nat> {
    var t := Applicable(tariffs, d);
    if t.None? then None else Some(tariffs[t.value].rate)
  }

  function IssueOf(u: Metering.Usage, meter: nat): Issue
    requires !u.Billable?
  {
    match u
    case MissingReading => MissingReadingOf(meter)
    case MissingOpeningReading => MissingOpeningOf(meter)
    case NegativeConsumption => NegativeOf(meter)
  }

  /** One meter's contribution: its line, or the issue that blocks it. */
  function WithMeter(p: Prepared, n: nat, m: Meter, rate: Option<nat>, start: int, end: int): Prepared {
    var u := ElectricityForPeriod(m.readings, m.multiplier, start, end);
    if !u.Billable? then p.(issues := p.issues + [IssueOf(u, n)])
    else if rate.None? then p
    else p.(usages := p.usages + [UsageFor(m, u, rate.value)])
  }

  function PreparedFrom(meters: seq<Meter>, rate: Option<nat>, start: int, end: int): Prepared {
    if meters == [] then Prepared([], [])
    else
      var n := |meters| - 1;
      WithMeter(PreparedFrom(meters[..n], rate, start, end), n, meters[n], rate, start, end)
  }

  function UsageFor(m: Meter, u: Metering.Usage, rate: nat): Ledger.MeterUsage
    requires u.Billable? && u.opening < |m.readings| && u.closing < |m.readings|
  {
    Ledger.MeterUsage(m.readings[u.opening].value, m.readings[u.closing].value, m.multiplier, rate)
  }

  function Prerequisites(meters: seq<Meter>, tariffs: seq<Tariff>, start: int, end: int): Prepared {
    var rate := if meters == [] then None else RateAt(tariffs, end);
    var found := PreparedFrom(meters, rate, start, end);
    if meters != [] && rate.None? then found.(issues := [MissingTariff] + found.issues) else found
  }

  /** `lease_prerequisites`: one pass over the meters, collecting lines and blocking issues. */
  method LeasePrerequisites(meters: seq<Meter>, tariffs: seq<Tariff>, start: int, end: int)
    returns (lines: seq<Ledger.MeterUsage>, issues: seq<Issue>)
    ensures Prepared(lines, issues) == Prerequisites(meters, tariffs, start, end)
    ensures Sound(meters) && Timeline(tariffs) && start <= end && issues == [] ==>
              LeaseBilled(meters, tariffs, start, end, lines)
    ensures issues == [] ==> |lines| == |meters|
  {
    hide ElectricityForPeriod; hide RateAt; hide LeaseBilled; hide Sound; hide Timeline;
    if Sound(meters) && Timeline(tariffs) && start <= end && Prerequisites(meters, tariffs, start, end).issues == [] {
      PrerequisitesExactly(meters, tariffs, start, end);
    }
    lines, issues := [], [];
    var rate: Option<nat> := None;
    if meters != [] { rate := RateAt(tariffs, end); }
    if meters != [] && rate.None? { issues := [MissingTariff]; }
    ghost var first := issues;
    for n := 0 to |meters|
      invariant lines == PreparedFrom(meters[..n], rate, start, end).usages
      invariant issues == first + PreparedFrom(meters[..n], rate, start, end).issues
    {
      assert meters[..n + 1][..n] == meters[..n];
      var m := meters[n];
      var u := ElectricityForPeriod(m.readings, m.multiplier, start, end);
      if !u.Billable? {
        issues := issues + [IssueOf(u, n)];
      } else if rate.Some? {
        lines := lines + [UsageFor(m, u, rate.value)];
      }
    }
    assert meters[..|meters|] == meters;
    CompleteLines(meters, rate, start, end);
  }

  lemma {:induction false} CompleteLines(meters: seq<Meter>, rate: Option<nat>, start: int, end: int)
    ensures rate.Some? && PreparedFrom(meters, rate, start, end).issues == [] ==>
              |PreparedFrom(meters, rate, start, end).usages| == |meters|
  {
    hide ElectricityForPeriod;
    if meters != [] { CompleteLines(meters[..|meters| - 1], rate, start, end); }
  }

  ghost predicate Sound(meters: seq<Meter>) { forall k :: 0 <= k < |meters| ==> Chronological(meters[k].readings) }

  /** A meter can be billed: the period holds a reading and some reading precedes the last one in it. */
  ghost predicate Readable(rows: seq<Reading>, start: int, end: int) {
    exists o, c :: 0 <= o < |rows| && 0 <= c < |rows| && start <= rows[c].date <= end && rows[o].date < rows[c].date
  }

  /** What is prepared for generation: no negative consumption, and issues exactly for unreadable meters. */
  lemma {:induction false} PreparedIsSound(meters: seq<Meter>, rate: Option<nat>, start: int, end: int)
    requires Sound(meters) && start <= end
    ensures var p := PreparedFrom(meters, rate, start, end);
            && (forall k :: 0 <= k < |p.usages| ==> p.usages[k].opening <= p.usages[k].closing)
            && (forall k :: 0 <= k < |p.issues| ==> !p.issues[k].NegativeOf?)
            && (p.issues == [] <==> forall k :: 0 <= k < |meters| ==> Readable(meters[k].readings, start, end))
  {
    hide Chronological; hide Readable; hide ElectricityForPeriod;
    if meters != [] {
      var n := |meters| - 1;
      PreparedIsSound(meters[..n], rate, start, end);
      MeterIsSound(meters[n], start, end);
      assert forall k :: 0 <= k < n ==> meters[..n][k] == meters[k];
    }
  }

  lemma MeterIsSound(m: Meter, start: int, end: int)
    requires Chronological(m.readings) && start <= end
    ensures var u := ElectricityForPeriod(m.readings, m.multiplier, start, end);
            && (u.Billable? <==> Readable(m.readings, start, end)) && !u.NegativeConsumption?
            && (u.Billable? ==> m.readings[u.opening].value <= m.readings[u.closing].value)
  {
    assert ElectricityForPeriod(m.readings, m.multiplier, start, end).Billable?
        <==> Readable(m.readings, start, end) by {
      BillableExactly(m.readings, m.multiplier, start, end);
      hide ElectricityForPeriod; hide Chronological;
    }
    hide Latest; hide Earliest; hide Readable; hide Decimals.HalfUp; hide Charges.Context;
  }

  /** What a meter is billed for: the pair of its own readings that bills the period, its multiplier, the rate. */
  ghost predicate MeterBilled(m: Meter, rate: nat, start: int, end: int, u: Ledger.MeterUsage) {
    exists o: nat, c: nat :: Bills(m.readings, start, end, o, c)
      && u == Ledger.MeterUsage(m.readings[o].value, m.readings[c].value, m.multiplier, rate)
  }

  /** When nothing blocks, meter k's own pair of readings is line k. */
  lemma {:induction false} MetersInOrder(meters: seq<Meter>, rate: nat, start: int, end: int)
    requires Sound(meters) && start <= end
    requires PreparedFrom(meters, Some(rate), start, end).issues == []
    ensures var usages := PreparedFrom(meters, Some(rate), start, end).usages;
            && |usages| == |meters|
            && forall k :: 0 <= k < |meters| ==> MeterBilled(meters[k], rate, start, end, usages[k])
  {
    hide Chronological; hide ElectricityForPeriod; hide MeterBilled; hide Bills;
    if meters != [] {
      var n := |meters| - 1;
      MetersInOrder(meters[..n], rate, start, end);
      var u := ElectricityForPeriod(meters[n].readings, meters[n].multiplier, start, end);
      if u.Billable? { MeterIsBilled(meters[n], rate, start, end, u); }
    }
  }

  lemma MeterIsBilled(m: Meter, rate: nat, start: int, end: int, u: Metering.Usage)
    requires Chronological(m.readings) && start <= end
    requires u == ElectricityForPeriod(m.readings, m.multiplier, start, end) && u.Billable?
    ensures MeterBilled(m, rate, start, end, UsageFor(m, u, rate))
  {
    hide ElectricityForPeriod; hide Chronological; hide Bills;
    UsageExactly(m.readings, m.multiplier, start, end);
    assert Bills(m.readings, start, end, u.opening, u.closing);
  }

  ghost predicate Unread(rows: seq<Reading>, start: int, end: int) {
    forall j :: 0 <= j < |rows| ==> !(start <= rows[j].date <= end)
  }

  /** Which meter blocks generation and why: it has no reading in the period, or none before the ones in it. */
  lemma {:induction false} IssuesExactly(meters: seq<Meter>, rate: Option<nat>, start: int, end: int, issue: Issue)
    requires Sound(meters) && start <= end
    ensures issue in PreparedFrom(meters, rate, start, end).issues <==>
              exists k :: 0 <= k < |meters| && !Readable(meters[k].readings, start, end)
                && issue == if Unread(meters[k].readings, start, end) then MissingReadingOf(k) else MissingOpeningOf(k)
  {
    hide Chronological; hide ElectricityForPeriod; hide Readable; hide Unread;
    if meters != [] {
      var n := |meters| - 1;
      IssuesExactly(meters[..n], rate, start, end, issue);
      IssueOfMeter(meters[n], n, start, end);
      assert forall k :: 0 <= k < n ==> meters[..n][k] == meters[k];
    }
  }

  lemma IssueOfMeter(m: Meter, n: nat, start: int, end: int)
    requires Chronological(m.readings) && start <= end
    ensures var u := ElectricityForPeriod(m.readings, m.multiplier, start, end);
            && (u.Billable? <==> Readable(m.readings, start, end))
            && (!u.Billable? ==>
                  IssueOf(u, n) == if Unread(m.readings, start, end) then MissingReadingOf(n) else MissingOpeningOf(n))
  {
    hide ElectricityForPeriod; hide Chronological; hide Readable;
    UsageExactly(m.readings, m.multiplier, start, end);
    MeterIsSound(m, start, end);
  }

  ghost predicate LeaseBilled(meters: seq<Meter>, tariffs: seq<Tariff>, start: int, end: int,
                              usages: seq<Ledger.MeterUsage>) {
    var current := StartedBy(tariffs, end);
    && |usages| == |meters|
    && (meters != [] ==> current.Some? && current.value < |tariffs|
                         && forall k :: 0 <= k < |meters| ==>
                              MeterBilled(meters[k], tariffs[current.value].rate, start, end, usages[k]))
  }

  /** What a lease is billed for, from its meters' readings and the rate timeline: with nothing blocking, line k is
      meter k's pair of readings at the rate of the last tariff started by the end of the period. */
  lemma PrerequisitesExactly(meters: seq<Meter>, tariffs: seq<Tariff>, start: int, end: int)
    requires Sound(meters) && Timeline(tariffs) && start <= end
    requires Prerequisites(meters, tariffs, start, end).issues == []
    ensures LeaseBilled(meters, tariffs, start, end, Prerequisites(meters, tariffs, start, end).usages)
  {
    hide Timeline; hide Newest; hide StartedBy; hide PreparedFrom; hide Sound; hide MeterBilled; hide Applicable;
    ApplicableIsStepFunction(tariffs, end);
    var rate := if meters == [] then None else RateAt(tariffs, end);
    if rate.Some? { MetersInOrder(meters, rate.value, start, end); } else { NoMeters(rate, start, end); }
  }

  lemma NoMeters(rate: Option<nat>, start: int, end: int)
    ensures PreparedFrom([], rate, start, end) == Prepared([], [])
  {
  }

  /** A missing rate is the first issue, and only of a lease with meters. */
  lemma MissingRateExactly(meters: seq<Meter>, tariffs: seq<Tariff>, start: int, end: int)
    requires Sound(meters) && Timeline(tariffs) && start <= end
    ensures var issues := Prerequisites(meters, tariffs, start, end).issues;
            MissingTariff in issues <==> meters != [] && StartedBy(tariffs, end).None?
    ensures MissingTariff in Prerequisites(meters, tariffs, start, end).issues ==>
              Prerequisites(meters, tariffs, start, end).issues[0] == MissingTariff
  {
    hide Timeline; hide Newest; hide StartedBy; hide PreparedFrom; hide Sound; hide Applicable; hide Readable;
    hide Unread;
    ApplicableIsStepFunction(tariffs, end);
    var rate := if meters == [] then None else RateAt(tariffs, end);
    IssuesExactly(meters, rate, start, end, MissingTariff);
  }

  /** A lease with meters can be billed if and only if some rate has started by the end of the period and every
      meter is readable; no issue is ever a negative consumption, and every line is charged at the rate of the
      last tariff started by then. */
  lemma GenerationExactly(meters: seq<Meter>, tariffs: seq<Tariff>, start: int, end: int)
    requires Sound(meters) && Timeline(tariffs) && start <= end
    ensures StartedBy(tariffs, end).Some? ==> StartedBy(tariffs, end).value < |tariffs|
    ensures var p, current := Prerequisites(meters, tariffs, start, end), StartedBy(tariffs, end);
            && (p.issues == [] <==>
                  (meters == [] || current.Some?) && forall k :: 0 <= k < |meters| ==>
                      Readable(meters[k].readings, start, end))
            && (forall k :: 0 <= k < |p.issues| ==> !p.issues[k].NegativeOf?)
            && (p.usages != [] ==> current.Some?)
            && (current.Some? ==> AllAt(p.usages, tariffs[current.value].rate))
  {
    hide Timeline; hide Newest; hide StartedBy; hide PreparedFrom; hide Sound; hide Readable; hide Applicable;
    assert Applicable(tariffs, end) == StartedBy(tariffs, end) by { ApplicableIsStepFunction(tariffs, end); }
    var rate := if meters == [] then None else RateAt(tariffs, end);
    PreparedIsSound(meters, rate, start, end);
    ChargedAt(meters, rate, start, end);
  }

  ghost predicate AllAt(usages: seq<Ledger.MeterUsage>, rate: nat) {
    forall k :: 0 <= k < |usages| ==> usages[k].rate == rate
  }

  lemma {:induction false} ChargedAt(meters: seq<Meter>, rate: Option<nat>, start: int, end: int)
    ensures var p := PreparedFrom(meters, rate, start, end);
            && (p.usages != [] ==> rate.Some?)
            && (rate.Some? ==> AllAt(p.usages, rate.value))
  {
    hide Latest; hide Earliest;
    if meters != [] { ChargedAt(meters[..|meters| - 1], rate, start, end); }
  }

  /** So generating a bill from recorded readings never refuses for negative consumption. */
  lemma GenerationNeverNegative(meters: seq<Meter>, tariffs: seq<Tariff>, start: int, end: int, book: Ledger.Book,
                                tenant: nat, unit: nat, resident: nat, year: int, month: int, dueDate: int,
                                currency: string, rent: nat, maintenance: nat)
    requires Sound(meters) && start <= end
    ensures Ledger.Generate(book, tenant, unit, resident, year, month, dueDate, currency, rent,
                            Prerequisites(meters, tariffs, start, end).usages, maintenance).1
            != Ledger.Refused(Ledger.NegativeConsumption)
  {
    var rate := if meters == [] then None else RateAt(tariffs, end);
    PreparedIsSound(meters, rate, start, end);
    hide Find; hide Sum; hide Ledger.GeneratedLines; hide PreparedFrom; hide Sound; hide Readable; hide RateAt;
  }
}
