/** The rate timeline of one workspace and utility. Dates are day ordinals, rates ten-thousandths. */
module Tariffs {
  import opened Tables

  datatype Tariff = Tariff(rate: nat, start: int, end: Option<int>)

  datatype Refusal = RateNegative | NotAfterCurrent

  /** `.filter(p).order_by("-effective_from").first()` */
  function Newest(rows: seq<Tariff>, p: Tariff -> bool): (r: Option<nat>)
    ensures r.Some? ==> r.value < |rows| && p(rows[r.value])
    ensures r.Some? ==> forall j :: 0 <= j < |rows| && p(rows[j]) ==> rows[j].start <= rows[r.value].start
    ensures r.None? ==> forall j :: 0 <= j < |rows| ==> !p(rows[j])
  {
    if rows == [] then None
    else
      var n := |rows| - 1;
      var best := Newest(rows[..n], p);
      if p(rows[n]) && (best.None? || rows[best.value].start < rows[n].start) then Some(n) else best
  }

  function Any(): Tariff -> bool { (t: Tariff) => true }

  function InForce(d: int): Tariff -> bool {
    (t: Tariff) => t.start <= d && (t.end.None? || t.end.value >= d)
  }

  function Applicable(rows: seq<Tariff>, d: int): (r: Option<nat>)
    ensures r.Some? ==> r.value < |rows|
  {
    Newest(rows, InForce(d))
  }

  function Create(rows: seq<Tariff>, rate: int, start: int): (seq<Tariff>, Option<Refusal>) {
    if rate < 0 then (rows, Some(RateNegative))
    else
      match Newest(rows, Any())
      case None => (rows + [Tariff(rate, start, None)], None)
      case Some(k) =>
        var latest := rows[k];
        if start <= latest.start then (rows, Some(NotAfterCurrent))
        else
          (rows[k := ClosedBefore(latest, start)] + [Tariff(rate, start, None)], None)
  }

  /** The current rate ends the day before the new one starts, unless it already ended earlier. */
  function ClosedBefore(t: Tariff, start: int): Tariff {
    if t.end.None? || t.end.value >= start then t.(end := Some(start - 1)) else t
  }

  /** Contiguous ranges in order of start; only the last is open. */
  ghost predicate Timeline(rows: seq<Tariff>) {
    && (forall i, j :: 0 <= i < j < |rows| ==> rows[i].start < rows[j].start)
    && (forall i :: 0 <= i < |rows| - 1 ==> rows[i].end == Some(rows[i + 1].start - 1))
    && (rows != [] ==> rows[|rows| - 1].end.None?)
  }

  /** The reference step function: the rate set by the last start on or before d, ranges ignored. */
  function StartedBy(rows: seq<Tariff>, d: int): Option<nat> {
    if rows == [] then None
    else if rows[|rows| - 1].start <= d then Some(|rows| - 1)
    else StartedBy(rows[..|rows| - 1], d)
  }

  lemma {:induction false} StartedByMeaning(rows: seq<Tariff>, d: int)
    requires Timeline(rows)
    ensures var r := StartedBy(rows, d);
            && (r.None? ==> forall j :: 0 <= j < |rows| ==> rows[j].start > d)
            && (r.Some? ==> r.value < |rows| && forall j :: 0 <= j < |rows| ==> (rows[j].start <= d <==> j <= r.value))
  {
    if rows != [] && rows[|rows| - 1].start > d {
      var n := |rows| - 1;
      var init := rows[..n];
      PrefixOrdered(init, d);
    }
  }

  /** The part of the meaning that needs only the starts to be ordered. */
  lemma {:induction false} PrefixOrdered(rows: seq<Tariff>, d: int)
    requires forall i, j :: 0 <= i < j < |rows| ==> rows[i].start < rows[j].start
    ensures var r := StartedBy(rows, d);
            && (r.None? ==> forall j :: 0 <= j < |rows| ==> rows[j].start > d)
            && (r.Some? ==> r.value < |rows| && forall j :: 0 <= j < |rows| ==> (rows[j].start <= d <==> j <= r.value))
  {
    if rows != [] && rows[|rows| - 1].start > d { PrefixOrdered(rows[..|rows| - 1], d); }
  }

  /** The query over ranges computes exactly that step function, and the ranges never overlap. */
  lemma ApplicableIsStepFunction(rows: seq<Tariff>, d: int)
    requires Timeline(rows)
    ensures Applicable(rows, d) == StartedBy(rows, d)
    ensures forall i, j :: 0 <= i < |rows| && 0 <= j < |rows| && InForce(d)(rows[i]) && InForce(d)(rows[j]) ==> i == j
  {
    StartedByMeaning(rows, d);
    var k, a := StartedBy(rows, d), Applicable(rows, d);
    forall i | 0 <= i < |rows| ensures InForce(d)(rows[i]) <==> k == Some(i) {
      if i < |rows| - 1 { assert rows[i].end == Some(rows[i + 1].start - 1); }
    }
  }

  /** Creating a rate succeeds exactly when it starts after everything so far; old rates and starts stay. */
  lemma CreateKeepsTimeline(rows: seq<Tariff>, rate: int, start: int)
    requires Timeline(rows)
    ensures var (rows', refusal) := Create(rows, rate, start);
            && Timeline(rows')
            && (refusal.None? <==> rate >= 0 && forall i :: 0 <= i < |rows| ==> rows[i].start < start)
            && (refusal.Some? ==> rows' == rows)
            && (refusal.None? ==> |rows'| == |rows| + 1 && rows'[|rows|] == Tariff(rate, start, None))
            && forall i :: 0 <= i < |rows| ==> rows'[i].rate == rows[i].rate && rows'[i].start == rows[i].start
  {
    hide Newest;
    if rows != [] {
      assert Any()(rows[|rows| - 1]);
      assert Newest(rows, Any()) == Some(|rows| - 1);
    }
  }

  /** A new rate answers from its start on and changes no earlier answer. */
  lemma CreateExtends(rows: seq<Tariff>, rate: int, start: int, d: int)
    requires Timeline(rows)
    ensures var (rows', refusal) := Create(rows, rate, start);
            refusal.None? ==> Applicable(rows', d) == if d >= start then Some(|rows|) else Applicable(rows, d)
  {
    hide Create; hide Applicable; hide StartedBy;
    CreateKeepsTimeline(rows, rate, start);
    var rows' := Create(rows, rate, start).0;
    ApplicableIsStepFunction(rows, d);
    ApplicableIsStepFunction(rows', d);
    PrefixOrdered(rows, d);
    PrefixOrdered(rows', d);
    if Create(rows, rate, start).1.None? && d < start {
      assert rows'[|rows|].start > d;
      var new', old' := StartedBy(rows', d), StartedBy(rows, d);
      if new'.Some? { assert rows[new'.value].start <= d; }
      if old'.Some? { assert rows'[old'.value].start <= d; }
    }
  }

  lemma {:induction false} RunsKeepTimeline(ops: seq<(int, int)>)
    ensures Timeline(Run(ops))
    ensures forall d :: Applicable(Run(ops), d) == StartedBy(Run(ops), d)
  {
    if ops != [] {
      RunsKeepTimeline(ops[..|ops| - 1]);
      CreateKeepsTimeline(Run(ops[..|ops| - 1]), ops[|ops| - 1].0, ops[|ops| - 1].1);
    }
    forall d ensures Applicable(Run(ops), d) == StartedBy(Run(ops), d) { ApplicableIsStepFunction(Run(ops), d); }
  }

  /** The table after a run of `create` calls, each given as (rate, start). */
  function Run(ops: seq<(int, int)>): seq<Tariff> {
    if ops == [] then [] else Create(Run(ops[..|ops| - 1]), ops[|ops| - 1].0, ops[|ops| - 1].1).0
  }

  class TariffService {
    var rows: seq<Tariff>

    constructor ()
      ensures rows == []
    {
      rows := [];
    }

    method CreateTariff(rate: int, start: int) returns (refusal: Option<Refusal>)
      requires Timeline(rows)
      modifies this
      ensures Timeline(rows)
      ensures (rows, refusal) == Create(old(rows), rate, start)
      ensures refusal.None? <==> rate >= 0 && forall i :: 0 <= i < |old(rows)| ==> old(rows)[i].start < start
      ensures refusal == if rate < 0 then Some(RateNegative)
                         else if exists i :: 0 <= i < |old(rows)| && old(rows)[i].start >= start
                           then Some(NotAfterCurrent) else None
      ensures refusal.Some? ==> rows == old(rows)
      ensures refusal.None? ==>
                |rows| == |old(rows)| + 1 && rows[|old(rows)|] == Tariff(rate, start, None)
                && forall i :: 0 <= i < |old(rows)| ==>
                     rows[i].rate == old(rows)[i].rate && rows[i].start == old(rows)[i].start
      ensures forall d :: d < start ==> Applicable(rows, d) == Applicable(old(rows), d)
    {
      ghost var before := rows;
      forall d ensures d < start ==> Applicable(Create(rows, rate, start).0, d) == Applicable(rows, d) {
        CreateExtends(rows, rate, start, d);
      }
      CreateKeepsTimeline(rows, rate, start);
      if rate < 0 { return Some(RateNegative); }
      var k := Newest(rows, Any());
      if k.Some? {
        var latest := rows[k.value];
        if start <= latest.start { return Some(NotAfterCurrent); }
        rows := rows[k.value := ClosedBefore(latest, start)];
      }
      rows := rows + [Tariff(rate, start, None)];
      refusal := None;
      assert rows == Create(before, rate, start).0;
    }
  }
}
