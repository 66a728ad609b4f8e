/** The billing arithmetic. Readings and units are held in thousandths, multipliers and rates in
    ten-thousandths, amounts in minor units; products carry 28 significant digits. */
module Charges {
  import opened Decimals
  import opened Tables

  /** How many digits of an exact product do not fit the 28-digit context. */
  function Excess(p: nat, k: nat := 0): nat
    decreases p - k
  {
    if p < CONTEXT_LIMIT * Pow10(k) || k >= p then k else Excess(p, k + 1)
  }

  /** An exact product after the context has rounded it (half even) to 28 digits. */
  function Context(p: nat): (r: nat)
    ensures p < CONTEXT_LIMIT ==> r == p
  {
    if p < CONTEXT_LIMIT then p else HalfEven(p, Pow10(Excess(p))) * Pow10(Excess(p))
  }

  lemma {:induction false} ExcessExactly(p: nat, k: nat)
    requires k > 0 ==> CONTEXT_LIMIT * Pow10(k - 1) <= p
    ensures var e := Excess(p, k);
            p < CONTEXT_LIMIT * Pow10(e) && (e > 0 ==> CONTEXT_LIMIT * Pow10(e - 1) <= p)
    decreases p - k
  {
    if p < CONTEXT_LIMIT * Pow10(k) {
    } else if k >= p {
      PowerExceeds(k);
    } else {
      ExcessExactly(p, k + 1);
    }
  }

  lemma {:induction false} PowerExceeds(k: nat)
    ensures Pow10(k) > k
  {
    if k > 0 { PowerExceeds(k - 1); }
  }

  /** A product beyond 28 digits loses exactly the digits that do not fit, rounded to the nearest, ties to even. */
  lemma ContextExactly(p: nat)
    requires p >= 10000000000000000000000000000
    ensures var u, v := Pow10(Excess(p)), HalfEven(p, Pow10(Excess(p)));
            && Context(p) == v * u && 1000000000000000000000000000 * u <= p < 10000000000000000000000000000 * u
            && 2 * (v * u) - u <= 2 * p <= 2 * (v * u) + u
  {
    hide HalfEven;
    ExcessExactly(p, 0);
    HalfEvenExactly(p, Pow10(Excess(p)));
  }

  const MULTIPLIER_SCALE: pos := 10000
  const CHARGE_SCALE: pos := 10000000

  /** None stands for the NegativeConsumption error. */
  function Consumption(opening: int, closing: int): Option<nat> {
    if closing < opening then None else Some(closing - opening)
  }

  function BilledUnits(opening: int, closing: int, multiplier: nat): Option<nat> {
    match Consumption(opening, closing)
    case None => None
    case Some(c) => Some(HalfUp(Context(c * multiplier), MULTIPLIER_SCALE))
  }

  function ChargeCents(units: nat, rate: nat): nat {
    HalfUp(Context(units * rate), CHARGE_SCALE)
  }

  /** Both products are exact in the 28-digit context; the column widths (14 digits for readings, units
      and rates, 10 for multipliers) imply it. */
  predicate Exact(consumed: nat, multiplier: nat, units: nat, rate: nat) {
    consumed * multiplier < CONTEXT_LIMIT && units * rate < CONTEXT_LIMIT
  }

  lemma ColumnsAreExact(consumed: nat, multiplier: nat, units: nat, rate: nat)
    requires consumed < 100000000000000 && multiplier < 10000000000
    requires units < 100000000000000 && rate < 100000000000000
    ensures Exact(consumed, multiplier, units, rate)
  {
    Scale(consumed, 100000000000000, multiplier);
    Scale(units, 100000000000000, rate);
  }

  lemma NearestError(n: nat, d: pos)
    ensures 2 * (HalfUp(n, d) * d) <= 2 * n + d
    ensures 2 * n <= 2 * (HalfUp(n, d) * d) + d
  {
    var v := HalfUp(n, d);
    HalfUpIsNearestAway(n, d);
    assert (2 * v - 1) * d == 2 * (v * d) - d && (2 * v + 1) * d == 2 * (v * d) + d;
  }

  /** Units are the exact product of consumption and multiplier rounded to the nearest thousandth, the charge the
      exact product of units and rate rounded to the nearest minor unit, and a tie always goes up. */
  lemma ChargeExactly(opening: int, closing: int, multiplier: nat, rate: nat)
    ensures BilledUnits(opening, closing, multiplier).Some? <==> opening <= closing
    ensures opening <= closing ==>
              var units, consumed := BilledUnits(opening, closing, multiplier).value, (closing - opening) * multiplier;
              var charge := ChargeCents(units, rate);
              && (consumed < CONTEXT_LIMIT ==> (2 * units - 1) * 10000 <= 2 * consumed < (2 * units + 1) * 10000)
              && (units * rate < CONTEXT_LIMIT ==>
                    (2 * charge - 1) * 10000000 <= 2 * (units * rate) < (2 * charge + 1) * 10000000)
  {
    if opening <= closing {
      var units := BilledUnits(opening, closing, multiplier).value;
      HalfUpIsNearestAway(Context((closing - opening) * multiplier), MULTIPLIER_SCALE);
      HalfUpIsNearestAway(Context(units * rate), CHARGE_SCALE);
      hide HalfUp;
    }
  }

  /** Two roundings compound to at most half a minor unit plus rate/2000: with every factor as a scaled
      integer, |charge * 10^11 - consumption * multiplier * rate| <= 10^11 / 2 + 5000 * rate. */
  lemma ChargeError(opening: int, closing: int, multiplier: nat, rate: nat)
    requires opening <= closing
    requires Exact(closing - opening, multiplier, BilledUnits(opening, closing, multiplier).value, rate)
    ensures var units := BilledUnits(opening, closing, multiplier).value;
            var charge, product := ChargeCents(units, rate) * 100000000000, (closing - opening) * multiplier * rate;
            -50000000000 - 5000 * rate <= charge - product <= 50000000000 + 5000 * rate
  {
    var c, units := (closing - opening) * multiplier, BilledUnits(opening, closing, multiplier).value;
    NearestError(c, MULTIPLIER_SCALE);
    NearestError(units * rate, CHARGE_SCALE);
    RateScaled(units, c, rate);
  }

  /** The units rounding (at most 5000 ten-millionths) as seen through the rate. */
  lemma RateScaled(units: nat, c: nat, rate: nat)
    requires 2 * (units * 10000) <= 2 * c + 10000 && 2 * c <= 2 * (units * 10000) + 10000
    ensures 10000 * (units * rate) <= c * rate + 5000 * rate
    ensures c * rate <= 10000 * (units * rate) + 5000 * rate
  {
    Scale(units * 10000, c + 5000, rate);
    Scale(c, units * 10000 + 5000, rate);
    assert (units * 10000) * rate == 10000 * (units * rate);
    assert (units * 10000 + 5000) * rate == 10000 * (units * rate) + 5000 * rate;
    assert (c + 5000) * rate == c * rate + 5000 * rate;
  }

  lemma HalfUpMono(n: nat, m: nat, d: pos)
    requires n <= m
    ensures HalfUp(n, d) <= HalfUp(m, d)
  {
    var v, w := HalfUp(n, d), HalfUp(m, d);
    HalfUpIsNearestAway(n, d);
    HalfUpIsNearestAway(m, d);
    assert (2 * v - 1) * d < (2 * w + 1) * d;
    Cancel(2 * (v as int) - 1, 2 * w + 1, d);
  }

  /** A later closing reading never lowers the charge. */
  lemma ChargeMono(opening: int, closing: int, later: int, multiplier: nat, rate: nat)
    requires opening <= closing <= later
    requires Exact(later - opening, multiplier, BilledUnits(opening, later, multiplier).value, rate)
    ensures BilledUnits(opening, closing, multiplier).value <= BilledUnits(opening, later, multiplier).value
    ensures ChargeCents(BilledUnits(opening, closing, multiplier).value, rate)
            <= ChargeCents(BilledUnits(opening, later, multiplier).value, rate)
  {
    var u, v := BilledUnits(opening, closing, multiplier).value, BilledUnits(opening, later, multiplier).value;
    Scale(closing - opening, later - opening, multiplier);
    HalfUpMono((closing - opening) * multiplier, (later - opening) * multiplier, MULTIPLIER_SCALE);
    Scale(u, v, rate);
    HalfUpMono(u * rate, v * rate, CHARGE_SCALE);
  }
}
