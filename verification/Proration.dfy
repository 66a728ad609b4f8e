/** Mid-cycle proration: the 28-digit decimal computation and the exact rounding it must equal.
    Instants and durations are whole microseconds. */
module Proration {
  import opened Decimals
  import opened Tables

  const ONE_SECOND := 1000000
  /** Ten thousand years of 365.2425 days are shorter than this, so no two datetimes are further apart. */
  const LONGEST_SPAN := 320000000000000000

  function Gcd(a: nat, b: nat): (g: nat)
    requires a > 0 || b > 0
    ensures g >= 1 && a % g == 0 && b % g == 0
    decreases b
  {
    if b == 0 then Multiple(a, 1); a
    else
      var g := Gcd(b, a % b);
      GcdStep(a, b, g);
      g
  }

  lemma Multiple(g: pos, i: nat)
    ensures (g * i) % g == 0 && (g * i) / g == i
  {
    ExactMultiple(i, g);
    CancelEq((g * i) / g, i, g);
  }

  lemma GcdStep(a: nat, b: pos, g: pos)
    requires b % g == 0 && (a % b) % g == 0
    ensures a % g == 0
  {
    var i, j, q := b / g, (a % b) / g, a / b;
    assert a == q * b + a % b;
    assert q * b == g * (q * i);
    assert a == g * (q * i + j);
    Multiple(g, q * i + j);
  }

  /** `Fraction` normalises numerator and denominator by their greatest common divisor. */
  function Reduced(n: nat, d: pos): (r: (nat, pos))
    ensures var g := Gcd(n, d); n == g * r.0 && d == g * r.1
    ensures r.1 <= d
  {
    var g := Gcd(n, d);
    assert d == g * (d / g);
    assert d / g >= 1;
    Scale(1, g, d / g);
    (n / g, d / g)
  }

  function Abs(n: int): nat { if n >= 0 then n else 0 - n }

  function Signed(n: int, magnitude: nat): int { if n >= 0 then magnitude else 0 - magnitude }

  /** Ties away from zero (roundTiesToAway, section 4.3.1 of IEEE 754-2008). */
  function RoundAway(n: int, d: pos): int {
    Signed(n, HalfUp(Abs(n), d))
  }

  /** `int((Decimal(num) / Decimal(den)).quantize(Decimal("1"), ROUND_HALF_UP))` on the normalised fraction. */
  function DecimalRound(n: int, d: pos): int {
    var (num, den) := Reduced(Abs(n), d);
    var (q, places) := Divide(num, den);
    Signed(n, HalfUp(q, Pow10(places)))
  }

  function Clamp(x: int, total: nat): (r: nat)
    ensures r <= total
  {
    if x < 0 then 0 else if x > total then total else x
  }

  /** The signed audit amount, or None for a degenerate period. */
  function Calculate(fromPrice: int, toPrice: int, start: int, end: int, now: int): Option<int> {
    if end - start < ONE_SECOND then None
    else
      var total: pos := end - start;
      Some(DecimalRound((toPrice - fromPrice) * Clamp(end - now, total), total))
  }

  predicate Price32(cents: int) { -0x8000_0000 <= cents < 0x8000_0000 }

  lemma DecimalRoundIsExact(n: int, d: pos)
    requires Abs(n) < 10000000000 * d && d < 1000000000000000000
    ensures DecimalRound(n, d) == RoundAway(n, d)
  {
    var m, g := Abs(n), Gcd(Abs(n), d);
    var (num, den) := Reduced(m, d);
    assert num * g < (10000000000 * den) * g;
    Cancel(num, 10000000000 * den, g);
    DivideThenQuantize(num, den);
    HalfUpReduced(num, den, g);
  }

  /** |delta| * r stays inside the range the 28-digit quotient handles exactly. */
  lemma InRange(delta: int, r: nat, total: pos)
    requires -0x1_0000_0000 < delta < 0x1_0000_0000 && r <= total
    ensures Abs(delta * r) < 10000000000 * total
  {
    Scale(delta, 0x1_0000_0000, r);
    Scale(-0x1_0000_0000, delta, r);
  }

  /** The 28-digit detour never changes the amount: for every pair of 32-bit prices and every period
      two datetimes can span, the recorded net is the exact rational rounded once, ties away from zero. */
  lemma ProrationRoundsOnce(fromPrice: int, toPrice: int, start: int, end: int, now: int)
    requires Price32(fromPrice) && Price32(toPrice)
    requires end - start <= LONGEST_SPAN
    ensures Calculate(fromPrice, toPrice, start, end, now).Some? <==> end - start >= 1000000
    ensures end - start >= ONE_SECOND ==>
              Calculate(fromPrice, toPrice, start, end, now).value
              == RoundAway((toPrice - fromPrice) * Clamp(end - now, end - start), end - start)
  {
    if end - start >= ONE_SECOND {
      var total: pos, delta := end - start, toPrice - fromPrice;
      var r := Clamp(end - now, total);
      InRange(delta, r, total);
      DecimalRoundIsExact(delta * r, total);
    }
  }

  /** What a caller may rely on: the error is at most half a cent, the amount is antisymmetric in
      the two prices, never exceeds the full price difference, is 0 once the period has lapsed and
      the full difference before it starts; in between its magnitude is the difference for the time left, rounded to
      the nearest cent with ties away from zero. */
  lemma ProrationIsFair(fromPrice: int, toPrice: int, start: int, end: int, now: int)
    requires Price32(fromPrice) && Price32(toPrice)
    requires ONE_SECOND <= end - start <= LONGEST_SPAN
    ensures var net := Calculate(fromPrice, toPrice, start, end, now).value;
            var total, delta := end - start, toPrice - fromPrice;
            && 2 * Abs(net * total - delta * Clamp(end - now, total)) <= total
            && Calculate(toPrice, fromPrice, start, end, now) == Some(-net)
            && (delta >= 0 ==> 0 <= net <= delta) && (delta <= 0 ==> delta <= net <= 0)
            && (now >= end ==> net == 0) && (now <= start ==> net == delta)
            && (start <= now <= end ==>
                  var due := Abs(delta) * (end - now);
                  due >= 0 && (2 * Abs(net) - 1) * total <= 2 * due < (2 * Abs(net) + 1) * total)
  {
    var total: pos, delta := end - start, toPrice - fromPrice;
    var r := Clamp(end - now, total);
    ProrationRoundsOnce(fromPrice, toPrice, start, end, now);
    ProrationRoundsOnce(toPrice, fromPrice, start, end, now);
    RoundAwayIsFair(delta, r, total);
    NearestMagnitude(delta, r, total);
    RoundAwayIsFair(-delta, r, total);
    assert fromPrice - toPrice == -delta;
  }

  lemma RoundAwayIsFair(delta: int, r: nat, total: pos)
    requires r <= total
    ensures var net := RoundAway(delta * r, total);
            && net == Signed(delta, HalfUp(Abs(delta) * r, total))
            && 2 * Abs(net * total - delta * r) <= total
            && (delta >= 0 ==> 0 <= net <= delta) && (delta <= 0 ==> delta <= net <= 0)
            && (r == 0 ==> net == 0) && (r == total ==> net == delta)
  {
    var a := Abs(delta);
    AbsScale(delta, r);
    FairMagnitude(a, r, total);
    var v := HalfUp(a * r, total);
    if delta < 0 { assert (0 - v) * total == 0 - v * total; }
    if delta == 0 || r == 0 { assert delta * r == 0; }
  }

  lemma NearestMagnitude(delta: int, r: nat, total: pos)
    ensures Abs(delta) * r >= 0
    ensures NearestAway(Abs(RoundAway(delta * r, total)), Abs(delta) * r, total)
  {
    hide HalfUp;
    AbsScale(delta, r);
    HalfUpIsNearestAway(Abs(delta) * r, total);
  }

  lemma AbsScale(delta: int, r: nat)
    ensures Abs(delta) * r >= 0 && delta * r == Signed(delta, Abs(delta) * r) && Abs(delta * r) == Abs(delta) * r
  {
    Scale(0, Abs(delta), r);
    if delta < 0 { assert (0 - delta) * r == 0 - delta * r; }
  }

  lemma FairMagnitude(delta: nat, r: nat, total: pos)
    requires r <= total
    ensures delta * r >= 0
    ensures var v := HalfUp(delta * r, total);
            && v <= delta
            && 2 * (v * total) <= 2 * (delta * r) + total
            && 2 * (delta * r) <= 2 * (v * total) + total
            && (delta == 0 || r == 0 ==> v == 0) && (r == total ==> v == delta)
  {
    Scale(0, delta, r);
    var n, v := delta * r, HalfUp(delta * r, total);
    HalfUpIsNearestAway(n, total);
    assert (2 * v - 1) * total == 2 * (v * total) - total;
    assert (2 * v + 1) * total == 2 * (v * total) + total;
    AtMostWhole(delta, r, total, v);
    if delta == 0 || r == 0 { assert n == 0; AtMostWhole(0, 0, total, v); }
  }

  lemma AtMostWhole(delta: nat, r: nat, total: pos, v: nat)
    requires r <= total && NearestAway(v, delta * r, total)
    ensures v <= delta && (r == total ==> v == delta)
  {
    Scale(r, total, delta);
    assert (2 * delta + 1) * total == 2 * (delta * total) + total;
    Cancel(2 * v - 1, 2 * delta + 1, total);
    if r == total {
      assert (2 * delta) * total == 2 * (delta * total);
      Cancel(2 * delta, 2 * v + 1, total);
    }
  }
}
