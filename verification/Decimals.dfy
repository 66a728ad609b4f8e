/** Decimal arithmetic as the billing code uses it: a 28-significant-digit context that rounds half
    to even, and an explicit `quantize` that rounds half up. Nonnegative magnitudes throughout;
    signs are handled by the callers, both roundings being symmetric. */
module Decimals {

  type pos = n: int | 1 <= n witness 1

  /** 10 ** 28: the first coefficient that no longer fits the default decimal context. */
  const CONTEXT_LIMIT: pos := 10000000000000000000000000000
  /** 10 ** 27: the smallest full-width coefficient. */
  const CONTEXT_FLOOR: pos := 1000000000000000000000000000

  function Pow10(e: nat): (p: pos) {
    if e == 0 then 1 else 10 * Pow10(e - 1)
  }

  /** n / d rounded to an integer, ties upwards (ROUND_HALF_UP on a magnitude). */
  function HalfUp(n: nat, d: pos): nat {
    (2 * n + d) / (2 * d)
  }

  /** n / d rounded to an integer, ties to the even neighbour (ROUND_HALF_EVEN). */
  function HalfEven(n: nat, d: pos): nat {
    var q, r := n / d, n % d;
    if 2 * r < d || (2 * r == d && q % 2 == 0) then q else q + 1
  }

  /** Smallest e >= from with n * 10**e >= 10**27 * d: how far a quotient is shifted to fill 28 digits. */
  function Shift(n: pos, d: pos, e: nat := 0): (r: nat)
    ensures e <= r
    ensures n * Pow10(r) >= CONTEXT_FLOOR * d
    ensures r > e ==> n * Pow10(r - 1) < CONTEXT_FLOOR * d
    decreases CONTEXT_FLOOR * d - n * Pow10(e)
  {
    if n * Pow10(e) >= CONTEXT_FLOOR * d then e
    else
      ShiftGrows(n, e);
      Shift(n, d, e + 1)
  }

  lemma ShiftGrows(n: pos, e: nat)
    ensures n * Pow10(e + 1) == 10 * (n * Pow10(e))
    ensures n * Pow10(e) >= 1
  {
    var p := Pow10(e);
    assert n * (10 * p) == 10 * (n * p);
    Scale(1, p, n);
  }

  /** What `quantize` recovers from the rounded product or quotient. */
  predicate NearestAway(v: nat, n: nat, d: pos) {
    (2 * v - 1) * d <= 2 * n < (2 * v + 1) * d
  }

  lemma HalfUpIsNearestAway(n: nat, d: pos)
    ensures NearestAway(HalfUp(n, d), n, d)
  {
    var v := HalfUp(n, d);
    DivBounds(2 * n + d, 2 * d);
    assert 2 * d * v == (2 * v) * d;
    assert (2 * v - 1) * d == (2 * v) * d - d;
    assert (2 * v + 1) * d == (2 * v) * d + d;
  }

  lemma NearestAwayUnique(v: nat, w: nat, n: nat, d: pos)
    requires NearestAway(v, n, d) && NearestAway(w, n, d)
    ensures v == w
  {
    Cancel(2 * (v as int) - 1, 2 * w + 1, d);
    Cancel(2 * (w as int) - 1, 2 * v + 1, d);
  }

  lemma DivBounds(a: nat, b: pos)
    ensures b * (a / b) <= a < b * (a / b) + b
  {
  }

  lemma Scale(a: int, b: int, k: nat)
    requires a <= b
    ensures a * k <= b * k
  {
    assert b * k - a * k == (b - a) * k;
  }

  lemma HalfEvenError(n: nat, d: pos)
    ensures 2 * n <= 2 * (HalfEven(n, d) * d) + d
    ensures 2 * (HalfEven(n, d) * d) <= 2 * n + d
    ensures n % d == 0 ==> HalfEven(n, d) * d == n
  {
    var q, r := n / d, n % d;
    assert n == q * d + r;
    assert (q + 1) * d == q * d + d;
  }

  /** Half even is a nearest integer, and of the two nearest ones at a tie the even one. */
  lemma HalfEvenExactly(n: nat, d: pos)
    ensures var v := HalfEven(n, d);
            && 2 * (v * d) - d <= 2 * n <= 2 * (v * d) + d
            && (2 * n == 2 * (v * d) - d || 2 * n == 2 * (v * d) + d ==> v % 2 == 0)
  {
    var q, r := n / d, n % d;
    HalfEvenError(n, d);
    assert n == q * d + r;
    assert (q + 1) * d == q * d + d;
  }

  /** The rounding argument behind every two-step rounding here: a value within half a unit of the
      scaled quotient lands in the same half-open interval once the scale exceeds the denominator,
      and a tie is represented exactly. */
  lemma DoubleRounding(n: nat, d: pos, scale: pos, q: nat)
    requires scale > d && scale % 2 == 0
    requires q == HalfEven(n * scale, d)
    ensures HalfUp(q, scale) == HalfUp(n, d)
  {
    hide HalfUp; hide HalfEven;
    var v := HalfUp(n, d);
    HalfUpIsNearestAway(n, d);
    HalfEvenError(n * scale, d);
    StaysBelow(n, d, scale, q, 2 * v + 1);
    if 2 * n == (2 * v - 1) * d {
      TieIsExact(n, d, scale / 2, q, 2 * v - 1);
    } else {
      StaysAbove(n, d, scale, q, 2 * v - 1);
    }
    HalfUpIsNearestAway(q, scale);
    NearestAwayUnique(HalfUp(q, scale), v, q, scale);
  }

  /** 2n <= k*d - 1 leaves a slack of `scale`, more than the division error d. */
  lemma StaysBelow(n: nat, d: pos, scale: pos, q: nat, k: int)
    requires scale > d && 2 * n < k * d && 2 * (q * d) <= 2 * (n * scale) + d
    ensures 2 * q < k * scale
  {
    Scale(2 * n + 1, k * d, scale);
    assert (2 * n + 1) * scale == 2 * (n * scale) + scale;
    assert (k * d) * scale == (k * scale) * d;
    assert (2 * q) * d == 2 * (q * d);
    Cancel(2 * q, k * scale, d);
  }

  lemma StaysAbove(n: nat, d: pos, scale: pos, q: nat, k: int)
    requires scale > d && k * d < 2 * n && 2 * (n * scale) <= 2 * (q * d) + d
    ensures k * scale <= 2 * q
  {
    Scale(k * d + 1, 2 * n, scale);
    assert (k * d + 1) * scale == (k * scale) * d + scale;
    assert (2 * n) * scale == 2 * (n * scale);
    assert (2 * q) * d == 2 * (q * d);
    Cancel(k * scale, 2 * q, d);
  }

  /** A tie n/d = k/2 has an exact image k*scale/2 because the scale is even. */
  lemma TieIsExact(n: nat, d: pos, half: pos, q: nat, k: int)
    requires 2 * n == k * d
    requires q == HalfEven(n * (2 * half), d)
    ensures 2 * q == k * (2 * half)
  {
    hide HalfEven;
    assert n * (2 * half) == (2 * n) * half;
    Shuffle(half, k, d);
    assert (2 * n) * half == half * (k * d);
    assert k * (2 * half) == 2 * (half * k);
    ExactMultiple(half * k, d);
    HalfEvenError(n * (2 * half), d);
    CancelEq(q, half * k, d);
  }

  lemma Shuffle(a: int, b: int, c: int)
    ensures a * (b * c) == (a * b) * c
  {
  }

  lemma Cancel(a: int, b: int, d: pos)
    requires a * d < b * d
    ensures a < b
  {
    if a >= b { Scale(b, a, d); }
  }

  lemma CancelEq(a: int, b: int, d: pos)
    requires a * d == b * d
    ensures a == b
  {
    if a > b { ScaleStrictly(b, a, d); }
    if a < b { ScaleStrictly(a, b, d); }
  }

  lemma ScaleStrictly(a: int, b: int, k: pos)
    requires a < b
    ensures a * k < b * k
  {
    Scale(a + 1, b, k);
    assert (a + 1) * k == a * k + k;
  }

  lemma ExactMultiple(k: int, d: pos)
    ensures (k * d) % d == 0
  {
    var r, q := (k * d) % d, (k * d) / d;
    assert k * d == q * d + r;
    assert (k - q) * d == r;
    Cancel(k - q, 1, d);
    Cancel(-1, k - q, d);
  }

  /** Rounding a rational does not depend on whether the fraction was reduced first. */
  lemma HalfUpReduced(n: nat, d: pos, g: pos)
    ensures HalfUp(g * n, g * d) == HalfUp(n, d)
  {
    hide HalfUp;
    var v := HalfUp(n, d);
    HalfUpIsNearestAway(n, d);
    HalfUpIsNearestAway(g * n, g * d);
    ScaledBound(2 * (v as int) - 1, d, 2 * n, g);
    ScaledBound(2 * n + 1, 1, (2 * v + 1) * d, g);
    ScaledTop(2 * v + 1, d, g);
    NearestAwayUnique(HalfUp(g * n, g * d), v, g * n, g * d);
  }

  lemma ScaledBound(a: int, d: int, b: int, g: pos)
    requires a * d <= b
    ensures a * (g * d) <= g * b
  {
    Scale(a * d, b, g);
    Shuffle(a, d, g);
  }

  lemma ScaledTop(a: int, d: int, g: pos)
    ensures g * (a * d) == a * (g * d)
  {
    Shuffle(g, a, d);
    Shuffle(a, g, d);
  }

  lemma {:induction false} Pow10Mono(a: nat, b: nat)
    requires a <= b
    ensures Pow10(a) <= Pow10(b)
  {
    if a < b { Pow10Mono(a, b - 1); }
  }

  lemma Pow10Constants()
    ensures Pow10(17) == 100000000000000000
    ensures Pow10(18) == 1000000000000000000
  {
    assert Pow10(3) == 1000;
    assert Pow10(6) == 1000000;
    assert Pow10(9) == 1000000000;
    assert Pow10(12) == 1000000000000;
    assert Pow10(15) == 1000000000000000;
  }

  lemma TooFewPlaces(n: pos, d: pos, p: pos)
    requires n < 10000000000 * d && p <= 100000000000000000
    ensures n * p < CONTEXT_FLOOR * d
  {
    Scale(p, 100000000000000000, n);
  }

  lemma AtMost17(e: nat)
    requires e <= 17
    ensures Pow10(e) <= 100000000000000000
  {
    Pow10Mono(e, 17);
    Pow10Constants();
  }

  /** Dividing magnitudes below 10**10 at 28 digits keeps at least 18 decimal places. */
  lemma EnoughPlaces(n: pos, d: pos, e: nat)
    requires n < 10000000000 * d && n * Pow10(e) >= CONTEXT_FLOOR * d
    ensures Pow10(e) >= Pow10(18) && Pow10(e) % 2 == 0
  {
    hide Pow10;
    if e <= 17 {
      AtMost17(e);
      TooFewPlaces(n, d, Pow10(e));
    }
    Pow10Mono(18, e);
    EvenFromOne(e);
  }

  lemma EvenFromOne(e: pos)
    ensures Pow10(e) % 2 == 0
  {
  }

  /** `Decimal(n) / Decimal(d)` as (coefficient, places): the quotient rounded half even to 28 digits.
      Callers stay below 28 integer digits. */
  function Divide(n: nat, d: pos): (r: (nat, nat))
  {
    if n == 0 then (0, 0) else var e := Shift(n, d); (HalfEven(n * Pow10(e), d), e)
  }

  /** The quotient is the exact one to 28 significant digits: its coefficient lies between 10**27 and 10**28 and is a
      nearest integer to the shifted quotient. */
  lemma DivideHas28Digits(n: pos, d: pos)
    requires n < 1000000000000000000000000000 * d
    ensures var (q, e) := Divide(n, d);
            && 1000000000000000000000000000 <= q <= 10000000000000000000000000000
            && 2 * (q * d) - d <= 2 * (n * Pow10(e)) <= 2 * (q * d) + d
  {
    hide HalfEven; hide Pow10;
    var e := Shift(n, d);
    var m := n * Pow10(e);
    var q := HalfEven(m, d);
    HalfEvenExactly(m, d);
    NearestInRange(q, m, d, 1000000000000000000000000000, 10000000000000000000000000000) by {
      if e == 0 { PowerOfNought(); } else { ShiftGrows(n, e - 1); }
    }
  }

  lemma PowerOfNought()
    ensures Pow10(0) == 1
  {
  }

  lemma NearestInRange(q: nat, m: nat, d: pos, low: nat, high: nat)
    requires 2 * (q * d) - d <= 2 * m <= 2 * (q * d) + d && low * d <= m <= high * d
    ensures low <= q <= high
  {
    assert (2 * q + 1) * d == 2 * (q * d) + d && (2 * q - 1) * d == 2 * (q * d) - d;
    assert (2 * low) * d == 2 * (low * d) && (2 * high) * d == 2 * (high * d);
    assert (2 * q + 2) * d == 2 * (q * d) + 2 * d && (2 * high + 1) * d == 2 * (high * d) + d;
    Cancel(2 * low, 2 * q + 2, d);
    Cancel(2 * q - 1, 2 * high + 1, d);
  }

  /** Dividing in the 28-digit context and then rounding half up to a whole number gives the same
      answer as rounding the exact quotient once. */
  lemma DivideThenQuantize(n: nat, d: pos)
    requires n < 10000000000 * d && d < 1000000000000000000
    ensures var (q, e) := Divide(n, d); HalfUp(q, Pow10(e)) == HalfUp(n, d)
  {
    if n != 0 {
      var e := Shift(n, d);
      EnoughPlaces(n, d, e);
      Pow10Constants();
      DoubleRounding(n, d, Pow10(e), HalfEven(n * Pow10(e), d));
    } else {
      assert d / (2 * d) == 0 by { DivBounds(d, 2 * d); }
    }
  }
}
