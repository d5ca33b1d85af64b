/** Whole numbers in a float64: 53 bits of precision, rounding to nearest with ties to even, and
    an exponent that ends at 2^1024. */
module Floats {
  import opened Base

  /** Below 2^53 every whole number is a float64. */
  const PRECISION: nat := 0x20_0000_0000_0000

  /** The distance of neighbouring float64 values around x. */
  function Spacing(x: nat): (s: nat)
    ensures s >= 1
  {
    if x < PRECISION then 1 else 2 * Spacing(x / 2)
  }

  /** Of the neighbours q * s and (q + 1) * s the one nearer to q * s + r, the even one in between. */
  function Snap(q: nat, r: nat, s: nat): (v: nat)
  {
    if 2 * r < s || (2 * r == s && q % 2 == 0) then q * s else (q + 1) * s
  }

  /** The nearest multiple of s. */
  function ToGrid(x: nat, s: nat): (r: nat)
    requires s >= 1
  {
    Snap(x / s, x % s, s)
  }

  function Round(x: nat): (r: nat)
  {
    ToGrid(x, Spacing(x))
  }

  /** How often x is halved before it is below 2^53. */
  function Exponent(x: nat): (n: nat)
  {
    if x < PRECISION then 0 else 1 + Exponent(x / 2)
  }

  /** Numbers from 2^1024 on have a greater exponent and are infinite. */
  const MAX_EXPONENT: nat := 971

  /** A whole float64. NotFinite is an infinity or not a number. */
  datatype Float = Finite(value: nat) | NotFinite

  function ToFloat(x: nat): (f: Float)
  {
    if Exponent(Round(x)) <= MAX_EXPONENT then Finite(Round(x)) else NotFinite
  }

  /** Infinity times zero is not a number; no product with a NotFinite is finite. */
  function Times(a: Float, b: Float): (f: Float)
  {
    if a.Finite? && b.Finite? then ToFloat(a.value * b.value) else NotFinite
  }

  predicate AtMost(a: Float, b: Float) {
    b.Finite? ==> a.Finite? && a.value <= b.value
  }

  // ----- Spacing -----

  lemma {:induction false} SpacingFits(x: nat)
    ensures x < PRECISION * Spacing(x)
    ensures Spacing(x) > 1 ==> PRECISION / 2 * Spacing(x) <= x
  {
    if x >= PRECISION {
      SpacingFits(x / 2);
    }
  }

  lemma {:induction false} SpacingGrows(x: nat, y: nat)
    requires x <= y
    ensures Spacing(x) == Spacing(y) || 2 * Spacing(x) <= Spacing(y)
  {
    if x >= PRECISION {
      SpacingGrows(x / 2, y / 2);
    }
  }

  // ----- Rounding keeps the order -----

  lemma Multiples(a: int, b: int, s: nat)
    requires a <= b
    ensures a * s <= b * s
  {
  }

  lemma SnapIsNear(q: nat, r: nat, s: nat)
    ensures q * s <= Snap(q, r, s) <= (q + 1) * s == q * s + s
  {
  }

  lemma Decompose(x: nat, s: nat)
    requires s >= 1
    ensures x == x / s * s + x % s && x % s < s
  {
  }

  lemma QuotientBelow(q: nat, r: nat, s: nat, k: nat)
    requires r < s
    ensures q * s + r < k * s ==> q + 1 <= k
    ensures k * s <= q * s + r ==> k <= q
  {
    if k <= q {
      Multiples(k, q, s);
    } else {
      Multiples(q + 1, k, s);
      assert (q + 1) * s == q * s + s;
    }
  }

  lemma SnapGrows(p: nat, r: nat, q: nat, t: nat, s: nat)
    requires r < s && t < s && p * s + r <= q * s + t
    ensures Snap(p, r, s) <= Snap(q, t, s)
  {
    SnapIsNear(p, r, s);
    SnapIsNear(q, t, s);
    if p < q {
      Multiples(p + 1, q, s);
    } else if q < p {
      Multiples(q + 1, p, s);
    }
  }

  lemma GridGrows(x: nat, y: nat, s: nat)
    requires s >= 1 && x <= y
    ensures ToGrid(x, s) <= ToGrid(y, s)
  {
    Decompose(x, s);
    Decompose(y, s);
    SnapGrows(x / s, x % s, y / s, y % s, s);
  }

  lemma GridAtMost(x: nat, s: nat, k: nat)
    requires s >= 1 && x < k * s
    ensures ToGrid(x, s) <= k * s
  {
    Decompose(x, s);
    QuotientBelow(x / s, x % s, s, k);
    SnapIsNear(x / s, x % s, s);
    Multiples(x / s + 1, k, s);
  }

  lemma GridAtLeast(x: nat, s: nat, k: nat)
    requires s >= 1 && k * s <= x
    ensures k * s <= ToGrid(x, s)
  {
    Decompose(x, s);
    QuotientBelow(x / s, x % s, s, k);
    SnapIsNear(x / s, x % s, s);
    Multiples(k, x / s, s);
  }

  /** Rounding never swaps two numbers. */
  lemma RoundGrows(x: nat, y: nat)
    requires x <= y
    ensures Round(x) <= Round(y)
  {
    SpacingFits(x);
    SpacingFits(y);
    SpacingGrows(x, y);
    if Spacing(x) == Spacing(y) {
      GridGrows(x, y, Spacing(x));
    } else {
      GridAtMost(x, Spacing(x), PRECISION);
      GridAtLeast(y, Spacing(y), PRECISION / 2);
    }
  }

  // ----- How far it moves a number -----

  lemma RoundIsExact(x: nat)
    requires x <= PRECISION
    ensures Round(x) == x
  {
  }

  lemma GridIsClose(x: nat, s: nat)
    requires s >= 1
    ensures x < ToGrid(x, s) + s
  {
    Decompose(x, s);
    SnapIsNear(x / s, x % s, s);
  }

  /** Rounding takes off no more than one part in 2^52. */
  lemma RoundIsClose(x: nat)
    ensures PRECISION / 2 * (x - Round(x)) <= x
  {
    SpacingFits(x);
    if Spacing(x) == 1 {
      assert x < PRECISION;
      RoundIsExact(x);
    } else {
      GridIsClose(x, Spacing(x));
    }
  }

  lemma Swap(a: int, b: int, c: int)
    ensures a * (b * c) == b * (a * c)
  {
  }

  lemma SnapDoubles(q: nat, r: nat, s: nat)
    ensures Snap(q, 2 * r, 2 * s) == 2 * Snap(q, r, s)
  {
    Swap(q, 2, s);
    Swap(q + 1, 2, s);
  }

  lemma SameQuotient(s: nat, q: nat, r: nat, p: nat, t: nat)
    requires r < s && t < s && q * s + r == p * s + t
    ensures q == p && r == t
  {
    QuotientBelow(q, r, s, p);
    QuotientBelow(p, t, s, q);
  }

  lemma GridIsSnap(x: nat, s: nat, q: nat, r: nat)
    requires x == q * s + r && r < s
    ensures ToGrid(x, s) == Snap(q, r, s)
  {
    Decompose(x, s);
    SameQuotient(s, q, r, x / s, x % s);
  }

  lemma GridDoubles(s: nat, q: nat, r: nat)
    requires r < s
    ensures ToGrid(2 * (q * s + r), 2 * s) == 2 * ToGrid(q * s + r, s)
  {
    Swap(q, 2, s);
    GridIsSnap(q * s + r, s, q, r);
    GridIsSnap(2 * (q * s + r), 2 * s, q, 2 * r);
    SnapDoubles(q, r, s);
  }

  lemma RoundDoubles(x: nat)
    requires 2 * x >= PRECISION
    ensures Round(2 * x) == 2 * Round(x)
  {
    assert Spacing(2 * x) == 2 * Spacing(x);
    Decompose(x, Spacing(x));
    GridDoubles(Spacing(x), x / Spacing(x), x % Spacing(x));
  }

  /** The multiples of x's spacing with up to 53 bits are float64 values. */
  lemma {:induction false} GridIsFixed(x: nat, k: nat)
    requires k <= PRECISION && (Spacing(x) > 1 ==> k >= PRECISION / 2)
    ensures Round(k * Spacing(x)) == k * Spacing(x)
  {
    if x < PRECISION {
      RoundIsExact(k);
    } else {
      var s := Spacing(x / 2);
      GridIsFixed(x / 2, k);
      assert k * Spacing(x) == 2 * (k * s);
      Scaled(k, 1, s);
      RoundDoubles(k * s);
    }
  }

  lemma QuotientRange(x: nat, s: nat)
    requires s >= 1 && x < PRECISION * s && (s > 1 ==> PRECISION / 2 * s <= x)
    ensures x / s < PRECISION && (s > 1 ==> PRECISION / 2 <= x / s)
  {
    Decompose(x, s);
    QuotientBelow(x / s, x % s, s, PRECISION);
    QuotientBelow(x / s, x % s, s, PRECISION / 2);
  }

  /** A rounded number is a float64: rounding it again changes nothing. */
  lemma RoundIsIdempotent(x: nat)
    ensures Round(Round(x)) == Round(x)
  {
    SpacingFits(x);
    QuotientRange(x, Spacing(x));
    GridIsFixed(x, x / Spacing(x));
    if Round(x) != x / Spacing(x) * Spacing(x) {
      GridIsFixed(x, x / Spacing(x) + 1);
    }
  }

  // ----- Floats -----

  lemma {:induction false} ExponentGrows(x: nat, y: nat)
    requires x <= y
    ensures Exponent(x) <= Exponent(y)
  {
    if x >= PRECISION {
      ExponentGrows(x / 2, y / 2);
    }
  }

  lemma ToFloatGrows(x: nat, y: nat)
    requires x <= y
    ensures AtMost(ToFloat(x), ToFloat(y))
  {
    RoundGrows(x, y);
    ExponentGrows(Round(x), Round(y));
  }

  lemma TimesGrows(a: Float, b: Float, c: Float)
    requires AtMost(b, c)
    ensures AtMost(Times(a, b), Times(a, c))
  {
    if a.Finite? && c.Finite? {
      Scaled(a.value, b.value, c.value);
      ToFloatGrows(a.value * b.value, a.value * c.value);
    }
  }

  lemma SmallIsExact(x: nat)
    requires x <= PRECISION
    ensures ToFloat(x) == Finite(x)
  {
    RoundIsExact(x);
  }

  lemma {:induction false} PowAdds(b: nat, m: nat, n: nat)
    ensures Pow(b, m + n) == Pow(b, m) * Pow(b, n)
  {
    if n > 0 {
      PowAdds(b, m, n - 1);
      Swap(b, Pow(b, m), Pow(b, n - 1));
    }
  }

  lemma SmallPowers()
    ensures Pow(2, 1) == 2 && Pow(2, 8) == 256 && Pow(2, 9) == 512
  {
    PowAdds(2, 2, 2);
    PowAdds(2, 4, 4);
    PowAdds(2, 8, 1);
  }

  lemma LargePowers()
    ensures Pow(2, 31) == 0x8000_0000
  {
    SmallPowers();
    PowAdds(2, 8, 8);
    PowAdds(2, 16, 8);
    PowAdds(2, 4, 2);
    PowAdds(2, 6, 1);
    PowAdds(2, 24, 7);
  }
}
