/** The retry delay of a failed delivery (internal/webhook/worker.go, markFailed), in nanoseconds,
    with the float64 arithmetic that computes it. */
module Backoff {
  import opened Base
  import opened Floats

  const SECOND: int := 1_000_000_000
  const INT64_LIMIT: int := 0x8000_0000_0000_0000

  /** Config, with a whole-number backoff factor. */
  datatype Config = Config(maxAttempts: int, initialDelay: nat, maxDelay: nat, factor: nat)

  const DEFAULT: Config := Config(10, 5 * SECOND, 3600 * SECOND, 2)

  predicate WellFormed(c: Config) {
    c.initialDelay <= c.maxDelay < INT64_LIMIT && c.factor >= 1
  }

  /** float64(InitialDelay) * math.Pow(BackoffFactor, attempts - 1). */
  function Product(c: Config, attempts: int): (p: Float)
    requires attempts >= 1
  {
    Times(ToFloat(c.initialDelay), ToFloat(Pow(c.factor, attempts - 1)))
  }

  predicate Fits(f: Float) { f.Finite? && f.value < INT64_LIMIT }

  /** time.Duration of a float64: a value that does not fit becomes the least int64 on amd64. */
  function ToDuration(f: Float): (d: int)
  {
    if Fits(f) then f.value else -INT64_LIMIT
  }

  function Delay(c: Config, attempts: int): (d: int)
    requires attempts >= 1
  {
    var d := ToDuration(Product(c, attempts));
    if d > c.maxDelay then c.maxDelay else d
  }

  lemma ProductGrows(c: Config, a: int, b: int)
    requires WellFormed(c) && 1 <= a <= b
    ensures AtMost(Product(c, a), Product(c, b))
  {
    PowGrows(c.factor, a - 1, b - 1);
    ToFloatGrows(Pow(c.factor, a - 1), Pow(c.factor, b - 1));
    TimesGrows(ToFloat(c.initialDelay), ToFloat(Pow(c.factor, a - 1)), ToFloat(Pow(c.factor, b - 1)));
  }

  /** A later attempt waits at least as long as an earlier one exactly when its product fits, or
      neither does. */
  lemma DelayGrows(c: Config, a: int, b: int)
    requires WellFormed(c) && 1 <= a <= b
    ensures Delay(c, a) <= Delay(c, b) <==> Fits(Product(c, b)) || !Fits(Product(c, a))
  {
    ProductGrows(c, a, b);
  }

  // ----- The range of a delay -----

  lemma FiniteProduct(c: Config, attempts: int)
    requires attempts >= 1 && Product(c, attempts).Finite?
    ensures Product(c, attempts) == Finite(Round(Round(c.initialDelay) * Round(Pow(c.factor, attempts - 1))))
  {
  }

  /** When the power is one, the product is the first delay as a float64. */
  lemma PlainProduct(x: nat)
    ensures Round(Round(x) * Round(1)) == Round(x)
  {
    RoundIsExact(1);
    RoundIsIdempotent(x);
  }

  /** Doubling makes up for what rounding takes off. */
  lemma RaisedProduct(x: nat, p: nat)
    requires p >= 2
    ensures Round(Round(x) * Round(p)) >= x
  {
    RoundIsExact(2);
    RoundGrows(2, p);
    Scaled(Round(x), 2, Round(p));
    RoundIsClose(x);
    RoundIsClose(Round(x) * Round(p));
  }

  /** The delay lies between the two configured delays exactly when the product, as a float64, fits
      an int64, and the first delay is not rounded down or is multiplied by two or more. */
  lemma DelayInRange(c: Config, attempts: int)
    requires WellFormed(c) && attempts >= 1
    ensures c.initialDelay <= Delay(c, attempts) <= c.maxDelay
       <==> Fits(Product(c, attempts)) && (Round(c.initialDelay) >= c.initialDelay || Pow(c.factor, attempts - 1) >= 2)
  {
    PowGrows(c.factor, 0, attempts - 1);
    if Fits(Product(c, attempts)) {
      FiniteProduct(c, attempts);
      if Pow(c.factor, attempts - 1) >= 2 {
        RaisedProduct(c.initialDelay, Pow(c.factor, attempts - 1));
      } else {
        PlainProduct(c.initialDelay);
      }
    }
  }

  /** A first delay of at most 2^53 ns (104 days) is not rounded, so only overflow can go wrong. */
  lemma ShortDelayInRange(c: Config, attempts: int)
    requires WellFormed(c) && attempts >= 1 && c.initialDelay <= PRECISION
    ensures c.initialDelay <= Delay(c, attempts) <= c.maxDelay <==> Fits(Product(c, attempts))
  {
    RoundIsExact(c.initialDelay);
    DelayInRange(c, attempts);
  }

  // ----- Inputs that leave the range -----

  /** A configuration with the default delays and more than 32 attempts reaches a product that does
      not fit: the delay is then the least int64, far below zero, and the retry is due at once. */
  lemma DelayCanOverflow()
    ensures WellFormed(DEFAULT) && Delay(DEFAULT.(maxAttempts := 40), 32) == -INT64_LIMIT < 0
  {
    LargePowers();
    SmallIsExact(DEFAULT.initialDelay);
    SmallIsExact(0x8000_0000);
    RoundIsClose(DEFAULT.initialDelay * 0x8000_0000);
  }

  /** 2^53 + 1 ns is rounded down, below itself. */
  lemma RoundingFallsShort()
    ensures var c := Config(10, PRECISION + 1, PRECISION + 1, 2);
            WellFormed(c) && Delay(c, 1) == PRECISION < c.initialDelay
  {
    RoundOfNext();
    FirstDelay(Config(10, PRECISION + 1, PRECISION + 1, 2));
  }

  lemma RoundOfNext()
    ensures Round(PRECISION + 1) == PRECISION
  {
    assert Spacing(PRECISION + 1) == 2;
  }

  /** 2^63 - 1 ns, the longest delay there is, is rounded up, out of range. */
  lemma RoundingOverflows()
    ensures var c := Config(10, INT64_LIMIT - 1, INT64_LIMIT - 1, 2);
            WellFormed(c) && Delay(c, 1) == -INT64_LIMIT
  {
    RoundOfMax();
    FirstDelay(Config(10, INT64_LIMIT - 1, INT64_LIMIT - 1, 2));
  }

  lemma FirstDelay(c: Config)
    requires Exponent(Round(c.initialDelay)) <= MAX_EXPONENT
    ensures Product(c, 1) == Finite(Round(c.initialDelay))
  {
    SmallIsExact(1);
    RoundIsIdempotent(c.initialDelay);
  }

  lemma RoundOfMax()
    ensures Round(INT64_LIMIT - 1) == INT64_LIMIT
  {
    assert Spacing(PRECISION - 1) == 1;
    assert Spacing(2 * PRECISION - 1) == 2;
    assert Spacing(4 * PRECISION - 1) == 4;
    assert Spacing(8 * PRECISION - 1) == 8;
    assert Spacing(16 * PRECISION - 1) == 16;
    assert Spacing(32 * PRECISION - 1) == 32;
    assert Spacing(64 * PRECISION - 1) == 64;
    assert Spacing(128 * PRECISION - 1) == 128;
    assert Spacing(256 * PRECISION - 1) == 256;
    assert Spacing(512 * PRECISION - 1) == 512;
    assert Spacing(1024 * PRECISION - 1) == 1024;
  }

  /** As long as the arithmetic is exact the delay is InitialDelay times the factor for each attempt
      after the first, up to MaxDelay. */
  lemma ExactDelay(c: Config, attempts: int)
    requires WellFormed(c) && attempts >= 1
    requires c.initialDelay <= PRECISION && Pow(c.factor, attempts - 1) <= PRECISION
    requires c.initialDelay * Pow(c.factor, attempts - 1) <= PRECISION
    ensures var exact := c.initialDelay * Pow(c.factor, attempts - 1);
            Delay(c, attempts) == if exact > c.maxDelay then c.maxDelay else exact
  {
    SmallIsExact(c.initialDelay);
    SmallIsExact(Pow(c.factor, attempts - 1));
    SmallIsExact(c.initialDelay * Pow(c.factor, attempts - 1));
  }

  // ----- The defaults -----

  /** With the defaults every product is a whole number below 2^53, computed exactly, and below the
      cap. */
  lemma DefaultDelays(attempts: int)
    requires 1 <= attempts < DEFAULT.maxAttempts
    ensures 5 * SECOND * Pow(2, attempts - 1) < PRECISION
    ensures Delay(DEFAULT, attempts) == 5 * SECOND * Pow(2, attempts - 1) < DEFAULT.maxDelay
  {
    SmallPowers();
    PowGrows(2, attempts - 1, 8);
    SmallIsExact(DEFAULT.initialDelay);
    SmallIsExact(Pow(2, attempts - 1));
    SmallIsExact(5 * SECOND * Pow(2, attempts - 1));
  }

  /** The default delays start at 5 s and double. */
  lemma DefaultsDouble(attempts: int)
    requires 1 <= attempts && attempts + 1 < DEFAULT.maxAttempts
    ensures Delay(DEFAULT, 1) == 5_000_000_000
    ensures Delay(DEFAULT, attempts + 1) == 2 * Delay(DEFAULT, attempts)
    ensures DEFAULT.maxAttempts == 10 && DEFAULT.maxDelay == 3_600_000_000_000
  {
    DefaultDelays(1);
    DefaultDelays(attempts);
    DefaultDelays(attempts + 1);
  }

  /** The delays after the first n attempts, added up. */
  function TotalDelay(c: Config, n: nat): (d: int)
  {
    if n == 0 then 0 else TotalDelay(c, n - 1) + Delay(c, n)
  }

  /** Each of the first n delays is twice the one before, from 5 s on. */
  ghost predicate Doubles(c: Config, n: nat) {
    forall k :: 1 <= k <= n ==> Delay(c, k) == 5 * SECOND * Pow(2, k - 1)
  }

  lemma {:induction false} DoublingTotal(c: Config, n: nat)
    requires Doubles(c, n)
    ensures TotalDelay(c, n) == 5 * SECOND * (Pow(2, n) - 1)
  {
    if n > 0 {
      DoublingTotal(c, n - 1);
    }
  }

  lemma DefaultDoubles(n: nat)
    requires n < DEFAULT.maxAttempts
    ensures Doubles(DEFAULT, n)
  {
    forall k | 1 <= k <= n ensures Delay(DEFAULT, k) == 5 * SECOND * Pow(2, k - 1) {
      DefaultDelays(k);
    }
  }

  lemma BoundedPower(n: nat)
    requires n <= 9
    ensures 5 * SECOND * (Pow(2, n) - 1) <= 2555 * SECOND
  {
    SmallPowers();
    PowGrows(2, n, 9);
  }

  /** With the defaults all retry delays of an event add up to at most 2555 s. */
  lemma DefaultTotal(n: nat)
    requires n < DEFAULT.maxAttempts
    ensures TotalDelay(DEFAULT, n) == 5 * SECOND * (Pow(2, n) - 1) <= 2555 * SECOND
  {
    DefaultDoubles(n);
    DoublingTotal(DEFAULT, n);
    BoundedPower(n);
  }
}
