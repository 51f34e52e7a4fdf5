/** The stored linear congruential generator behind RandomInt32: its step has the
    full period 2^32, so within a cycle no state repeats. */
module Random {
  import opened Common
  import opened Decimal

  const MODULUS: nat := 0x1_0000_0000
  const MULTIPLIER: nat := 1664525
  const INCREMENT: nat := 1013904223
  const BILLION: nat := 1_000_000_000

  /** r*1664525 + 1013904223 on uint32. */
  function Step(r: nat): (next: nat)
    ensures next < MODULUS
  {
    (r * MULTIPLIER + INCREMENT) % MODULUS
  }

  function Orbit(r: nat, n: nat): nat {
    if n == 0 then r else Step(Orbit(r, n - 1))
  }

  /** 1 + a + ... + a^(n-1). */
  function Geometric(a: nat, n: nat): nat {
    if n == 0 then 0 else Geometric(a, n - 1) + Pow(a, n - 1)
  }

  // ----- the orbit in closed form

  /** The same recurrence without reduction. */
  function Unreduced(r: nat, n: nat): nat {
    if n == 0 then r else Unreduced(r, n - 1) * MULTIPLIER + INCREMENT
  }

  lemma {:induction false} OrbitIsReduced(r: nat, n: nat)
    requires r < MODULUS
    ensures Orbit(r, n) == Unreduced(r, n) % MODULUS
  {
    if n > 0 {
      OrbitIsReduced(r, n - 1);
      StepIsReduced(Unreduced(r, n - 1));
    }
  }

  lemma StepIsReduced(u: nat)
    ensures Step(u % MODULUS) == (u * MULTIPLIER + INCREMENT) % MODULUS
  {
    var q, v := u / MODULUS, u % MODULUS;
    assert (q * MODULUS + v) * MULTIPLIER == v * MULTIPLIER + (q * MULTIPLIER) * MODULUS;
    Reduced(v * MULTIPLIER + INCREMENT, q * MULTIPLIER);
  }

  lemma Reduced(x: nat, t: nat)
    ensures (x + t * MODULUS) % MODULUS == x % MODULUS
  {
    SameRemainder(x + t * MODULUS, x / MODULUS + t, x % MODULUS);
  }

  lemma SameRemainder(x: nat, q: nat, r: nat)
    requires x == q * 0x1_0000_0000 + r && r < 0x1_0000_0000
    ensures x % 0x1_0000_0000 == r
  {
  }

  /** Unreduced(r, n) - r is the geometric sum times an odd number. */
  lemma {:induction false} UnreducedGap(r: nat, n: nat)
    ensures Unreduced(r, n) == r + Geometric(MULTIPLIER, n) * ((MULTIPLIER - 1) * r + INCREMENT)
  {
    if n > 0 {
      UnreducedGap(r, n - 1);
      GeometricShift(MULTIPLIER, n - 1);
      GapAlgebra(r, Geometric(MULTIPLIER, n - 1), (MULTIPLIER - 1) * r + INCREMENT);
    }
  }

  lemma GapAlgebra(r: nat, s: nat, w: nat)
    requires w == (MULTIPLIER - 1) * r + INCREMENT
    ensures (r + s * w) * MULTIPLIER + INCREMENT == r + (1 + s * MULTIPLIER) * w
  {
    assert (1 + s * MULTIPLIER) * w == w + (s * w) * MULTIPLIER;
  }

  lemma {:induction false} GeometricShift(a: nat, n: nat)
    ensures Geometric(a, n + 1) == 1 + Geometric(a, n) * a
  {
    if n > 0 {
      GeometricShift(a, n - 1);
      assert Geometric(a, n) * a == Geometric(a, n - 1) * a + Pow(a, n - 1) * a by {
        assert (Geometric(a, n - 1) + Pow(a, n - 1)) * a == Geometric(a, n - 1) * a + Pow(a, n - 1) * a;
      }
    }
  }

  // ----- the 2-adic valuation of the geometric sum

  function Pow2(k: nat): (p: nat)
    ensures p >= 1
  {
    if k == 0 then 1 else 2 * Pow2(k - 1)
  }

  ghost predicate Divides(d: nat, x: nat) { exists q: nat :: x == q * d }

  /** Powers of a number that is 1 modulo 4 are 1 modulo 4. */
  lemma {:induction false} PowMod4(a: nat, b: nat, n: nat) returns (q: nat)
    requires a == 4 * b + 1
    ensures Pow(a, n) == 4 * q + 1
  {
    if n == 0 {
      q := 0;
    } else {
      var p := PowMod4(a, b, n - 1);
      q := 4 * (b * p) + b + p;
      assert (4 * b + 1) * (4 * p + 1) == 4 * q + 1;
    }
  }

  lemma {:induction false} PowAdd(a: nat, m: nat, n: nat)
    ensures Pow(a, m + n) == Pow(a, m) * Pow(a, n)
  {
    if n > 0 {
      PowAdd(a, m, n - 1);
      SwapFactors(a, Pow(a, m), Pow(a, n - 1));
    }
  }

  lemma SwapFactors(a: nat, x: nat, y: nat)
    ensures a * (x * y) == x * (a * y)
  {
  }

  lemma {:induction false} GeometricAdd(a: nat, m: nat, n: nat)
    ensures Geometric(a, m + n) == Geometric(a, m) + Pow(a, m) * Geometric(a, n)
  {
    if n > 0 {
      GeometricAdd(a, m, n - 1);
      PowAdd(a, m, n - 1);
      assert Pow(a, m) * (Geometric(a, n - 1) + Pow(a, n - 1)) == Pow(a, m) * Geometric(a, n - 1) + Pow(a, m) * Pow(a, n - 1);
    }
  }

  /** The sum of n odd numbers has the parity of n. */
  lemma {:induction false} GeometricParity(a: nat, b: nat, n: nat) returns (h: nat)
    requires a == 4 * b + 1
    ensures Geometric(a, n) == n + 2 * h
  {
    if n == 0 {
      h := 0;
    } else {
      var g := GeometricParity(a, b, n - 1);
      var q := PowMod4(a, b, n - 1);
      h := g + 2 * q;
    }
  }

  lemma HalfOfDouble(d: nat, x: nat)
    ensures Divides(2 * d, 2 * x) <==> Divides(d, x)
  {
    if Divides(2 * d, 2 * x) {
      var q: nat :| 2 * x == q * (2 * d);
      assert q * (2 * d) == 2 * (q * d);
      assert x == q * d;
    }
    if Divides(d, x) {
      var q: nat :| x == q * d;
      assert 2 * x == q * (2 * d);
    }
  }

  /** The factor 2j + 1 does not change divisibility by a power of two. */
  lemma {:induction false} OddFactor(k: nat, x: nat, j: nat)
    ensures Divides(Pow2(k), x * (2 * j + 1)) <==> Divides(Pow2(k), x)
  {
    var odd := 2 * j + 1;
    if k == 0 {
      assert x == x * Pow2(0) && x * odd == (x * odd) * Pow2(0);
    } else if x % 2 == 0 {
      var h := x / 2;
      DoubleInside(odd, h);
      assert x * odd == 2 * (h * odd) by { assert odd * (2 * h) == x * odd; }
      OddFactor(k - 1, h, j);
      HalfOfDouble(Pow2(k - 1), h);
      HalfOfDouble(Pow2(k - 1), h * odd);
    } else {
      var h := x / 2;
      assert (2 * h + 1) * (2 * j + 1) == 2 * (2 * (h * j) + h + j) + 1;
      OddNotDivisible(k, x, h);
      OddNotDivisible(k, x * odd, 2 * (h * j) + h + j);
    }
  }

  lemma OddNotDivisible(k: nat, x: nat, h: nat)
    requires k > 0 && x == 2 * h + 1
    ensures !Divides(Pow2(k), x)
  {
    forall q: nat ensures x != q * Pow2(k) {
      DoubleInside(q, Pow2(k - 1));
    }
  }

  lemma DoubleInside(q: nat, p: nat)
    ensures q * (2 * p) == 2 * (q * p)
  {
  }

  lemma FactorTwo(g: nat, q: nat)
    ensures g + (4 * q + 1) * g == 2 * (g * (2 * q + 1))
  {
  }

  /** For a multiplier that is 1 modulo 4 the geometric sum of n terms has exactly
      as many factors 2 as n itself. */
  lemma {:induction false} GeometricValuation(a: nat, b: nat, k: nat, n: nat)
    requires a == 4 * b + 1
    ensures Divides(Pow2(k), Geometric(a, n)) <==> Divides(Pow2(k), n)
  {
    if k == 0 {
      assert n == n * Pow2(0) && Geometric(a, n) == Geometric(a, n) * Pow2(0);
    } else if n % 2 == 1 {
      var h := GeometricParity(a, b, n);
      OddNotDivisible(k, n, n / 2);
      OddNotDivisible(k, Geometric(a, n), n / 2 + h);
    } else {
      var m := n / 2;
      GeometricAdd(a, m, m);
      var q := PowMod4(a, b, m);
      FactorTwo(Geometric(a, m), q);
      HalfOfDouble(Pow2(k - 1), Geometric(a, m) * (2 * q + 1));
      OddFactor(k - 1, Geometric(a, m), q);
      GeometricValuation(a, b, k - 1, m);
      HalfOfDouble(Pow2(k - 1), m);
    }
  }

  // ----- the full period

  lemma ModulusIsPow2()
    ensures Pow2(32) == MODULUS
  {
    assert Pow2(8) == 0x100;
    assert Pow2(16) == 0x1_0000;
    assert Pow2(24) == 0x100_0000;
    assert Pow2(32) == 0x1_0000_0000;
  }

  /** MULTIPLIER - 1 is even and INCREMENT is odd. */
  lemma OddWeight(r: nat) returns (j: nat)
    ensures (MULTIPLIER - 1) * r + INCREMENT == 2 * j + 1
  {
    j := 832262 * r + 506952111;
  }

  /** The orbit is back at its start exactly after the multiples of 2^32. */
  lemma PeriodFromStart(r: nat, n: nat)
    requires r < MODULUS
    ensures Orbit(r, n) == r <==> Divides(MODULUS, n)
  {
    var a, g := MULTIPLIER, Geometric(MULTIPLIER, n);
    OrbitIsReduced(r, n);
    UnreducedGap(r, n);
    var j := OddWeight(r);
    BackAtStart(r, g * (2 * j + 1));
    ModulusIsPow2();
    OddFactor(32, g, j);
    assert a == 4 * 416131 + 1;
    GeometricValuation(a, 416131, 32, n);
  }

  lemma BackAtStart(r: nat, gap: nat)
    requires r < MODULUS
    ensures (r + gap) % MODULUS == r <==> Divides(MODULUS, gap)
  {
    if (r + gap) % MODULUS == r {
      assert gap == ((r + gap) / MODULUS) * MODULUS;
    }
    if Divides(MODULUS, gap) {
      var q: nat :| gap == q * MODULUS;
      Reduced(r, q);
    }
  }

  lemma {:induction false} OrbitAdd(r: nat, m: nat, n: nat)
    ensures Orbit(r, m + n) == Orbit(Orbit(r, m), n)
  {
    if n > 0 {
      OrbitAdd(r, m, n - 1);
    }
  }

  lemma OrbitBelow(r: nat, n: nat)
    requires r < MODULUS
    ensures Orbit(r, n) < MODULUS
  {
  }

  /** Two points of an orbit are equal exactly when their distance is a multiple of
      2^32. */
  lemma FullPeriod(r: nat, m: nat, n: nat)
    requires r < MODULUS && m <= n
    ensures Orbit(r, m) == Orbit(r, n) <==> Divides(MODULUS, n - m)
  {
    OrbitAdd(r, m, n - m);
    OrbitBelow(r, m);
    PeriodFromStart(Orbit(r, m), n - m);
  }

  ghost function Visited(r: nat, n: nat): set<nat> {
    set i: nat | i < n :: Orbit(r, i)
  }

  lemma {:induction false} VisitedCount(r: nat, n: nat)
    requires r < MODULUS && n <= MODULUS
    ensures |Visited(r, n)| == n
  {
    if n == 0 {
      assert Visited(r, n) == {};
    } else {
      VisitedCount(r, n - 1);
      VisitedGrows(r, n - 1);
      NewlyVisited(r, n - 1);
    }
  }

  lemma VisitedGrows(r: nat, n: nat)
    ensures Visited(r, n + 1) == Visited(r, n) + {Orbit(r, n)}
  {
  }

  lemma NewlyVisited(r: nat, n: nat)
    requires r < MODULUS && n < MODULUS
    ensures Orbit(r, n) !in Visited(r, n)
  {
    forall i: nat | i < n ensures Orbit(r, i) != Orbit(r, n) {
      FullPeriod(r, i, n);
      TooSmallToDivide(n - i);
    }
  }

  lemma TooSmallToDivide(d: nat)
    requires 0 < d < MODULUS
    ensures !Divides(MODULUS, d)
  {
  }

  /** One period visits every uint32. */
  lemma EveryStateVisited(r: nat, target: nat) returns (n: nat)
    requires r < MODULUS && target < MODULUS
    ensures n < MODULUS && Orbit(r, n) == target
  {
    VisitedCount(r, MODULUS);
    forall x | x in Visited(r, MODULUS) ensures x < MODULUS {
      var i: nat :| i < MODULUS && x == Orbit(r, i);
      OrbitBelow(r, i);
    }
    NaturalsBelow(Visited(r, MODULUS), MODULUS);
    assert target in Visited(r, MODULUS);
    n :| n < MODULUS && target == Orbit(r, n);
  }

  // ----- sequences of calls

  /** The stored state after one call; a zero state is reseeded first. */
  function AfterCall(r: nat, seed: nat): nat {
    Step(if r == 0 then seed else r)
  }

  function AfterCalls(r: nat, seeds: nat -> nat, n: nat): nat {
    if n == 0 then r else AfterCall(AfterCalls(r, seeds, n - 1), seeds(n - 1))
  }

  lemma {:induction false} CallsFollowOrbit(r: nat, seeds: nat -> nat, n: nat)
    requires forall i: nat :: i < n ==> Orbit(r, i) != 0
    ensures AfterCalls(r, seeds, n) == Orbit(r, n)
  {
    if n > 0 {
      CallsFollowOrbit(r, seeds, n - 1);
    }
  }

  /** From any nonzero stored state the calls reach the reseeding state 0 after
      fewer than 2^32 calls, and no state repeats up to then, whatever the seeds. */
  lemma NoRepeatBeforeReseed(r: nat, seeds: nat -> nat) returns (zero: nat)
    requires 0 < r < MODULUS
    ensures 0 < zero < MODULUS && AfterCalls(r, seeds, zero) == 0
    ensures forall i: nat, j: nat :: i < j <= zero ==> AfterCalls(r, seeds, i) != AfterCalls(r, seeds, j)
  {
    zero := EveryStateVisited(r, 0);
    forall i: nat, j: nat | i < j <= zero ensures Orbit(r, i) != Orbit(r, j) {
      FullPeriod(r, i, j);
      TooSmallToDivide(j - i);
    }
    forall i: nat | i <= zero ensures AfterCalls(r, seeds, i) == Orbit(r, i) {
      CallsFollowOrbit(r, seeds, i);
    }
  }

  /** A new generator draws its first state from its first seed and follows that
      orbit until a state is 0. */
  lemma {:induction false} NewGeneratorFollowsSeed(seeds: nat -> nat, n: nat)
    requires n > 0 && forall i: nat :: 0 < i < n ==> Orbit(seeds(0), i) != 0
    ensures AfterCalls(0, seeds, n) == Orbit(seeds(0), n)
  {
    if n == 1 {
      assert Orbit(seeds(0), 1) == Step(Orbit(seeds(0), 0));
    } else {
      NewGeneratorFollowsSeed(seeds, n - 1);
    }
  }

  lemma StepInjective(a: nat, b: nat)
    requires a < MODULUS && b < MODULUS && Step(a) == Step(b)
    ensures a == b
  {
    var n := EveryStateVisited(b, a);
    assert Orbit(b, n + 1) == Step(a) && Orbit(b, 1) == Step(Orbit(b, 0));
    FullPeriod(b, 1, n + 1);
    if n > 0 {
      TooSmallToDivide(n);
    }
  }

  /** A call on a stored 0 forgets it and uses its seed: different seeds give different
      states, and so does every later call until a state is 0. */
  lemma SeedsTellApart(a: nat -> nat, b: nat -> nat, n: nat)
    requires n > 0 && a(0) < MODULUS && b(0) < MODULUS && a(0) != b(0)
    requires forall i: nat :: 0 < i < n ==> Orbit(a(0), i) != 0 && Orbit(b(0), i) != 0
    ensures AfterCalls(0, a, n) != AfterCalls(0, b, n)
  {
    NewGeneratorFollowsSeed(a, n);
    NewGeneratorFollowsSeed(b, n);
    OrbitInjective(a(0), b(0), n);
  }

  lemma {:induction false} OrbitInjective(a: nat, b: nat, n: nat)
    requires a < MODULUS && b < MODULUS && a != b
    ensures Orbit(a, n) != Orbit(b, n)
  {
    if n > 0 {
      OrbitInjective(a, b, n - 1);
      OrbitBelow(a, n - 1);
      OrbitBelow(b, n - 1);
      if Step(Orbit(a, n - 1)) == Step(Orbit(b, n - 1)) {
        StepInjective(Orbit(a, n - 1), Orbit(b, n - 1));
      }
    }
  }

  // ----- the printed string

  /** The k lowest decimal digits of x, zeros included. */
  function Padded(x: nat, k: nat): (s: string)
    ensures |s| == k && AllDigits(s)
  {
    if k == 0 then "" else Padded(x / 10, k - 1) + [DigitChar(x % 10)]
  }

  lemma {:induction false} PaddedValue(x: nat, k: nat)
    requires x < Pow(10, k)
    ensures Value(Padded(x, k)) == x
  {
    if k > 0 {
      assert x / 10 < Pow(10, k - 1);
      PaddedValue(x / 10, k - 1);
      assert Padded(x, k)[..k - 1] == Padded(x / 10, k - 1);
    }
  }

  lemma {:induction false} DigitsWithLeadingOne(x: nat, k: nat)
    requires x < Pow(10, k)
    ensures Digits(Pow(10, k) + x) == "1" + Padded(x, k)
  {
    var n := Pow(10, k) + x;
    if k == 0 {
      assert Digits(1) == [DigitChar(1)] == "1";
    } else {
      var p := Pow(10, k - 1);
      assert n == 10 * p + x && p >= 1;
      assert n / 10 == p + x / 10 && n % 10 == x % 10;
      DigitsWithLeadingOne(x / 10, k - 1);
    }
  }

  /** strconv.Itoa(int(1e9 + r%1e9))[1:] */
  function Shown(r: nat): string { Itoa(BILLION + r % BILLION)[1..] }

  /** Exactly nine digits, whose value is the state modulo 10^9. */
  lemma ShownIsNineDigits(r: nat)
    ensures |Shown(r)| == 9 && AllDigits(Shown(r)) && Value(Shown(r)) == r % BILLION
  {
    assert Pow(10, 9) == BILLION;
    DigitsWithLeadingOne(r % BILLION, 9);
    PaddedValue(r % BILLION, 9);
    assert Shown(r) == Padded(r % BILLION, 9);
  }

  /** The package variables of the generator. */
  class Generator {
    var rand: nat

    constructor ()
      ensures rand == 0
    {
      rand := 0;
    }

    /** `seed` is what reseed would return: any uint32. */
    method RandomInt32(seed: nat) returns (shown: string)
      requires rand < MODULUS && seed < MODULUS
      modifies this
      ensures rand == AfterCall(old(rand), seed) < MODULUS
      ensures old(rand) == 0 ==> rand == (seed * 1664525 + 1013904223) % 0x1_0000_0000
      ensures old(rand) != 0 ==> rand == (old(rand) * 1664525 + 1013904223) % 0x1_0000_0000
      ensures |shown| == 9 && AllDigits(shown) && Value(shown) == rand % BILLION
    {
      var r := rand;
      if r == 0 {
        r := seed;
      }
      r := (r * MULTIPLIER + INCREMENT) % MODULUS;
      rand := r;
      ShownIsNineDigits(r);
      shown := Itoa(BILLION + r % BILLION)[1..];
    }
  }
}
