/** The 48-bit linear congruential generator of lab6. */
module Rand {
  import opened Freelist
  import opened Powers

  const MULTIPLIER: nat := 0x5DEECE66D
  const INCREMENT: nat := 0xB
  const STATE_BITS: nat := 48
  const RAND_MAX: nat := 2147483647

  /** One step of the generator on the low k bits, in exact arithmetic. */
  function Advance(k: nat, x: nat): nat
  {
    (x * MULTIPLIER + INCREMENT) % Pow2(k)
  }

  function After(k: nat, n: nat, x: nat): nat
  {
    if n == 0 then x else Advance(k, After(k, n - 1, x))
  }

  /** What rand returns when the state has become `x`.  The macro do_div does not put its divisor in
      parentheses, so the divisor is RAND_MAX and 1 is added to the remainder. */
  function Output(x: nat): (r: nat)
    ensures 1 <= r <= RAND_MAX
  {
    (x / 4096) % RAND_MAX + 1
  }

  /** rand.c: one static 64-bit word. */
  class Generator {
    var next: nat

    ghost predicate Valid()
      reads this
    {
      next < Pow2(STATE_BITS)
    }

    constructor ()
      ensures Valid() && next == 1
    {
      next := 1;
      new;
      PowersHere();
    }

    /** rand; the product and the sum wrap at 64 bits before the mask is applied. */
    method Next() returns (r: nat)
      requires Valid()
      modifies this
      ensures Valid() && next == Advance(STATE_BITS, old(next)) && r == Output(next)
    {
      PowersHere();
      WrapAgrees(next);
      next := ((next * MULTIPLIER) % Pow2(64) + INCREMENT) % Pow2(64) % Pow2(STATE_BITS);
      var result := next / 4096;
      r := result % RAND_MAX + 1;
    }

    /** srand takes a 32-bit seed. */
    method Seed(seed: nat)
      requires seed < 0x1_0000_0000
      modifies this
      ensures Valid() && next == seed
    {
      PowersHere();
      next := seed;
    }
  }

  lemma PowersHere()
    ensures Pow2(48) == 0x1_0000_0000_0000 && Pow2(64) == 0x1_0000_0000_0000_0000
  {
    hide Pow2;
    PowSmall();
    PowAdd(8, 8);
    assert Pow2(16) == 0x1_0000;
    PowAdd(16, 16);
    assert Pow2(32) == 0x1_0000_0000;
    PowAdd(32, 16);
    PowAdd(32, 32);
  }

  lemma PowSmall()
    ensures Pow2(8) == 256
  {
    assert Pow2(4) == 16;
  }

  lemma {:induction false} PowAdd(i: nat, j: nat)
    ensures Pow2(i + j) == Pow2(i) * Pow2(j)
    decreases j
  {
    if j > 0 {
      PowAdd(i, j - 1);
      assert Pow2(i + j) == 2 * Pow2(i + (j - 1));
      assert 2 * (Pow2(i) * Pow2(j - 1)) == Pow2(i) * (2 * Pow2(j - 1));
    }
  }

  /** Wrapping at 64 bits does not change the low 48. */
  lemma WrapAgrees(x: nat)
    ensures ((x * MULTIPLIER) % Pow2(64) + INCREMENT) % Pow2(64) % Pow2(STATE_BITS) == Advance(STATE_BITS, x)
  {
    PowersHere();
    var p := x * MULTIPLIER;
    var m := 0x1_0000_0000_0000;
    Split(p, m * 65536);
    Split(p % (m * 65536) + INCREMENT, m * 65536);
    ModSame(p + INCREMENT, ((p % (m * 65536) + INCREMENT) % (m * 65536)), m,
            65536 * (p / (m * 65536)) + 65536 * ((p % (m * 65536) + INCREMENT) / (m * 65536)));
  }

  // ---- exact iterates ----

  /** 1 + a + ... + a^(n-1) */
  function Sum(a: nat, n: nat): nat
  {
    if n == 0 then 0 else Sum(a, n - 1) * a + 1
  }

  function Power(a: nat, n: nat): nat
  {
    if n == 0 then 1 else Power(a, n - 1) * a
  }

  function Exact(a: nat, c: nat, n: nat, x: nat): nat
  {
    if n == 0 then x else Exact(a, c, n - 1, x) * a + c
  }

  /** How far n steps take the state. */
  lemma {:induction false} ExactMoves(a: nat, c: nat, n: nat, x: nat)
    requires a >= 1
    ensures Exact(a, c, n, x) == x + Sum(a, n) * ((a - 1) * x + c)
  {
    if n > 0 {
      ExactMoves(a, c, n - 1, x);
      Collect(a, x, c, Sum(a, n - 1), (a - 1) * x + c);
    }
  }

  lemma Collect(a: nat, x: nat, c: nat, s: nat, d: int)
    requires a >= 1 && d == (a - 1) * x + c
    ensures (x + s * d) * a + c == x + (s * a + 1) * d
  {
    assert (x + s * d) * a == x * a + s * d * a;
    assert (s * a + 1) * d == s * a * d + d;
    assert s * d * a == s * a * d;
    assert (a - 1) * x == a * x - x;
  }

  lemma {:induction false} SumSplits(a: nat, m: nat, n: nat)
    ensures Sum(a, m + n) == Sum(a, m) * Power(a, n) + Sum(a, n)
    decreases n
  {
    if n > 0 {
      SumSplits(a, m, n - 1);
      assert Sum(a, m + n) == Sum(a, m + (n - 1)) * a + 1;
      Spread(Sum(a, m), Power(a, n - 1), Sum(a, n - 1), a);
    }
  }

  lemma Spread(s: nat, p: nat, t: nat, a: nat)
    ensures (s * p + t) * a + 1 == s * (p * a) + (t * a + 1)
  {
    assert (s * p + t) * a == (s * p) * a + t * a;
  }

  lemma {:induction false} PowerMod4(a: nat, n: nat)
    requires a % 4 == 1
    ensures Power(a, n) % 4 == 1
  {
    if n > 0 {
      PowerMod4(a, n - 1);
      TimesMod4(Power(a, n - 1), a);
    }
  }

  lemma TimesMod4(p: nat, a: nat)
    requires p % 4 == 1 && a % 4 == 1
    ensures (p * a) % 4 == 1
  {
    var i, j := p / 4, a / 4;
    assert p * a == (4 * i + 1) * (4 * j + 1) == 4 * (4 * i * j + i + j) + 1;
  }

  lemma {:induction false} SumParity(a: nat, n: nat)
    requires a % 4 == 1
    ensures Sum(a, n) % 2 == n % 2
  {
    hide Sum;
    if n == 0 { NoSum(a); }
    if n > 0 {
      SumParity(a, n - 1);
      SumNext(a, n);
    }
  }

  lemma NoSum(a: nat)
    ensures Sum(a, 0) == 0
  {
  }

  lemma SumNext(a: nat, n: nat)
    requires a % 4 == 1 && n >= 1
    ensures Sum(a, n) % 2 == (Sum(a, n - 1) + 1) % 2
  {
    NextParity(Sum(a, n - 1), a);
    assert Sum(a, n) == Sum(a, n - 1) * a + 1;
  }

  lemma NextParity(s: nat, a: nat)
    requires a % 4 == 1
    ensures (s * a + 1) % 2 == (s + 1) % 2
  {
    TimesParity(s, a);
    OneMore(s * a, s);
  }

  lemma OneMore(p: nat, s: nat)
    requires p % 2 == s % 2
    ensures (p + 1) % 2 == (s + 1) % 2
  {
  }

  lemma TimesParity(s: nat, a: nat)
    requires a % 4 == 1
    ensures (s * a) % 2 == s % 2
  {
    var j := a / 4;
    assert s * a == s * (4 * j + 1) == 2 * (2 * s * j) + s;
  }

  /** The sum is divisible by exactly the powers of two that divide its length. */
  lemma {:induction false} SumDivides(a: nat, k: nat, n: nat)
    requires a % 4 == 1
    ensures Divides(k, Sum(a, n)) <==> Divides(k, n)
    decreases k
  {
    hide Sum, Power;
    if k > 0 {
      SumParity(a, n);
      if n % 2 == 0 {
        var m := n / 2;
        var q := (Power(a, m) + 1) / 2;
        PowerMod4(a, m);
        SumSplits(a, m, m);
        Double(Sum(a, m), Power(a, m), q);
        assert m + m == n;
        DividesDouble(k, q * Sum(a, m));
        DividesOddTimes(k - 1, q, Sum(a, m));
        SumDivides(a, k - 1, m);
      }
    }
  }

  lemma Double(s: nat, p: nat, q: nat)
    requires p + 1 == 2 * q
    ensures s * p + s == 2 * (q * s)
  {
    assert s * p + s == s * (p + 1) == s * (2 * q);
  }

  // ---- the modular iterates ----

  lemma {:induction false} AfterIsExact(k: nat, n: nat, x: nat)
    requires x < Pow2(k)
    ensures After(k, n, x) == Exact(MULTIPLIER, INCREMENT, n, x) % Pow2(k)
  {
    hide Advance, Pow2;
    if n > 0 {
      AfterIsExact(k, n - 1, x);
      AdvanceMod(k, Exact(MULTIPLIER, INCREMENT, n - 1, x));
    } else {
      ModUnique(x, Pow2(k), 0, x);
    }
  }

  lemma StepMod(y: nat, m: nat)
    requires m >= 1
    ensures ((y % m) * MULTIPLIER + INCREMENT) % m == (y * MULTIPLIER + INCREMENT) % m
  {
    Split(y, m);
    var q := y / m;
    assert y * MULTIPLIER + INCREMENT == (y % m) * MULTIPLIER + INCREMENT + (q * MULTIPLIER) * m by {
      assert (q * m) * MULTIPLIER == (q * MULTIPLIER) * m;
    }
    ModSame(y * MULTIPLIER + INCREMENT, (y % m) * MULTIPLIER + INCREMENT, m, q * MULTIPLIER);
  }

  lemma AdvanceMod(k: nat, y: nat)
    ensures Advance(k, y % Pow2(k)) == (y * MULTIPLIER + INCREMENT) % Pow2(k)
  {
    hide Pow2;
    StepMod(y, Pow2(k));
  }

  /** The low k bits run through the generator of k bits. */
  lemma {:induction false} LowBits(k: nat, n: nat, x: nat)
    requires k <= STATE_BITS
    ensures After(STATE_BITS, n, x) % Pow2(k) == After(k, n, x % Pow2(k)) % Pow2(k)
  {
    if n > 0 {
      LowBits(k, n - 1, x);
      LowBitsStep(k, After(STATE_BITS, n - 1, x), After(k, n - 1, x % Pow2(k)));
    } else {
      Split(x, Pow2(k));
      ModUnique(x % Pow2(k), Pow2(k), 0, x % Pow2(k));
    }
  }

  lemma LowBitsStep(k: nat, y: nat, z: nat)
    requires k <= STATE_BITS && y % Pow2(k) == z % Pow2(k)
    ensures Advance(STATE_BITS, y) % Pow2(k) == Advance(k, z) % Pow2(k)
  {
    hide Pow2;
    var w, m, r := y * MULTIPLIER + INCREMENT, Pow2(k), Pow2(STATE_BITS - k);
    PowAdd(k, STATE_BITS - k);
    ModMod(w, m, r);
    StepMod(y, m);
    StepMod(z, m);
    Split(z * MULTIPLIER + INCREMENT, m);
    ModUnique(Advance(k, z), m, 0, Advance(k, z));
  }

  lemma ModMod(w: nat, m: nat, r: nat)
    requires m >= 1 && r >= 1 && m * r >= 1
    ensures w % (m * r) % m == w % m
  {
    Split(w, m * r);
    var d := w / (m * r);
    assert d * (m * r) == (d * r) * m;
    ModSame(w, w % (m * r), m, d * r);
  }

  /** A state recurs after exactly the multiples of 2^k steps. */
  lemma Recurs(k: nat, n: nat, x: nat)
    requires x < Pow2(k)
    ensures After(k, n, x) == x <==> n % Pow2(k) == 0
  {
    var a, c := MULTIPLIER, INCREMENT;
    var e, d := Exact(a, c, n, x), (a - 1) * x + c;
    AfterIsExact(k, n, x);
    ExactMoves(a, c, n, x);
    StrideIsOdd(x);
    DividesOddTimes(k, d, Sum(a, n));
    Swap(Sum(a, n), d);
    SumDivides(a, k, n);
    DividesMod(k, n);
    DividesMod(k, e - x);
    SameMod(e, x, Pow2(k));
  }

  lemma StrideIsOdd(x: nat)
    ensures ((MULTIPLIER - 1) * x + INCREMENT) % 2 == 1
  {
    assert (MULTIPLIER - 1) * x == 2 * (12607451958 * x);
  }

  lemma Swap(s: int, d: int)
    ensures s * d == d * s
  {
  }

  lemma SameMod(e: int, x: nat, m: nat)
    requires x < m
    ensures e % m == x <==> (e - x) % m == 0
  {
    Split(e, m);
    Split(e - x, m);
    if e % m == x { ModUnique(e - x, m, e / m, 0); }
    if (e - x) % m == 0 { ModUnique(e, m, (e - x) / m, x); }
  }

  lemma {:induction false} AfterAfter(k: nat, i: nat, j: nat, x: nat)
    ensures After(k, i + j, x) == After(k, j, After(k, i, x))
    decreases j
  {
    if j > 0 {
      AfterAfter(k, i, j - 1, x);
      assert After(k, i + j, x) == Advance(k, After(k, i + (j - 1), x));
    }
  }

  lemma AfterBound(k: nat, n: nat, x: nat)
    requires x < Pow2(k)
    ensures After(k, n, x) < Pow2(k)
  {
    if n > 0 { Split(After(k, n - 1, x) * MULTIPLIER + INCREMENT, Pow2(k)); }
  }

  lemma AllDifferent(k: nat, i: nat, j: nat, x: nat)
    requires x < Pow2(k) && i < j < Pow2(k)
    ensures After(k, i, x) != After(k, j, x)
  {
    AfterAfter(k, i, j - i, x);
    AfterBound(k, i, x);
    Recurs(k, j - i, After(k, i, x));
    ModUnique(j - i, Pow2(k), 0, j - i);
  }

  ghost function Orbit(k: nat, x: nat): seq<nat>
  {
    seq(Pow2(k), i requires 0 <= i < Pow2(k) => After(k, i, x))
  }

  /** Full period: from any state of k bits, 2^k calls visit every state of k bits exactly once and
      come back. */
  lemma FullPeriod(k: nat, x: nat, y: nat)
    requires x < Pow2(k) && y < Pow2(k)
    ensures exists n: nat :: n < Pow2(k) && After(k, n, x) == y
    ensures forall i: nat, j: nat :: i < Pow2(k) && j < Pow2(k) && After(k, i, x) == y && After(k, j, x) == y ==> i == j
    ensures After(k, Pow2(k), x) == x
  {
    var l := Orbit(k, x);
    forall i, j | 0 <= i < j < |l| ensures l[i] != l[j] { AllDifferent(k, i, j, x); }
    forall i | 0 <= i < |l| ensures l[i] < Pow2(k) { AfterBound(k, i, x); }
    Pigeonhole(l, Pow2(k));
    assert y in l;
    var n :| 0 <= n < |l| && l[n] == y;
    assert After(k, n, x) == y;
    forall i: nat, j: nat | i < Pow2(k) && j < Pow2(k) && After(k, i, x) == y && After(k, j, x) == y ensures i == j {
      if i < j { AllDifferent(k, i, j, x); } else if j < i { AllDifferent(k, j, i, x); }
    }
    ModUnique(Pow2(k), Pow2(k), 1, 0);
    Recurs(k, Pow2(k), x);
  }

  /** The low twelve bits of the state are dropped. */
  lemma OutputDropsTwelveBits(y: nat, z: nat)
    requires z < 4096
    ensures Output(4096 * y + z) == y % 2147483647 + 1
  {
    ModUnique(4096 * y + z, 4096, y, z);
  }

  /** The first values after the start, or after srand(1). */
  lemma FirstValues()
    ensures Output(After(48, 1, 1)) == 6155983 && Output(After(48, 2, 1)) == 907315447 && Output(After(48, 3, 1)) == 1947276717
  {
    hide Pow2;
    PowersHere();
    assert Advance(48, 1) == 25214903928;
    assert Advance(48, 25214903928) == 206026503483683;
    assert Advance(48, 206026503483683) == 245470556921330;
    assert After(48, 1, 1) == 25214903928;
    assert After(48, 2, 1) == 206026503483683;
    assert After(48, 3, 1) == 245470556921330;
  }

  /** Every value from 1 to RAND_MAX, and never 0, is returned in the course of a period. */
  lemma EveryValueIsReturned(x: nat, v: nat)
    requires x < Pow2(STATE_BITS)
    ensures 1 <= v <= RAND_MAX <==> exists n: nat :: n < Pow2(STATE_BITS) && Output(After(STATE_BITS, n, x)) == v
  {
    hide Pow2, After, Output;
    if 1 <= v <= RAND_MAX {
      OutputOf(v);
      FullPeriod(STATE_BITS, x, (v - 1) * 4096);
    }
  }

  lemma OutputOf(v: nat)
    requires 1 <= v <= RAND_MAX
    ensures (v - 1) * 4096 < Pow2(STATE_BITS) && Output((v - 1) * 4096) == v
  {
    PowersHere();
    ModUnique(v - 1, RAND_MAX, 0, v - 1);
  }
}
