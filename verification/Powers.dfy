/** Powers of two and divisibility by them. */
module Powers {

  function Pow2(k: nat): (r: nat)
    ensures r >= 1
  {
    if k == 0 then 1 else 2 * Pow2(k - 1)
  }

  /** 2^k divides x. */
  predicate Divides(k: nat, x: int)
    decreases k
  {
    k == 0 || (x % 2 == 0 && Divides(k - 1, x / 2))
  }

  lemma {:induction false} DividesMod(k: nat, x: int)
    ensures Divides(k, x) <==> x % Pow2(k) == 0
  {
    if k > 0 {
      DividesMod(k - 1, x / 2);
      HalfMod(x, Pow2(k - 1));
    }
  }

  lemma HalfMod(x: int, p: nat)
    requires p >= 1
    ensures x % (2 * p) == 0 <==> x % 2 == 0 && (x / 2) % p == 0
  {
    var h := x / 2;
    Split(h, p);
    var q, r := h / p, h % p;
    assert x == 2 * h + x % 2;
    assert h == q * p + r;
    assert x == q * (2 * p) + (2 * r + x % 2) by { Reassociate(q, p); }
    ModUnique(x, 2 * p, q, 2 * r + x % 2);
  }

  lemma Split(x: int, m: nat)
    requires m >= 1
    ensures x == (x / m) * m + x % m && 0 <= x % m < m
  {
  }

  lemma Reassociate(q: int, p: int)
    ensures 2 * (q * p) == q * (2 * p)
  {
  }

  /** Quotient and remainder are unique. */
  lemma ModUnique(x: int, m: nat, q: int, r: int)
    requires m >= 1 && 0 <= r < m && x == q * m + r
    ensures x % m == r && x / m == q
  {
    Split(x, m);
    var d := x / m - q;
    Distribute(x / m, q, m);
    Far(d, m);
  }

  lemma Distribute(a: int, b: int, m: int)
    ensures (a - b) * m == a * m - b * m
  {
  }

  lemma Far(d: int, m: nat)
    ensures d >= 1 ==> d * m >= m
    ensures d <= -1 ==> d * m + m <= 0
  {
    if d >= 1 {
      assert (d - 1) * m >= 0;
      assert d * m == (d - 1) * m + m;
    } else if d <= -1 {
      assert (-1 - d) * m >= 0;
      assert d * m == -((-1 - d) * m) - m;
    }
  }

  lemma ModSame(x: int, y: int, m: nat, d: int)
    requires m >= 1 && x == y + d * m
    ensures x % m == y % m
  {
    Split(y, m);
    assert (y / m + d) * m == (y / m) * m + d * m;
    ModUnique(x, m, y / m + d, y % m);
  }

  /** An odd factor does not matter. */
  lemma {:induction false} DividesOddTimes(k: nat, q: int, s: int)
    requires q % 2 == 1
    ensures Divides(k, q * s) <==> Divides(k, s)
    decreases k
  {
    if k > 0 {
      var h, j := s / 2, q / 2;
      if s % 2 == 0 {
        assert q * s == 2 * (q * h) by { Reassociate(q, h); }
        DividesOddTimes(k - 1, q, h);
      } else {
        OddTimesOdd(q, s);
      }
    }
  }

  lemma OddTimesOdd(q: int, s: int)
    requires q % 2 == 1 && s % 2 == 1
    ensures (q * s) % 2 == 1
  {
    var h, j := s / 2, q / 2;
    assert q * s == (2 * j + 1) * (2 * h + 1) == 2 * (2 * j * h + j + h) + 1;
  }

  lemma DividesDouble(k: nat, x: int)
    requires k >= 1
    ensures Divides(k, 2 * x) <==> Divides(k - 1, x)
  {
  }
}
