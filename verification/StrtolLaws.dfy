/** What strtol makes of any text: blanks, a sign, a base prefix, digits, and something that ends them. */
module StrtolLaws {
  import opened Powers
  import opened Strtol

  /** What digits are worth in a base: the last one counts once, those before it `base` times as much. */
  function Worth(digits: string, base: nat): nat
  {
    if digits == "" then 0 else Worth(digits[..|digits| - 1], base) * base + DigitValue(digits[|digits| - 1])
  }

  /** Letters count from ten, and their case does not matter. */
  lemma LettersCountFromTen(k: nat)
    requires k < 26
    ensures DigitValue(('a' as int + k) as char) == DigitValue(('A' as int + k) as char) == 10 + k
    ensures k < 10 ==> DigitValue(('0' as int + k) as char) == k
  {
  }

  lemma {:induction false} ScanIsWorth(s: string, i: nat, n: nat, base: nat)
    requires i + n <= |s| && forall k :: i <= k < i + n ==> IsDigit(s[k], base)
    ensures Scan(s, i, base, 0) == Scan(s, i + n, base, Signed64(Worth(s[i..i + n], base)))
    decreases n
  {
    hide IsDigit, DigitValue, Signed64, Scan;
    if n == 0 {
      assert s[i..i] == "";
      assert Signed64(0) == 0;
    } else {
      var l, q := s[i..i + n], Worth(s[i..i + n - 1], base);
      assert l[..n - 1] == s[i..i + n - 1] && l[n - 1] == s[i + n - 1];
      ScanIsWorth(s, i, n - 1, base);
      ScanOne(s, i + n - 1, base, Signed64(q));
      ReduceFirst(q, base, DigitValue(s[i + n - 1]));
    }
  }

  lemma Negated(x: int)
    ensures Signed64(-Signed64(x)) == Signed64(-x)
  {
    var m := 2 * LONG;
    var t := (x + LONG) / m;
    Split(x + LONG, m);
    assert x == Signed64(x) + t * m;
    ModSame(-x + LONG, -Signed64(x) + LONG, m, -t);
  }

  predicate StartsWith(s: string, c: char)
  {
    s != "" && s[0] == c
  }

  /** `prefix` is what strtol takes for the prefix of base `b`, if it was asked for `base`, or for any base with 0. */
  predicate Announces(prefix: string, digits: string, rest: string, base: nat, b: nat)
  {
    || (prefix == "0x" && (base == 0 || base == 16) && b == 16)
    || (prefix == "0" && base == 0 && b == 8 && !StartsWith(digits + rest, 'x'))
    || (prefix == "" && base == 0 && b == 10 && digits != "" && digits[0] != '0')
    || (prefix == "" && 2 <= base <= 36 && b == base && digits != "" && (base == 16 && digits == "0" ==> !StartsWith(rest, 'x')))
  }

  /** Blanks are skipped, a sign may follow, the prefix is taken away, and the digits up to the first character that is
      none are read as what they are worth, to 64 bits. */
  lemma ReadsNumber(blanks: string, sign: string, prefix: string, digits: string, rest: string, base: nat, b: nat)
    requires (forall c :: c in blanks ==> c == ' ' || c == '\t') && (sign == "" || sign == "+" || sign == "-")
    requires Announces(prefix, digits, rest, base, b)
    requires (forall c :: c in digits ==> IsDigit(c, b)) && (rest != "" ==> !IsDigit(rest[0], b))
    ensures Parsed(blanks + sign + prefix + digits + rest, base) ==
      (Signed64(if sign == "-" then -(Worth(digits, b) as int) else Worth(digits, b)), |blanks + sign + prefix + digits|)
  {
    hide Scan, Worth, Signed64, IsDigit, DigitValue, Prefix, SkipBlanks, Announces;
    var s := blanks + sign + prefix + digits + rest;
    var j := |blanks| + |sign|;
    var k := j + |prefix|;
    BlanksEnd(blanks, sign, prefix, digits, rest, base, b);
    assert s[j..] == prefix + digits + rest;
    PrefixIs(s, j, prefix, digits, rest, base, b);
    forall m | k <= m < k + |digits| ensures IsDigit(s[m], b) { assert s[m] == digits[m - k]; }
    assert s[k..k + |digits|] == digits;
    ScanIsWorth(s, k, |digits|, b);
    ScanEnds(s, k + |digits|, b, Signed64(Worth(digits, b)));
    Negated(Worth(digits, b));
  }

  lemma ScanEnds(s: string, i: nat, b: nat, val: int)
    requires i <= |s| && (i < |s| ==> !IsDigit(s[i], b))
    ensures Scan(s, i, b, val) == (val, i)
  {
  }

  /** The blanks end at the sign, at the prefix or at the digits. */
  lemma BlanksEnd(blanks: string, sign: string, prefix: string, digits: string, rest: string, base: nat, b: nat)
    requires (forall c :: c in blanks ==> IsSpace(c)) && (sign == "" || sign == "+" || sign == "-")
    requires Announces(prefix, digits, rest, base, b) && forall c :: c in digits ==> IsDigit(c, b)
    ensures var s, i := blanks + sign + prefix + digits + rest, |blanks|;
      && i < |s| && SkipBlanks(s, 0) == i && ((s[i] == '+' || s[i] == '-') <==> sign != "") && (s[i] == '-' <==> sign == "-")
  {
    hide SkipBlanks;
    var s, i := blanks + sign + prefix + digits + rest, |blanks|;
    if sign + prefix == "" { assert s[i] == digits[0] && IsDigit(digits[0], b); }
    forall m | 0 <= m < i ensures IsSpace(s[m]) { assert s[m] == blanks[m]; }
    assert !IsSpace(s[i]);
  }

  lemma PrefixIs(s: string, j: nat, prefix: string, digits: string, rest: string, base: nat, b: nat)
    requires j + |prefix| + |digits| + |rest| == |s| && s[j..] == prefix + digits + rest && Announces(prefix, digits, rest, base, b)
    requires forall c :: c in digits ==> IsDigit(c, b)
    ensures Prefix(s, j, base) == (j + |prefix|, b)
  {
    var u := s[j..];
    assert forall m :: 0 <= m < |u| ==> s[j + m] == u[m];
    if prefix == "0" && j + 1 < |s| { assert u[1] == (digits + rest)[0]; }
    if prefix == "" && |digits| >= 2 { assert u[1] == digits[1] && IsDigit(digits[1], b); }
    if prefix == "" && |digits| == 1 && rest != "" { assert u[1] == rest[0]; }
  }
}
