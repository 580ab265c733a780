/** strtol, and what it makes of the numbers that the formatter prints. */
module Strtol {
  import opened Powers
  import opened PrintNumber

  const LONG: nat := 0x8000_0000_0000_0000

  /** A number reduced to 64 bits, two's complement. */
  function Signed64(x: int): (r: int)
    ensures 0 - LONG <= r < LONG
    ensures 0 - LONG <= x < LONG ==> r == x
  {
    (x + LONG) % (2 * LONG) - LONG
  }

  predicate IsSpace(c: char)
  {
    c == ' ' || c == '\t'
  }

  /** The value of a digit or letter; 36 for anything else. */
  function DigitValue(c: char): (d: nat)
    ensures d <= 36
  {
    if '0' <= c <= '9' then c as int - '0' as int
    else if 'a' <= c <= 'z' then c as int - 'a' as int + 10
    else if 'A' <= c <= 'Z' then c as int - 'A' as int + 10
    else 36
  }

  predicate IsDigit(c: char, base: int)
  {
    DigitValue(c) < base && DigitValue(c) < 36
  }

  /** Where the blanks end. */
  function SkipBlanks(s: string, i: nat): (j: nat)
    requires i <= |s|
    ensures i <= j <= |s| && (j < |s| ==> !IsSpace(s[j])) && forall k :: i <= k < j ==> IsSpace(s[k])
    decreases |s| - i
  {
    if i < |s| && IsSpace(s[i]) then SkipBlanks(s, i + 1) else i
  }

  /** Value and end of the digits from index i on. */
  function Scan(s: string, i: nat, base: int, val: int): (int, nat)
    requires i <= |s|
    decreases |s| - i
  {
    if i < |s| && IsDigit(s[i], base) then Scan(s, i + 1, base, Signed64(val * base + DigitValue(s[i]))) else (val, i)
  }

  /** Where the digits begin and in which base, given that blanks and sign end at index i. */
  function Prefix(s: string, i: nat, base: int): (r: (nat, int))
    requires i <= |s|
    ensures i <= r.0 <= |s|
  {
    if (base == 0 || base == 16) && i + 1 < |s| && s[i] == '0' && s[i + 1] == 'x' then (i + 2, 16)
    else if base == 0 && i < |s| && s[i] == '0' then (i + 1, 8)
    else (i, if base == 0 then 10 else base)
  }

  /** What strtol returns, and how much it reads. */
  function Parsed(s: string, base: int): (int, nat)
  {
    var i := SkipBlanks(s, 0);
    var neg := i < |s| && s[i] == '-';
    var j := if i < |s| && (s[i] == '+' || s[i] == '-') then i + 1 else i;
    var (k, b) := Prefix(s, j, base);
    var (val, end) := Scan(s, k, b, 0);
    (if neg then Signed64(-val) else val, end)
  }

  /** strtol on a NUL-terminated string; the NUL is at index `n` of `z` and nothing after it is read. */
  method StrToL(z: seq<char>, ghost n: nat, base: int) returns (val: int, end: nat)
    requires n < |z| && z[n] == '\0' && '\0' !in z[..n]
    ensures (val, end) == Parsed(z[..n], base) && end <= n
  {
    hide Scan, SkipBlanks, Signed64, IsDigit;
    ghost var s := z[..n];
    var i := PassBlanks(z, n);
    var neg, b := false, base;
    if z[i] == '+' {
      i := i + 1;
    } else if z[i] == '-' {
      i, neg := i + 1, true;
    }
    ghost var j := i;
    if (b == 0 || b == 16) && z[i] == '0' && z[i + 1] == 'x' {
      i, b := i + 2, 16;
    } else if b == 0 && z[i] == '0' {
      i, b := i + 1, 8;
    } else if b == 0 {
      b := 10;
    }
    assert (i, b) == Prefix(s, j, base);
    val, end := PassDigits(z, n, i, b);
    if neg { val := Signed64(-val); }
  }

  method PassBlanks(z: seq<char>, ghost n: nat) returns (i: nat)
    requires n < |z| && z[n] == '\0'
    ensures i == SkipBlanks(z[..n], 0)
  {
    i := 0;
    while IsSpace(z[i])
      invariant 0 <= i <= n && SkipBlanks(z[..n], i) == SkipBlanks(z[..n], 0)
      decreases n - i
    {
      i := i + 1;
    }
  }

  method PassDigits(z: seq<char>, ghost n: nat, k: nat, base: int) returns (val: int, i: nat)
    requires n < |z| && z[n] == '\0' && k <= n
    ensures (val, i) == Scan(z[..n], k, base, 0) && i <= n
  {
    hide Signed64;
    val, i := 0, k;
    while IsDigit(z[i], base)
      invariant k <= i <= n && Scan(z[..n], i, base, val) == Scan(z[..n], k, base, 0)
      decreases n - i
    {
      val := Signed64(val * base + DigitValue(z[i]));
      i := i + 1;
    }
  }

  // ---- reading what was printed ----

  lemma DigitIsDigit(d: nat, base: nat)
    requires d < base <= 16
    ensures IsDigit(HEX[d], base) && DigitValue(HEX[d]) == d && HEX[d] != 'x' && !IsSpace(HEX[d]) && HEX[d] != '-' && HEX[d] != '+'
  {
  }

  lemma {:induction false} DigitsAreDigits(num: nat, base: nat)
    requires 2 <= base <= 16
    ensures forall c :: c in Digits(num, base) ==> IsDigit(c, base) && c != 'x' && !IsSpace(c) && c != '-' && c != '+'
  {
    DigitIsDigit(num % base, base);
    if num >= base { DigitsAreDigits(num / base, base); }
  }

  /** Reducing an intermediate value does not change the reduced result. */
  lemma ReduceFirst(q: int, base: nat, d: int)
    ensures Signed64(Signed64(q) * base + d) == Signed64(q * base + d)
  {
    var m := 2 * LONG;
    var t := (q + LONG) / m;
    Split(q + LONG, m);
    assert q == Signed64(q) + t * m;
    Spread(Signed64(q), t, m, base);
    ModSame(q * base + d + LONG, Signed64(q) * base + d + LONG, m, t * base);
  }

  lemma Spread(x: int, t: int, m: int, base: int)
    ensures (x + t * m) * base == x * base + (t * base) * m
  {
    assert (x + t * m) * base == x * base + (t * m) * base;
    assert (t * m) * base == (t * base) * m;
  }

  /** Scanning digits rebuilds the number, to 64 bits. */
  lemma {:induction false} ScanDigits(s: string, i: nat, num: nat, base: nat)
    requires 2 <= base <= 16 && i + |Digits(num, base)| <= |s| && s[i..i + |Digits(num, base)|] == Digits(num, base)
    ensures Scan(s, i, base, 0) == Scan(s, i + |Digits(num, base)|, base, Signed64(num))
  {
    hide Signed64, IsDigit, DigitValue, Scan, Digits;
    var l := Digits(num, base);
    var j := i + |l| - 1;
    var q, d := DigitsSplit(num, base);
    DigitIsDigit(d, base);
    assert s[j] == s[i..i + |l|][|l| - 1] == HEX[d];
    if num >= base {
      assert s[i..j] == s[i..i + |l|][..|l| - 1] == Digits(q, base);
      ScanDigits(s, i, q, base);
    }
    ScanOne(s, j, base, Signed64(q));
    ReduceFirst(q, base, d);
  }

  lemma DigitsSplit(num: nat, base: nat) returns (q: nat, d: nat)
    requires 2 <= base <= 16
    ensures q * base + d == num && d < base && (num >= base ==> q < num) && (num < base ==> q == 0)
    ensures Digits(num, base) == (if num < base then "" else Digits(q, base)) + [HEX[d]]
  {
    q, d := num / base, num % base;
    Split(num, base);
    if num >= base { Smaller(num, base); } else { ModUnique(num, base, 0, num); }
  }

  lemma ScanOne(s: string, j: nat, base: nat, val: int)
    requires j < |s| && IsDigit(s[j], base)
    ensures Scan(s, j, base, val) == Scan(s, j + 1, base, Signed64(val * base + DigitValue(s[j])))
  {
  }

  lemma ScanStops(s: string, j: nat, base: nat, val: int)
    requires j < |s| && !IsDigit(s[j], base)
    ensures Scan(s, j, base, val) == (val, j)
  {
  }

  /** Leading zeros do not matter. */
  lemma {:induction false} ScanZeros(s: string, i: nat, j: nat, base: nat)
    requires i <= j <= |s| && base >= 2 && forall k :: i <= k < j ==> s[k] == '0'
    ensures Scan(s, i, base, 0) == Scan(s, j, base, 0)
    decreases j - i
  {
    if i < j {
      assert Signed64(0 * base + DigitValue(s[i])) == 0;
      ScanZeros(s, i + 1, j, base);
    }
  }

  /** After any prefix, digits padded with zeros, or not padded, are read as the number, to 64 bits, and to the end. */
  lemma ScanText(pre: string, num: nat, base: nat, width: int, padc: char)
    requires 2 <= base <= 16 && (padc == '0' || width <= |Digits(num, base)|)
    ensures var s := pre + NumText(num, base, width, padc); Scan(s, |pre|, base, 0) == (Signed64(num), |s|)
  {
    hide Scan, Digits, Repeat, Signed64;
    var text, l := NumText(num, base, width, padc), Digits(num, base);
    var s := pre + text;
    var j := |s| - |l|;
    assert s[j..j + |l|] == l;
    forall k | |pre| <= k < j ensures s[k] == '0' {
      assert s[k] == Repeat(padc, width - |l|)[k - |pre|];
      assert s[k] in Repeat(padc, width - |l|);
    }
    ScanZeros(s, |pre|, j, base);
    ScanDigits(s, j, num, base);
    ScanAtEnd(s, base, Signed64(num));
  }

  lemma ScanAtEnd(s: string, base: nat, val: int)
    ensures Scan(s, |s|, base, val) == (val, |s|)
  {
  }

  /** Blanks, then characters that are neither blanks nor signs nor part of a prefix. */
  lemma PlainText(s: string, k: nat, base: nat)
    requires k < |s| && base != 0 && (forall i :: 0 <= i < k ==> IsSpace(s[i]))
    requires forall i :: k <= i < |s| ==> !IsSpace(s[i]) && s[i] != '+' && s[i] != '-' && s[i] != 'x'
    ensures Parsed(s, base) == Scan(s, k, base, 0)
  {
    hide Scan;
    assert !IsSpace(s[k]) && SkipBlanks(s, 0) <= k;
    assert SkipBlanks(s, 0) == k;
  }

  lemma TextChars(num: nat, base: nat, width: int, padc: char)
    requires 2 <= base <= 16
    ensures var text, k := NumText(num, base, width, padc), |NumText(num, base, width, padc)| - |Digits(num, base)|;
      && (forall i :: 0 <= i < k ==> text[i] == padc)
      && (forall i :: k <= i < |text| ==> !IsSpace(text[i]) && text[i] != '+' && text[i] != '-' && text[i] != 'x' && IsDigit(text[i], base))
  {
    DigitsAreDigits(num, base);
    var text, pad, l := NumText(num, base, width, padc), Repeat(padc, width - |Digits(num, base)|), Digits(num, base);
    forall i | 0 <= i < |text| - |l| ensures text[i] == padc { assert text[i] == pad[i] && pad[i] in pad; }
    forall i | |text| - |l| <= i < |text| ensures text[i] in l { assert text[i] == l[i - (|text| - |l|)]; }
  }

  /** Numbers padded with blanks or zeros are read back in the base they were printed in, whatever the width: the same
      number below 2^63, and the same 64 bits always. */
  lemma RoundTrip(num: nat, base: nat, width: int, padc: char)
    requires base == 8 || base == 10 || base == 16
    requires padc == ' ' || padc == '0'
    ensures var text := NumText(num, base, width, padc); Parsed(text, base) == (Signed64(num), |text|)
    ensures num < LONG ==> Signed64(num) == num
  {
    hide Scan, SkipBlanks, Parsed, IsDigit;
    var text, l := NumText(num, base, width, padc), Digits(num, base);
    TextChars(num, base, width, padc);
    if padc == ' ' {
      PlainText(text, |text| - |l|, base);
      var pad := Repeat(padc, width - |l|);
      assert text == pad + NumText(num, base, 0, padc);
      ScanText(pad, num, base, 0, padc);
    } else {
      PlainText(text, 0, base);
      assert text == "" + text;
      ScanText("", num, base, width, padc);
    }
  }

  /** With the flag '-' printnum pads with minus signs on the left.  Then a number is read back exactly if nothing is
      padded, or if it is 0 and the field is two wide. */
  lemma MinusPadding(num: nat, base: nat, width: int)
    requires base == 8 || base == 10 || base == 16
    requires num < LONG
    ensures var text := NumText(num, base, width, '-');
      Parsed(text, base) == (num, |text|) <==> width <= |Digits(num, base)| || (num == 0 && width == 2)
  {
    hide Scan, IsDigit;
    var text, l := NumText(num, base, width, '-'), Digits(num, base);
    TextChars(num, base, width, '-');
    assert |l| == 1 <==> num < base;
    if width <= |l| {
      assert text == NumText(num, base, 0, '0') by { assert Repeat('0', 0 - |l|) == ""; assert Repeat('-', width - |l|) == ""; }
      RoundTrip(num, base, 0, '0');
    } else {
      AfterMinus(text, base);
      if width == |l| + 1 {
        assert text == "-" + NumText(num, base, 0, '0') by { OnePad(num, base, width); }
        ScanText("-", num, base, 0, '0');
      } else {
        NotADigit(base);
        ScanStops(text, 1, base, 0);
      }
    }
  }

  lemma OnePad(num: nat, base: nat, width: int)
    requires 2 <= base <= 16 && width == |Digits(num, base)| + 1
    ensures NumText(num, base, width, '-') == "-" + NumText(num, base, 0, '0')
  {
    hide Digits, Repeat;
    RepeatFew('-');
    RepeatNone('0', 0 - |Digits(num, base)|);
  }

  lemma RepeatFew(c: char)
    ensures Repeat(c, 1) == [c]
  {
    assert Repeat(c, 0) == "";
  }

  lemma RepeatNone(c: char, n: int)
    requires n <= 0
    ensures Repeat(c, n) == ""
  {
  }

  lemma NotADigit(base: nat)
    requires base <= 16
    ensures !IsDigit('-', base) && !IsDigit(' ', base)
  {
  }

  /** A text that begins with a minus sign and no prefix. */
  lemma AfterMinus(s: string, base: nat)
    requires |s| >= 2 && s[0] == '-' && s[1] != 'x' && base != 0 && (|s| >= 3 ==> s[2] != 'x')
    ensures Parsed(s, base) == (Signed64(-Scan(s, 1, base, 0).0), Scan(s, 1, base, 0).1)
  {
    hide Scan;
    assert SkipBlanks(s, 0) == 0;
  }

  /** A negative number printed with %d is read back exactly if it is not padded or padded with zeros. */
  lemma SignedRoundTrip(v: int, width: int, padc: char)
    requires 0 - LONG < v < 0 && (padc == ' ' || padc == '0' || padc == '-')
    ensures var text := "-" + NumText(-v, 10, width, padc);
      Parsed(text, 10) == (v, |text|) <==> width <= |Digits(-v, 10)| || padc == '0'
  {
    hide Scan, IsDigit;
    var num := -v;
    var text, l := "-" + NumText(num, 10, width, padc), Digits(num, 10);
    TextChars(num, 10, width, padc);
    AfterMinus(text, 10);
    if width <= |l| || padc == '0' {
      ScanText("-", num, 10, width, padc);
    } else {
      NotADigit(10);
      assert text[1] == NumText(num, 10, width, padc)[0] == padc;
      ScanStops(text, 1, 10, 0);
    }
  }

  /** A pointer printed with %p is read back, in base 16 or 0, exactly if it is not padded or padded with zeros: the same
      number below 2^63, and the same 64 bits always. */
  lemma PointerRoundTrip(num: nat, base: nat, width: int, padc: char)
    requires (base == 0 || base == 16) && (padc == ' ' || padc == '0' || padc == '-')
    ensures var text := "0x" + NumText(num, 16, width, padc);
      Parsed(text, base) == (Signed64(num), |text|) <==> width <= |Digits(num, 16)| || padc == '0'
    ensures num < LONG ==> Signed64(num) == num
  {
    hide Scan, IsDigit;
    var text, l := "0x" + NumText(num, 16, width, padc), Digits(num, 16);
    TextChars(num, 16, width, padc);
    assert SkipBlanks(text, 0) == 0 && Prefix(text, 0, base) == (2, 16);
    if width <= |l| || padc == '0' {
      ScanText("0x", num, 16, width, padc);
    } else {
      NotADigit(16);
      assert text[2] == NumText(num, 16, width, padc)[0] == padc;
      ScanStops(text, 2, 16, 0);
    }
  }
}
