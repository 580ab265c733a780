/** What a format directive prints, said without the formatter: as the number that strtol reads back, the length asked
    for, the characters of the string. */
module PrintLaws {
  import opened Freelist
  import opened Powers
  import opened PrintNumber
  import opened Strtol
  import opened PrintFormat

  /** A width or precision: absent, a number, or an argument (`*`). */
  datatype Count = Absent | Written(n: nat) | Star

  /** A directive as it is written: a pad flag ('-', '0', or ' ' for none), '#', width, precision, a number of 'l's and
      the conversion. */
  datatype Directive = Directive(pad: char, alt: bool, width: Count, precision: Count, longs: nat, conv: char)

  predicate Proper(d: Directive)
  {
    && (d.pad == ' ' || d.pad == '-' || d.pad == '0')
    && (d.width.Written? ==> d.width.n >= 1) && (d.precision.Written? ==> d.precision.n >= 1)
    && Final(d.conv)
  }

  /** Neither flag nor digit: it ends the directive. */
  predicate Final(c: char)
  {
    c != '-' && !('0' <= c <= '9') && c != '*' && c != '.' && c != '#' && c != 'l'
  }

  function CountText(c: Count): string
  {
    match c
    case Absent => ""
    case Written(n) => Digits(n, 10)
    case Star => "*"
  }

  function PadText(d: Directive): string
  {
    (if d.pad == ' ' then "" else [d.pad]) + (if d.alt then "#" else "")
  }

  function PrecisionText(d: Directive): string
  {
    if d.precision.Absent? then "" else "." + CountText(d.precision)
  }

  /** The directive as it stands in a format. */
  function Spelled(d: Directive): string
  {
    "%" + PadText(d) + CountText(d.width) + PrecisionText(d) + Repeat('l', d.longs) + [d.conv]
  }

  predicate Stands(f: string, i: nat, s: string)
  {
    i + |s| <= |f| && f[i..i + |s|] == s
  }

  // ---- what the directive asks for ----

  function Value(c: Count, args: Args, a: nat): int
  {
    match c
    case Absent => -1
    case Written(n) => n
    case Star => Signed32(args.words(a))
  }

  function Used(c: Count): nat
  {
    if c.Star? then 1 else 0
  }

  /** The number of the argument that is converted. */
  function Arg(d: Directive, a: nat): nat
  {
    a + Used(d.width) + Used(d.precision)
  }

  /** The width; a precision without a width, or with a negative one, makes it 0. */
  function Width(d: Directive, args: Args, a: nat): int
  {
    var w := Value(d.width, args, a);
    if !d.precision.Absent? && w < 0 then 0 else w
  }

  function Precision(d: Directive, args: Args, a: nat): int
  {
    Value(d.precision, args, a + Used(d.width))
  }

  // ---- reading the directive ----

  lemma Part(f: string, i: nat, s: string, t: string)
    requires Stands(f, i, s + t)
    ensures Stands(f, i, s) && Stands(f, i + |s|, t)
  {
    var st := s + t;
    assert f[i..i + |s|] == f[i..i + |st|][..|s|] == s;
    assert f[i + |s|..i + |st|] == f[i..i + |st|][|s|..] == t;
  }

  lemma At(f: string, i: nat, c: char, t: string)
    requires Stands(f, i, [c] + t)
    ensures i < |f| && f[i] == c && Stands(f, i + 1, t)
  {
    Part(f, i, [c], t);
    assert f[i] == f[i..i + 1][0];
  }

  lemma {:induction false} DecimalReads(f: string, i: nat, num: nat)
    requires Stands(f, i, Digits(num, 10))
    ensures Decimal(f, i, 0) == Decimal(f, i + |Digits(num, 10)|, num)
  {
    hide Digits, Decimal, Stands;
    var q, d := DigitsSplit(num, 10);
    var front := if num < 10 then "" else Digits(q, 10);
    Part(f, i, front, [HEX[d]]);
    if num >= 10 { DecimalReads(f, i, q); }
    At(f, i + |front|, HEX[d], "");
    DecimalOne(f, i + |front|, q, d);
  }

  lemma DecimalOne(f: string, j: nat, q: nat, d: nat)
    requires j < |f| && d < 10 && f[j] == HEX[d]
    ensures Decimal(f, j, q) == Decimal(f, j + 1, q * 10 + d)
  {
    assert HEX[d] as int - '0' as int == d;
  }

  lemma {:induction false} FirstDigit(num: nat)
    requires num >= 1
    ensures '1' <= Digits(num, 10)[0] <= '9'
  {
    if num >= 10 { FirstDigit(num / 10); }
  }

  /** A count in a directive; a number has something that is no digit behind it. */
  lemma CountParses(f: string, args: Args, i: nat, fl: Field, a: nat, c: Count, next: char)
    requires Stands(f, i, CountText(c) + [next]) && (c.Written? ==> c.n >= 1 && !('0' <= next <= '9'))
    ensures i + |CountText(c)| <= |f|
    ensures Parse(f, args, i, fl, a) ==
      Parse(f, args, i + |CountText(c)|, if c.Absent? then fl else Given(fl, Value(c, args, a)), a + Used(c))
  {
    hide Digits, Given, Signed32;
    Part(f, i, CountText(c), [next]);
    assert f[i + |CountText(c)|] == f[i + |CountText(c)|..i + |CountText(c)| + 1][0] == next;
    if c.Written? {
      FirstDigit(c.n);
      DecimalReads(f, i, c.n);
      assert f[i] == f[i..i + |CountText(c)|][0];
      assert Decimal(f, i, 0) == (c.n as int, i + |CountText(c)|);
    } else if c.Star? {
      assert f[i] == f[i..i + 1][0];
    }
  }

  /** Two counts in a row, with no point between them: the first is the width and the second the precision, unless the
      first is a negative argument, in whose place the second is then the width.  Two numbers in a row are one. */
  lemma SecondCountIsPrecision(f: string, args: Args, i: nat, fl: Field, a: nat, c: Count, d: Count, next: char)
    requires Stands(f, i, CountText(c) + (CountText(d) + [next])) && !('0' <= next <= '9') && fl.width < 0
    requires !c.Absent? && !d.Absent? && (c.Star? || d.Star?) && (c.Written? ==> c.n >= 1) && (d.Written? ==> d.n >= 1)
    ensures var v, u, j := Value(c, args, a), Value(d, args, a + Used(c)), i + |CountText(c)| + |CountText(d)|;
      && j <= |f|
      && Parse(f, args, i, fl, a) ==
           Parse(f, args, j, if v < 0 then fl.(width := u, precision := -1) else fl.(width := v, precision := u), a + Used(c) + Used(d))
  {
    hide Parse, Digits, Signed32, Stands;
    var m, n := CountText(c), CountText(d);
    assert m + (n + [next]) == (m + [n[0]]) + (n[1..] + [next]);
    Part(f, i, m + [n[0]], n[1..] + [next]);
    Part(f, i, m, n + [next]);
    CountParses(f, args, i, fl, a, c, n[0]);
    CountParses(f, args, i + |m|, Given(fl, Value(c, args, a)), a + Used(c), d, next);
  }

  lemma PadParses(f: string, args: Args, i: nat, a: nat, d: Directive)
    requires Proper(d) && Stands(f, i, PadText(d))
    ensures Parse(f, args, i, PLAIN, a) == Parse(f, args, i + |PadText(d)|, PLAIN.(padc := d.pad, alt := d.alt), a)
  {
    var m := if d.pad == ' ' then "" else [d.pad];
    var n := if d.alt then "#" else "";
    Part(f, i, m, n);
    if d.pad != ' ' {
      assert f[i] == f[i..i + 1][0] == d.pad;
    }
    if d.alt {
      assert f[i + |m|] == f[i + |m|..i + |m| + 1][0] == '#';
    }
  }

  lemma {:induction false} LongsParse(f: string, args: Args, i: nat, fl: Field, a: nat, longs: nat)
    requires Stands(f, i, Repeat('l', longs))
    ensures Parse(f, args, i, fl, a) == Parse(f, args, i + longs, fl.(lflag := fl.lflag + longs), a)
    decreases longs
  {
    hide Parse;
    if longs > 0 {
      assert Repeat('l', longs) == ['l'] + Repeat('l', longs - 1);
      At(f, i, 'l', Repeat('l', longs - 1));
      OneLong(f, args, i, fl, a);
      LongsParse(f, args, i + 1, fl.(lflag := fl.lflag + 1), a, longs - 1);
    }
  }

  lemma OneLong(f: string, args: Args, i: nat, fl: Field, a: nat)
    requires i < |f| && f[i] == 'l'
    ensures Parse(f, args, i, fl, a) == Parse(f, args, i + 1, fl.(lflag := fl.lflag + 1), a)
  {
  }

  function Tail(d: Directive): string
  {
    Repeat('l', d.longs) + [d.conv]
  }

  lemma TailParses(f: string, args: Args, i: nat, fl: Field, a: nat, d: Directive)
    requires Proper(d) && Stands(f, i, Tail(d)) && fl.lflag == 0
    ensures Parse(f, args, i, fl, a) == Escape(i + d.longs, fl.(lflag := d.longs), a) && i + d.longs < |f| && f[i + d.longs] == d.conv
  {
    hide Repeat;
    Part(f, i, Repeat('l', d.longs), [d.conv]);
    LongsParse(f, args, i, fl, a, d.longs);
    assert f[i + d.longs] == f[i + d.longs..i + d.longs + 1][0];
    EndsThere(f, args, i + d.longs, fl.(lflag := d.longs), a);
  }

  lemma EndsThere(f: string, args: Args, i: nat, fl: Field, a: nat)
    requires i < |f| && Final(f[i])
    ensures Parse(f, args, i, fl, a) == Escape(i, fl, a)
  {
  }

  lemma TailHead(d: Directive)
    requires Proper(d)
    ensures Tail(d) == [Tail(d)[0]] + Tail(d)[1..] && !('0' <= Tail(d)[0] <= '9') && Tail(d)[0] != '.'
  {
    if d.longs > 0 { assert Repeat('l', d.longs) == ['l'] + Repeat('l', d.longs - 1); }
  }

  lemma PrecisionParses(f: string, args: Args, i: nat, fl: Field, a: nat, d: Directive)
    requires Proper(d) && Stands(f, i, PrecisionText(d) + Tail(d)) && fl.precision == -1 && fl.lflag == 0
    ensures var k := i + |PrecisionText(d)| + d.longs;
      && k < |f| && f[k] == d.conv
      && Parse(f, args, i, fl, a) ==
           Escape(k,
                  fl.(width := if !d.precision.Absent? && fl.width < 0 then 0 else fl.width,
                      precision := Value(d.precision, args, a), lflag := d.longs), a + Used(d.precision))
  {
    hide Parse, Digits, Signed32, Tail, Repeat, Stands, CountText;
    var t := Tail(d);
    if d.precision.Absent? {
      assert PrecisionText(d) + t == t;
      TailParses(f, args, i, fl, a, d);
    } else {
      var c := CountText(d.precision);
      PrecisionParts(f, i, d);
      var fl' := fl.(width := if fl.width < 0 then 0 else fl.width);
      DotParses(f, args, i, fl, a);
      CountParses(f, args, i + 1, fl', a, d.precision, t[0]);
      TailParses(f, args, i + 1 + |c|, fl'.(precision := Value(d.precision, args, a)), a + Used(d.precision), d);
    }
  }

  /** The parts of a precision that is given, and what follows it. */
  lemma PrecisionParts(f: string, i: nat, d: Directive)
    requires Proper(d) && Stands(f, i, PrecisionText(d) + Tail(d)) && !d.precision.Absent?
    ensures var c, t := CountText(d.precision), Tail(d);
      && i < |f| && f[i] == '.' && t != [] && !('0' <= t[0] <= '9')
      && Stands(f, i + 1, c + [t[0]]) && Stands(f, i + 1 + |c|, t)
  {
    hide Tail, Repeat, Stands, CountText;
    var c, t := CountText(d.precision), Tail(d);
    TailHead(d);
    Regroup(['.'], c, t);
    At(f, i, '.', c + t);
    Part(f, i + 1, c, t);
    Regroup(c, [t[0]], t[1..]);
    Part(f, i + 1, c + [t[0]], t[1..]);
  }

  lemma Regroup(r: string, s: string, t: string)
    ensures (r + s) + t == r + (s + t)
  {
  }

  lemma DotParses(f: string, args: Args, i: nat, fl: Field, a: nat)
    requires i < |f| && f[i] == '.'
    ensures Parse(f, args, i, fl, a) == Parse(f, args, i + 1, fl.(width := if fl.width < 0 then 0 else fl.width), a)
  {
  }

  /** What follows the width begins with something that is no digit. */
  lemma RestHead(d: Directive)
    requires Proper(d)
    ensures var r := PrecisionText(d) + Tail(d); r == [r[0]] + r[1..] && !('0' <= r[0] <= '9')
  {
    TailHead(d);
  }

  /** Every directive is read as it was written. */
  lemma DirectiveParses(f: string, args: Args, i: nat, a: nat, d: Directive)
    requires Proper(d) && Stands(f, i, Spelled(d))
    ensures i < |f| && f[i] == '%'
    ensures var k := i + |Spelled(d)| - 1;
      && k < |f| && f[k] == d.conv
      && Parse(f, args, i + 1, PLAIN, a) ==
           Escape(k, Field(d.pad, Width(d, args, a), Precision(d, args, a), d.longs, d.alt), Arg(d, a))
  {
    hide Parse, Digits, Signed32, Tail, Repeat, PadText, PrecisionText, CountText;
    var r := PrecisionText(d) + Tail(d);
    var m := DirectiveParts(f, i, d);
    PadParses(f, args, i + 1, a, d);
    var fl := PLAIN.(padc := d.pad, alt := d.alt);
    CountParses(f, args, m, fl, a, d.width, r[0]);
    var fl' := fl.(width := Value(d.width, args, a));
    PrecisionParses(f, args, m + |CountText(d.width)|, fl', a + Used(d.width), d);
  }

  /** The parts of a directive, and where the width begins. */
  lemma DirectiveParts(f: string, i: nat, d: Directive) returns (m: nat)
    requires Proper(d) && Stands(f, i, Spelled(d))
    ensures i < |f| && f[i] == '%' && Stands(f, i + 1, PadText(d)) && m == i + 1 + |PadText(d)|
    ensures var c, r := CountText(d.width), PrecisionText(d) + Tail(d);
      && r != [] && !('0' <= r[0] <= '9') && Stands(f, m, c + [r[0]]) && Stands(f, m + |c|, r)
    ensures i + |Spelled(d)| - 1 == m + |CountText(d.width)| + |PrecisionText(d)| + d.longs
  {
    hide Digits, Tail, Repeat, PadText, PrecisionText, CountText, Stands;
    var p, c, r := PadText(d), CountText(d.width), PrecisionText(d) + Tail(d);
    RestHead(d);
    TailIs(d);
    assert Spelled(d) == ['%'] + (p + (c + r));
    At(f, i, '%', p + (c + r));
    Part(f, i + 1, p, c + r);
    m := i + 1 + |p|;
    assert c + r == (c + [r[0]]) + r[1..];
    Part(f, m, c + [r[0]], r[1..]);
    Part(f, m, c, r);
  }

  lemma TailIs(d: Directive)
    ensures Tail(d) == Repeat('l', d.longs) + [d.conv]
  {
  }

  // ---- what is printed ----

  predicate Known(c: char)
  {
    c == 'c' || c == 'e' || c == 's' || c == 'd' || c == 'u' || c == 'o' || c == 'p' || c == 'x' || c == '%'
  }

  /** `t` is what directive `d` prints in a format: the text before goes on with the rest of the format and, unless the
      directive is for '%', the next argument. */
  predicate Prints(f: string, args: Args, i: nat, a: nat, d: Directive, t: string)
    requires Stands(f, i, Spelled(d))
  {
    Text(f, args, i, a) == t + Text(f, args, i + |Spelled(d)|, if d.conv == '%' then Arg(d, a) else Arg(d, a) + 1)
  }

  function FieldOf(args: Args, a: nat, d: Directive): Field
  {
    Field(d.pad, Width(d, args, a), Precision(d, args, a), d.longs, d.alt)
  }

  lemma DirectivePrints(f: string, args: Args, i: nat, a: nat, d: Directive, t: string)
    requires Proper(d) && Stands(f, i, Spelled(d)) && Converted(args, d.conv, FieldOf(args, a, d), Arg(d, a)) == Some(t)
    ensures Prints(f, args, i, a, d, t)
  {
    hide Parse, Text, Converted, Spelled, Width, Precision, Arg;
    DirectiveParses(f, args, i, a, d);
    SpelledLength(d);
    TextEscape(f, args, i, a);
  }

  lemma SpelledLength(d: Directive)
    ensures |Spelled(d)| >= 2
  {
  }

  /** A directive with another conversion is printed as it stands; its stars have used their arguments. */
  lemma UnknownDirective(f: string, args: Args, i: nat, a: nat, d: Directive)
    requires Proper(d) && Stands(f, i, Spelled(d)) && !Known(d.conv)
    ensures Text(f, args, i, a) == Spelled(d) + Text(f, args, i + |Spelled(d)|, Arg(d, a))
  {
    hide Parse, Text, Spelled, Width, Precision, Arg;
    DirectiveParses(f, args, i, a, d);
    SpelledLength(d);
    UnknownPrintsItself(f, args, i, a);
    var k := i + |Spelled(d)| - 1;
    TextStep(f, args, k, Arg(d, a));
    assert f[i..k] + [f[k]] == f[i..i + |Spelled(d)|];
  }

  /** The argument of an integer conversion: 32 bits wide without 'l', otherwise 64; signed for %d. */
  predicate IsArgument(d: Directive, w: nat, v: int)
  {
    var range := if d.longs == 0 then 0x1_0000_0000 else 0x1_0000_0000_0000_0000;
    && (v - w) % range == 0
    && if d.conv == 'd' then 0 - range <= 2 * v < range else 0 <= v < range
  }

  function Base(c: char): nat
  {
    if c == 'o' then 8 else if c == 'x' || c == 'p' then 16 else 10
  }

  /** Integer conversions.  The text is as wide as asked for, a minus sign not counted, and strtol reads it back as the
      argument: always if it is not negative and padded with blanks or zeros; if it is negative exactly if it is padded
      with zeros or not at all. */
  lemma IntegerDirective(f: string, args: Args, i: nat, a: nat, d: Directive) returns (t: string, v: int)
    requires Proper(d) && Stands(f, i, Spelled(d)) && (d.conv == 'd' || d.conv == 'u' || d.conv == 'o' || d.conv == 'x')
    ensures Prints(f, args, i, a, d, t) && IsArgument(d, args.words(Arg(d, a)), v)
    ensures |t| >= Width(d, args, a) + (if v < 0 then 1 else 0)
    ensures Width(d, args, a) <= 0 && 0 - LONG < v ==> Parsed(t, Base(d.conv)) == (Signed64(v), |t|)
    ensures v >= 0 && d.pad != '-' ==> Parsed(t, Base(d.conv)) == (Signed64(v), |t|)
    ensures 0 - LONG < v < 0 ==>
      (Parsed(t, 10) == (v, |t|) <==> Width(d, args, a) <= |Digits(-v, 10)| || d.pad == '0')
    ensures 0 <= v < LONG && d.pad == '-' ==>
      (Parsed(t, Base(d.conv)) == (v, |t|) <==> Width(d, args, a) <= |Digits(v, Base(d.conv))| || (v == 0 && Width(d, args, a) == 2))
    ensures v < LONG ==> Signed64(v) == v
  {
    hide Text, Parsed, NumText, Spelled, Width, Precision, Arg, Digits;
    var fl, w := FieldOf(args, a, d), args.words(Arg(d, a));
    v := if d.conv == 'd' then GetInt(w, d.longs) else GetUint(w, d.longs);
    ArgumentIs(d, w, v);
    t := if d.conv == 'd' then SignedText(v, fl) else NumText(v, Base(d.conv), fl.width, fl.padc);
    DirectivePrints(f, args, i, a, d, t);
    if v < 0 {
      SignedReads(v, fl.width, fl.padc, t);
    } else {
      UnsignedReads(v, Base(d.conv), fl.width, fl.padc, t);
    }
  }

  lemma ArgumentIs(d: Directive, w: nat, v: int)
    requires v == if d.conv == 'd' then GetInt(w, d.longs) else GetUint(w, d.longs)
    ensures IsArgument(d, w, v)
    ensures v < LONG ==> Signed64(v) == v
  {
    hide Signed64;
    Reduced(w, 0x1_0000_0000);
    Reduced(w, 0x1_0000_0000_0000_0000);
    Reduced(w + 0x8000_0000, 0x1_0000_0000);
    if d.conv == 'd' && d.longs > 0 { Reduced64(w); }
  }

  lemma Reduced(x: int, m: nat)
    requires m > 0
    ensures 0 <= x % m < m && (x % m - x) % m == 0
  {
    Split(x, m);
    assert x % m - x == (-(x / m)) * m;
    ModUnique(x % m - x, m, -(x / m), 0);
  }

  lemma Reduced64(w: int)
    ensures (Signed64(w) - w) % 0x1_0000_0000_0000_0000 == 0
  {
    Reduced(w + LONG, 0x1_0000_0000_0000_0000);
    assert Signed64(w) - w == (w + LONG) % 0x1_0000_0000_0000_0000 - (w + LONG);
  }

  lemma SignedReads(v: int, width: int, padc: char, t: string)
    requires v < 0 && t == "-" + NumText(-v, 10, width, padc) && (padc == ' ' || padc == '0' || padc == '-')
    ensures |t| >= width + 1
    ensures 0 - LONG < v ==> (Parsed(t, 10) == (v, |t|) <==> width <= |Digits(-v, 10)| || padc == '0')
  {
    hide Parsed, NumText, Digits;
    NumTextLength(-v, 10, width, padc);
    if 0 - LONG < v { SignedRoundTrip(v, width, padc); }
  }

  lemma UnsignedReads(v: nat, base: nat, width: int, padc: char, t: string)
    requires (base == 8 || base == 10 || base == 16) && t == NumText(v, base, width, padc) && (padc == ' ' || padc == '0' || padc == '-')
    ensures |t| >= width
    ensures padc != '-' ==> Parsed(t, base) == (Signed64(v), |t|)
    ensures width <= 0 ==> Parsed(t, base) == (Signed64(v), |t|)
    ensures v < LONG && padc == '-' ==>
      (Parsed(t, base) == (v, |t|) <==> width <= |Digits(v, base)| || (v == 0 && width == 2))
  {
    hide Parsed, NumText, Digits;
    NumTextLength(v, base, width, padc);
    if padc != '-' {
      RoundTrip(v, base, width, padc);
    } else {
      if v < LONG { MinusPadding(v, base, width); }
      if width <= 0 {
        NoPadding(v, base, width);
        RoundTrip(v, base, width, ' ');
      }
    }
  }

  lemma NoPadding(v: nat, base: nat, width: int)
    requires 2 <= base <= 16 && width <= 0
    ensures NumText(v, base, width, '-') == NumText(v, base, width, ' ')
  {
    var n := width - |Digits(v, base)|;
    assert Repeat('-', n) == "" == Repeat(' ', n);
  }

  /** %p: the text begins with 0x and is read back in base 16 or 0, as the same 64 bits, exactly if it is not padded or
      padded with zeros. */
  lemma PointerDirective(f: string, args: Args, i: nat, a: nat, d: Directive, base: nat) returns (t: string, v: nat)
    requires Proper(d) && Stands(f, i, Spelled(d)) && d.conv == 'p' && (base == 0 || base == 16)
    ensures Prints(f, args, i, a, d, t) && v == args.words(Arg(d, a)) % 0x1_0000_0000_0000_0000
    ensures |t| >= 2 && |t| >= Width(d, args, a) + 2 && t[..2] == "0x"
    ensures Parsed(t, base) == (Signed64(v), |t|) <==> Width(d, args, a) <= |Digits(v, 16)| || d.pad == '0'
  {
    hide Text, Parsed, NumText, Spelled, Width, Precision, Arg, Digits;
    var fl := FieldOf(args, a, d);
    v := Unsigned64(args.words(Arg(d, a)));
    t := "0x" + NumText(v, 16, fl.width, fl.padc);
    DirectivePrints(f, args, i, a, d, t);
    NumTextLength(v, 16, fl.width, fl.padc);
    PointerRoundTrip(v, base, fl.width, fl.padc);
  }

  /** %c prints one character, the low byte of its argument; %% prints a percent sign and takes no argument. */
  lemma CharacterDirective(f: string, args: Args, i: nat, a: nat, d: Directive) returns (t: string)
    requires Proper(d) && Stands(f, i, Spelled(d)) && (d.conv == 'c' || d.conv == '%')
    ensures Prints(f, args, i, a, d, t) && |t| == 1
    ensures d.conv == 'c' ==> t[0] as int == args.words(Arg(d, a)) % 256
    ensures d.conv == '%' ==> t[0] == '%'
  {
    hide Text, Spelled, Width, Precision;
    t := if d.conv == '%' then "%" else [LowByte(args.words(Arg(d, a)))];
    DirectivePrints(f, args, i, a, d, t);
  }

  function Min(a: int, b: int): int
  {
    if a < b then a else b
  }

  /** A character as %s prints it: with '#', a question mark for what is not printable. */
  predicate ShownAs(c: char, alt: bool, r: char)
  {
    r == if alt && (c < ' ' || '~' < c) then '?' else c
  }

  /** %s prints as many characters of the string as the precision allows, at the end of the field, or with '-' at its
      beginning; what the width leaves is padded with the pad character, or with '-' with blanks. */
  lemma StringDirective(f: string, args: Args, i: nat, a: nat, d: Directive) returns (t: string, s: string, from: nat)
    requires Proper(d) && Stands(f, i, Spelled(d)) && d.conv == 's'
    ensures Prints(f, args, i, a, d, t)
    ensures var w := args.words(Arg(d, a)) % 0x1_0000_0000_0000_0000; s == if w == 0 then "(null)" else args.strings(w)
    ensures var n := if Precision(d, args, a) < 0 then |s| else Min(Precision(d, args, a), |s|);
      && |t| == (if Width(d, args, a) > n then Width(d, args, a) else n)
      && from == (if d.pad == '-' then 0 else |t| - n)
      && (forall k :: 0 <= k < n ==> ShownAs(s[k], d.alt, t[from + k]))
      && (forall k :: 0 <= k < |t| && !(from <= k < from + n) ==> t[k] == if d.pad == '-' then ' ' else d.pad)
  {
    hide Text, Spelled, Width, Precision, Arg, Cut, StringText, ShownAll, Stands, Proper, Prints;
    var fl, w := FieldOf(args, a, d), Unsigned64(args.words(Arg(d, a)));
    s := if w == 0 then "(null)" else args.strings(w);
    t := StringText(s, fl);
    DirectivePrints(f, args, i, a, d, t);
    CutIs(s, fl.precision);
    var cut := Cut(s, fl.precision);
    StringIs(s, fl);
    from := StringLaysOut(cut, fl, t);
    forall k | 0 <= k < |cut| ensures ShownAs(s[k], d.alt, t[from + k]) { ShownAt(cut, fl.alt, k); }
  }

  lemma StringIs(s: string, fl: Field)
    ensures StringText(s, fl) == var shown := ShownAll(Cut(s, fl.precision), fl.alt);
      if fl.width > 0 && fl.padc != '-' then Repeat(fl.padc, fl.width - |shown|) + shown else shown + Repeat(' ', fl.width - |shown|)
  {
  }

  lemma CutIs(s: string, precision: int)
    ensures Cut(s, precision) == s[..if precision < 0 then |s| else Min(precision, |s|)]
  {
  }

  /** Where the characters are in the field, and what is around them. */
  lemma StringLaysOut(cut: string, fl: Field, t: string) returns (from: nat)
    requires t == var shown := ShownAll(cut, fl.alt);
      if fl.width > 0 && fl.padc != '-' then Repeat(fl.padc, fl.width - |shown|) + shown else shown + Repeat(' ', fl.width - |shown|)
    ensures |t| == (if fl.width > |cut| then fl.width else |cut|) && from == (if fl.padc == '-' then 0 else |t| - |cut|)
    ensures t[from..from + |cut|] == ShownAll(cut, fl.alt)
    ensures forall k :: 0 <= k < |cut| ==> t[from + k] == ShownAll(cut, fl.alt)[k]
    ensures forall k :: 0 <= k < |t| && !(from <= k < from + |cut|) ==> t[k] == if fl.padc == '-' then ' ' else fl.padc
  {
    hide ShownAll;
    var shown := ShownAll(cut, fl.alt);
    from := if fl.padc == '-' then 0 else |t| - |cut|;
    var n := fl.width - |shown|;
    var pad := if fl.padc == '-' then ' ' else fl.padc;
    if fl.width > 0 || fl.padc == '-' {
      var gap := Repeat(pad, n);
      forall k | 0 <= k < |t| && !(from <= k < from + |cut|) ensures t[k] == pad {
        assert t[k] == gap[if fl.padc == '-' then k - |cut| else k];
        assert t[k] in gap;
      }
    } else {
      assert Repeat(' ', n) == "";
    }
  }

  lemma {:induction false} ShownAt(s: string, alt: bool, k: nat)
    requires k < |s|
    ensures ShownAs(s[k], alt, ShownAll(s, alt)[k])
  {
    if k > 0 { ShownAt(s[1..], alt, k - 1); }
  }

  /** %e prints the same for an error and its negative: a message for the errors that have one, otherwise the word
      error and the number. */
  lemma ErrorDirective(f: string, args: Args, i: nat, a: nat, d: Directive) returns (t: string, code: nat)
    requires Proper(d) && Stands(f, i, Spelled(d)) && d.conv == 'e'
    ensures Prints(f, args, i, a, d, t)
    ensures code <= 0x8000_0000
    ensures var w := args.words(Arg(d, a)); (w - code) % 0x1_0000_0000 == 0 || (w + code) % 0x1_0000_0000 == 0
    ensures 1 <= code <= 10 && code != 7 ==> ErrorString(code) == Some(t)
    ensures code == 0 || code == 7 || code > 10 ==> |t| > 6 && t[..6] == "error " && Parsed(t[6..], 10) == (code, |t| - 6)
  {
    hide Text, Spelled, Width, Precision, Arg, Parsed, NumText;
    var w := args.words(Arg(d, a));
    var v := Signed32(w);
    code := if v < 0 then -v else v;
    t := ErrorText(v);
    DirectivePrints(f, args, i, a, d, t);
    if code == 0 || code == 7 || code > 10 {
      var num := NumText(code, 10, -1, ' ');
      assert t == "error " + num;
      assert t[6..] == num && t[..6] == "error ";
      NumTextLength(code, 10, -1, ' ');
      RoundTrip(code, 10, -1, ' ');
    }
  }
}
