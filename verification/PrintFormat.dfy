/** vprintfmt and vsnprintf.

    `Text` says what a format and its arguments print; the methods, which follow the source's loops with their
    jumps and the rewind on unknown escapes, are proved to emit exactly that. */
module PrintFormat {
  import opened Freelist
  import opened PrintNumber
  import opened Strtol

  const MAXERROR: int := 24
  const E_INVAL: int := 3

  /** Variable arguments: the 64-bit words in order, and the NUL-terminated strings in memory by address. */
  datatype Args = Args(words: nat -> nat, strings: nat -> string)

  function Unsigned32(w: nat): nat
  {
    w % 0x1_0000_0000
  }

  function Signed32(w: nat): int
  {
    (w + 0x8000_0000) % 0x1_0000_0000 - 0x8000_0000
  }

  function Unsigned64(w: nat): nat
  {
    w % (2 * LONG)
  }

  /** The low byte, as putch stores it. */
  function LowByte(w: nat): char
  {
    (w % 256) as char
  }

  // ---- the field of an escape sequence ----

  datatype Field = Field(padc: char, width: int, precision: int, lflag: nat, alt: bool)

  const PLAIN := Field(' ', -1, -1, 0, false)

  /** process_precision: the first number is the width, later ones are the precision. */
  function Given(fl: Field, value: int): Field
  {
    if fl.width < 0 then fl.(width := value, precision := -1) else fl.(precision := value)
  }

  /** A decimal number from index i on, and where it ends. */
  function Decimal(f: string, i: nat, acc: int): (r: (int, nat))
    requires i <= |f|
    ensures i <= r.1 <= |f| && (i < |f| && '0' <= f[i] <= '9' ==> i < r.1) && forall m :: i <= m < r.1 ==> '0' <= f[m] <= '9'
    decreases |f| - i
  {
    if i < |f| && '0' <= f[i] <= '9' then Decimal(f, i + 1, acc * 10 + (f[i] as int - '0' as int)) else (acc, i)
  }

  /** The index of the conversion character, the field before it and the next argument. */
  datatype Escape = Escape(at: nat, field: Field, arg: nat)

  function Parse(f: string, args: Args, i: nat, fl: Field, a: nat): (r: Escape)
    requires i <= |f|
    ensures i <= r.at <= |f| && forall m :: i <= m < r.at ==> f[m] != '%'
    decreases |f| - i
  {
    if i == |f| then Escape(i, fl, a)
    else if f[i] == '-' then Parse(f, args, i + 1, fl.(padc := '-'), a)
    else if f[i] == '0' then Parse(f, args, i + 1, fl.(padc := '0'), a)
    else if '1' <= f[i] <= '9' then
      var (value, j) := Decimal(f, i, 0);
      Parse(f, args, j, Given(fl, value), a)
    else if f[i] == '*' then Parse(f, args, i + 1, Given(fl, Signed32(args.words(a))), a + 1)
    else if f[i] == '.' then Parse(f, args, i + 1, if fl.width < 0 then fl.(width := 0) else fl, a)
    else if f[i] == '#' then Parse(f, args, i + 1, fl.(alt := true), a)
    else if f[i] == 'l' then Parse(f, args, i + 1, fl.(lflag := fl.lflag + 1), a)
    else Escape(i, fl, a)
  }

  // ---- what a conversion prints ----

  function Shown(c: char, alt: bool): char
  {
    if alt && (c < ' ' || c > '~') then '?' else c
  }

  function ShownAll(s: string, alt: bool): (r: string)
    ensures |r| == |s|
  {
    if s == "" then "" else [Shown(s[0], alt)] + ShownAll(s[1..], alt)
  }

  /** As much of a string as the precision allows. */
  function Cut(s: string, precision: int): (r: string)
    ensures |r| <= |s|
  {
    if precision < 0 || precision >= |s| then s else s[..precision]
  }

  /** %s: on the left padded with the pad character, or on the right with blanks. */
  function StringText(s: string, fl: Field): string
  {
    var shown := ShownAll(Cut(s, fl.precision), fl.alt);
    if fl.width > 0 && fl.padc != '-' then Repeat(fl.padc, fl.width - |shown|) + shown
    else shown + Repeat(' ', fl.width - |shown|)
  }

  function ErrorString(err: int): Option<string>
  {
    if err == 1 then Some("unspecified error")
    else if err == 2 then Some("bad process")
    else if err == 3 then Some("invalid parameter")
    else if err == 4 then Some("out of memory")
    else if err == 5 then Some("out of processes")
    else if err == 6 then Some("segmentation fault")
    else if err == 8 then Some("invalid elf file")
    else if err == 9 then Some("process is killed")
    else if err == 10 then Some("panic failure")
    else None
  }

  function ErrorText(code: int): string
  {
    var err := if code < 0 then -code else code;
    if err > MAXERROR || ErrorString(err).None? then "error " + NumText(err, 10, -1, ' ')
    else ErrorString(err).value
  }

  function SignedText(v: int, fl: Field): string
  {
    if v < 0 then "-" + NumText(-v, 10, fl.width, fl.padc) else NumText(v, 10, fl.width, fl.padc)
  }

  function GetInt(w: nat, lflag: nat): int
  {
    if lflag >= 1 then Signed64(w) else Signed32(w)
  }

  function GetUint(w: nat, lflag: nat): nat
  {
    if lflag >= 1 then Unsigned64(w) else Unsigned32(w)
  }

  /** The text of a conversion, if there is such a conversion. */
  function Converted(args: Args, ch: char, fl: Field, a: nat): Option<string>
  {
    var w := args.words(a);
    match ch
    case 'c' => Some([LowByte(w)])
    case 'e' => Some(ErrorText(Signed32(w)))
    case 's' => Some(StringText(if Unsigned64(w) == 0 then "(null)" else args.strings(Unsigned64(w)), fl))
    case 'd' => Some(SignedText(GetInt(w, fl.lflag), fl))
    case 'u' => Some(NumText(GetUint(w, fl.lflag), 10, fl.width, fl.padc))
    case 'o' => Some(NumText(GetUint(w, fl.lflag), 8, fl.width, fl.padc))
    case 'p' => Some("0x" + NumText(Unsigned64(w), 16, fl.width, fl.padc))
    case 'x' => Some(NumText(GetUint(w, fl.lflag), 16, fl.width, fl.padc))
    case '%' => Some("%")
    case _ => None
  }

  function Char(f: string, i: nat): char
  {
    if i < |f| then f[i] else '\0'
  }

  /** What the format prints from index i on, with arguments from number a on.  An unknown escape sequence prints
      its '%', and what follows the '%' is then ordinary text. */
  function Text(f: string, args: Args, i: nat, a: nat): string
    requires i <= |f|
    decreases |f| - i
  {
    if i == |f| then ""
    else if f[i] != '%' then [f[i]] + Text(f, args, i + 1, a)
    else
      var e := Parse(f, args, i + 1, PLAIN, a);
      var ch := Char(f, e.at);
      match Converted(args, ch, e.field, e.arg)
      case Some(t) => if e.at < |f| then t + Text(f, args, e.at + 1, if ch == '%' then e.arg else e.arg + 1) else t
      case None => "%" + Text(f, args, i + 1, e.arg)
  }

  // ---- the methods ----

  /** The loop over one escape sequence up to its conversion character. */
  method ParseField(z: seq<char>, ghost n: nat, args: Args, start: nat, first: nat) returns (i: nat, fl: Field, a: nat)
    requires n < |z| && z[n] == '\0' && start <= n
    ensures Escape(i, fl, a) == Parse(z[..n], args, start, PLAIN, first)
  {
    ghost var f := z[..n];
    i, fl, a := start, PLAIN, first;
    while true
      invariant start <= i <= n && Parse(f, args, i, fl, a) == Parse(f, args, start, PLAIN, first)
      decreases n - i
    {
      var ch := z[i];
      if ch == '-' {
        fl, i := fl.(padc := '-'), i + 1;
      } else if ch == '0' {
        fl, i := fl.(padc := '0'), i + 1;
      } else if '1' <= ch <= '9' {
        var precision;
        precision, i := PassDecimal(z, n, i);
        fl := Given(fl, precision);
      } else if ch == '*' {
        fl, i, a := Given(fl, Signed32(args.words(a))), i + 1, a + 1;
      } else if ch == '.' {
        if fl.width < 0 { fl := fl.(width := 0); }
        i := i + 1;
      } else if ch == '#' {
        fl, i := fl.(alt := true), i + 1;
      } else if ch == 'l' {
        fl, i := fl.(lflag := fl.lflag + 1), i + 1;
      } else {
        return;
      }
    }
  }

  method PassDecimal(z: seq<char>, ghost n: nat, from: nat) returns (precision: int, i: nat)
    requires n < |z| && z[n] == '\0' && from <= n
    ensures (precision, i) == Decimal(z[..n], from, 0)
  {
    precision, i := 0, from;
    while '0' <= z[i] <= '9'
      invariant from <= i <= n && Decimal(z[..n], i, precision) == Decimal(z[..n], from, 0)
      decreases n - i
    {
      precision := precision * 10 + (z[i] as int - '0' as int);
      i := i + 1;
    }
  }

  method PutString(sink: SprintBuf, s: string)
    requires sink.Valid()
    modifies sink, sink.str
    ensures sink.Valid() && sink.emitted == old(sink.emitted) + s
    ensures Beyond(sink, old(sink.str[..]))
  {
    var i := 0;
    while i < |s|
      invariant 0 <= i <= |s| && sink.Valid() && sink.emitted == old(sink.emitted) + s[..i]
      invariant Beyond(sink, old(sink.str[..]))
    {
      assert s[..i + 1] == s[..i] + [s[i]];
      sink.Put(s[i]);
      i := i + 1;
    }
    assert s[..i] == s;
  }

  /** strnlen; a negative bound is, as an unsigned number, no bound. */
  method Strnlen(s: string, len: int) returns (cnt: nat)
    ensures cnt == |Cut(s, len)|
  {
    cnt := 0;
    while (len < 0 || cnt < len) && cnt < |s|
      invariant cnt <= |s| && (len >= 0 ==> cnt <= len)
    {
      cnt := cnt + 1;
    }
  }

  lemma {:induction false} ShownMore(s: string, alt: bool)
    requires s != ""
    ensures ShownAll(s, alt) == ShownAll(s[..|s| - 1], alt) + [Shown(s[|s| - 1], alt)]
  {
    if |s| > 1 {
      ShownMore(s[1..], alt);
      assert s[1..][..|s| - 2] == s[..|s| - 1][1..];
    }
  }

  /** The conversion %s. */
  method PrintString(sink: SprintBuf, s: string, fl: Field)
    requires sink.Valid()
    modifies sink, sink.str
    ensures sink.Valid() && sink.emitted == old(sink.emitted) + StringText(s, fl)
    ensures Beyond(sink, old(sink.str[..]))
  {
    hide ShownAll, Repeat, Cut, StringText;
    var width, precision := fl.width, fl.precision;
    if width > 0 && fl.padc != '-' {
      var len := Strnlen(s, precision);
      width := width - len;
      PutRepeat(sink, fl.padc, width);
      if width > 0 { width := 0; }
    }
    ghost var before := width;
    width := PrintChars(sink, s, fl, width);
    PutRepeat(sink, ' ', width);
    StringTextIs(s, fl, before);
  }

  /** As many characters as the precision allows; each takes one off the width. */
  method PrintChars(sink: SprintBuf, s: string, fl: Field, width: int) returns (left: int)
    requires sink.Valid()
    modifies sink, sink.str
    ensures var cut := Cut(s, fl.precision);
      sink.emitted == old(sink.emitted) + ShownAll(cut, fl.alt) && left == width - |cut|
    ensures sink.Valid() && Beyond(sink, old(sink.str[..]))
  {
    var precision := fl.precision;
    left := width;
    ghost var cut := Cut(s, precision);
    var k := 0;
    while k < |s| && (precision < 0 || precision - 1 >= 0)
      invariant 0 <= k <= |cut| && left == width - k && sink.Valid() && Beyond(sink, old(sink.str[..]))
      invariant if fl.precision < 0 then precision == fl.precision else precision == fl.precision - k
      invariant sink.emitted == old(sink.emitted) + ShownAll(cut[..k], fl.alt)
    {
      assert cut[..k + 1][..k] == cut[..k] && cut[k] == s[k];
      ShownMore(cut[..k + 1], fl.alt);
      if precision >= 0 { precision := precision - 1; }
      sink.Put(Shown(s[k], fl.alt));
      k := k + 1;
      left := left - 1;
    }
    assert cut[..k] == cut;
  }

  lemma StringTextIs(s: string, fl: Field, width: int)
    requires var n := |Cut(s, fl.precision)|;
      width == if fl.width > 0 && fl.padc != '-' then (if fl.width - n > 0 then 0 else fl.width - n) else fl.width
    ensures var cut := Cut(s, fl.precision);
      StringText(s, fl) ==
        (if fl.width > 0 && fl.padc != '-' then Repeat(fl.padc, fl.width - |cut|) else "") + ShownAll(cut, fl.alt) + Repeat(' ', width - |cut|)
  {
  }

  /** The conversions; `known` is false, and nothing is printed, for other characters. */
  method Convert(sink: SprintBuf, args: Args, ch: char, fl: Field, a: nat) returns (known: bool)
    requires sink.Valid()
    modifies sink, sink.str
    ensures sink.Valid() && known == Converted(args, ch, fl, a).Some?
    ensures sink.emitted == old(sink.emitted) + if known then Converted(args, ch, fl, a).value else ""
    ensures Beyond(sink, old(sink.str[..]))
  {
    hide NumText, StringText, Signed64, Signed32, Unsigned32, Unsigned64;
    var w := args.words(a);
    known := true;
    if ch == 'c' {
      sink.Put(LowByte(w));
    } else if ch == 'e' {
      PrintError(sink, Signed32(w));
    } else if ch == 's' {
      PrintString(sink, if Unsigned64(w) == 0 then "(null)" else args.strings(Unsigned64(w)), fl);
    } else if ch == 'd' {
      var num := GetInt(w, fl.lflag);
      PrintSigned(sink, num, fl);
    } else if ch == 'u' {
      PrintNum(sink, GetUint(w, fl.lflag), 10, fl.width, fl.padc);
    } else if ch == 'o' {
      PrintNum(sink, GetUint(w, fl.lflag), 8, fl.width, fl.padc);
    } else if ch == 'p' {
      sink.Put('0');
      sink.Put('x');
      PrintNum(sink, Unsigned64(w), 16, fl.width, fl.padc);
    } else if ch == 'x' {
      PrintNum(sink, GetUint(w, fl.lflag), 16, fl.width, fl.padc);
    } else if ch == '%' {
      sink.Put('%');
    } else {
      known := false;
    }
  }

  method PrintSigned(sink: SprintBuf, v: int, fl: Field)
    requires sink.Valid()
    modifies sink, sink.str
    ensures sink.Valid() && sink.emitted == old(sink.emitted) + SignedText(v, fl)
    ensures Beyond(sink, old(sink.str[..]))
  {
    hide NumText;
    var num := v;
    if num < 0 {
      sink.Put('-');
      num := -num;
    }
    PrintNum(sink, num, 10, fl.width, fl.padc);
  }

  /** The conversion %e, with the texts of its two inner formats. */
  method PrintError(sink: SprintBuf, code: int)
    requires sink.Valid()
    modifies sink, sink.str
    ensures sink.Valid() && sink.emitted == old(sink.emitted) + ErrorText(code)
    ensures Beyond(sink, old(sink.str[..]))
  {
    hide NumText;
    var err := if code < 0 then -code else code;
    if err > MAXERROR || ErrorString(err).None? {
      PutString(sink, "error ");
      PrintNum(sink, err, 10, -1, ' ');
    } else {
      PutString(sink, ErrorString(err).value);
    }
  }

  /** vprintfmt on a NUL-terminated format; nothing after the NUL is read. */
  method Vprintfmt(sink: SprintBuf, z: seq<char>, ghost n: nat, args: Args)
    requires sink.Valid() && n < |z| && z[n] == '\0' && '\0' !in z[..n]
    modifies sink, sink.str
    ensures sink.Valid() && sink.emitted == old(sink.emitted) + Text(z[..n], args, 0, 0)
    ensures Beyond(sink, old(sink.str[..]))
  {
    hide Text, Parse, Converted;
    ghost var f, goal := z[..n], old(sink.emitted) + Text(z[..n], args, 0, 0);
    var i, a := 0, 0;
    while true
      invariant 0 <= i <= n && a >= 0 && sink.Valid() && sink.emitted + Text(f, args, i, a) == goal
      invariant Beyond(sink, old(sink.str[..]))
      decreases n - i
    {
      ghost var from := i;
      while z[i] != '%'
        invariant from <= i <= n && sink.Valid() && sink.emitted + Text(f, args, i, a) == goal
        invariant Beyond(sink, old(sink.str[..]))
        decreases n - i
      {
        TextStep(f, args, i, a);
        if z[i] == '\0' {
          return;
        }
        assert sink.emitted + ([z[i]] + Text(f, args, i + 1, a)) == (sink.emitted + [z[i]]) + Text(f, args, i + 1, a);
        sink.Put(z[i]);
        i := i + 1;
      }
      i, a := PrintEscape(sink, z, n, args, i, a);
    }
  }

  /** One escape sequence, at index `start`; what it prints and what is left make up the text from there. */
  method PrintEscape(sink: SprintBuf, z: seq<char>, ghost n: nat, args: Args, start: nat, first: nat) returns (i: nat, a: nat)
    requires sink.Valid() && n < |z| && z[n] == '\0' && '\0' !in z[..n] && start < n && z[start] == '%'
    modifies sink, sink.str
    ensures sink.Valid() && Beyond(sink, old(sink.str[..])) && start < i <= n && |sink.emitted| >= |old(sink.emitted)|
    ensures sink.emitted + Text(z[..n], args, i, a) == old(sink.emitted) + Text(z[..n], args, start, first)
  {
    hide Text, Parse, Converted;
    ghost var f, sofar := z[..n], sink.emitted;
    TextEscape(f, args, start, first);
    var fl;
    i, fl, a := ParseField(z, n, args, start + 1, first);
    var known := Convert(sink, args, z[i], fl, a);
    if known {
      ghost var t := Converted(args, z[i], fl, a).value;
      a := if z[i] == '%' then a else a + 1;
      i := i + 1;
      assert sofar + (t + Text(f, args, i, a)) == (sofar + t) + Text(f, args, i, a);
    } else {
      sink.Put('%');
      while z[i - 1] != '%'
        invariant start < i <= n && forall m :: start < m < i ==> z[m] != '%'
        decreases i
      {
        i := i - 1;
      }
      assert sofar + ("%" + Text(f, args, i, a)) == (sofar + "%") + Text(f, args, i, a);
    }
  }

  lemma TextStep(f: string, args: Args, i: nat, a: nat)
    requires i <= |f|
    ensures i == |f| ==> Text(f, args, i, a) == ""
    ensures i < |f| && f[i] != '%' ==> Text(f, args, i, a) == [f[i]] + Text(f, args, i + 1, a)
  {
  }

  /** An escape sequence: the NUL is not a conversion, so what is converted ends before it. */
  lemma TextEscape(f: string, args: Args, i: nat, a: nat)
    requires i < |f| && f[i] == '%'
    ensures var e := Parse(f, args, i + 1, PLAIN, a);
      var ch := Char(f, e.at);
      && i < e.at <= |f| && (forall m :: i < m < e.at ==> f[m] != '%')
      && (match Converted(args, ch, e.field, e.arg)
          case Some(t) =>
            e.at < |f| && Text(f, args, i, a) == t + Text(f, args, e.at + 1, if ch == '%' then e.arg else e.arg + 1)
          case None => Text(f, args, i, a) == "%" + Text(f, args, i + 1, e.arg))
  {
    hide Parse, Converted;
    var e := Parse(f, args, i + 1, PLAIN, a);
    NulConvertsNothing(args, e.field, e.arg);
  }

  lemma NulConvertsNothing(args: Args, fl: Field, a: nat)
    ensures Converted(args, '\0', fl, a).None?
  {
  }

  /** vsnprintf into the first `size` characters of a buffer. */
  method Vsnprintf(str: array?<char>, size: nat, z: seq<char>, ghost n: nat, args: Args) returns (r: int)
    requires n < |z| && z[n] == '\0' && '\0' !in z[..n]
    requires str != null ==> size <= str.Length
    modifies if str == null then {} else {str}
    ensures str == null || size == 0 ==> r == -E_INVAL
    ensures str != null && size == 0 ==> str[..] == old(str[..])
    ensures str != null && size >= 1 ==>
      var text := Text(z[..n], args, 0, 0);
      var kept := if |text| < size - 1 then |text| else size - 1;
      && r == |text| && str[..kept] == text[..kept] && str[kept] == '\0' && str[kept + 1..] == old(str[kept + 1..])
  {
    hide Text;
    if str == null || size == 0 {
      return -E_INVAL;
    }
    var b := new SprintBuf(str, size - 1);
    Vprintfmt(b, z, n, args);
    ghost var text := b.emitted;
    assert text == Text(z[..n], args, 0, 0) by { assert "" + Text(z[..n], args, 0, 0) == Text(z[..n], args, 0, 0); }
    ghost var kept := b.pos;
    assert str[..kept] == text[..kept];
    str[b.pos] := '\0';
    assert str[..kept] == text[..kept];
    return b.cnt;
  }

  // ---- what some formats print ----

  /** Up to the next '%' a format prints itself; with an unknown escape sequence before it, that includes the '%'. */
  lemma {:induction false} PlainPrintsItself(f: string, args: Args, i: nat, j: nat, a: nat)
    requires i <= j <= |f| && forall m :: i <= m < j ==> f[m] != '%'
    ensures Text(f, args, i, a) == f[i..j] + Text(f, args, j, a)
    decreases j - i
  {
    hide Text;
    if i < j {
      TextStep(f, args, i, a);
      PlainPrintsItself(f, args, i + 1, j, a);
      assert f[i..j] == [f[i]] + f[i + 1..j];
    } else {
      assert f[i..j] + Text(f, args, j, a) == Text(f, args, j, a);
    }
  }

  /** An escape sequence that is unknown, or that the end of the format cuts off, is printed as it stands. */
  lemma UnknownPrintsItself(f: string, args: Args, i: nat, a: nat)
    requires i < |f| && f[i] == '%'
    requires var e := Parse(f, args, i + 1, PLAIN, a); Converted(args, Char(f, e.at), e.field, e.arg).None?
    ensures var e := Parse(f, args, i + 1, PLAIN, a); Text(f, args, i, a) == f[i..e.at] + Text(f, args, e.at, e.arg)
  {
    hide Text, Parse, Converted;
    var e := Parse(f, args, i + 1, PLAIN, a);
    TextEscape(f, args, i, a);
    PlainPrintsItself(f, args, i + 1, e.at, e.arg);
    assert f[i..e.at] == "%" + f[i + 1..e.at];
  }

  /** The inner formats of %e print what `ErrorText` says. */
  lemma InnerFormats(err: int, s: string, args: Args)
    requires 0 <= err < 0x8000_0000 && args.words(0) == err
    ensures Text("error %d", args, 0, 0) == "error " + NumText(err, 10, -1, ' ')
    ensures err != 0 && args.strings(err) == s ==> Text("%s", args, 0, 0) == s
  {
    hide Text, NumText;
    InnerNumber(err, args);
    if err != 0 && args.strings(err) == s { InnerString(err, s, args); }
  }

  lemma InnerNumber(err: int, args: Args)
    requires 0 <= err < 0x8000_0000 && args.words(0) == err
    ensures Text("error %d", args, 0, 0) == "error " + NumText(err, 10, -1, ' ')
  {
    hide Text, NumText, StringText, ErrorText, Parse;
    var f := "error %d";
    PlainPrintsItself(f, args, 0, 6, 0);
    assert f[0..6] == "error ";
    ParseNothing(f, args, 7, PLAIN, 0);
    TextEscape(f, args, 6, 0);
    TextStep(f, args, 8, 1);
    assert Text(f, args, 6, 0) == NumText(err, 10, -1, ' ') + "";
  }

  lemma InnerString(err: int, s: string, args: Args)
    requires 0 < err < 0x8000_0000 && args.words(0) == err && args.strings(err) == s
    ensures Text("%s", args, 0, 0) == s
  {
    hide Text, NumText, ErrorText, Parse, ShownAll;
    var f := "%s";
    ParseNothing(f, args, 1, PLAIN, 0);
    TextEscape(f, args, 0, 0);
    TextStep(f, args, 2, 1);
    ShownPlain(s);
    assert StringText(s, PLAIN) == s + "";
    assert Text(f, args, 0, 0) == s + "";
  }

  /** A conversion character ends the escape sequence. */
  lemma ParseNothing(f: string, args: Args, i: nat, fl: Field, a: nat)
    requires i < |f| && (f[i] == 'd' || f[i] == 's')
    ensures Parse(f, args, i, fl, a) == Escape(i, fl, a)
  {
  }

  lemma {:induction false} ShownPlain(s: string)
    ensures ShownAll(s, false) == s
  {
    if s != "" { ShownPlain(s[1..]); }
  }

  /** What %ld prints, strtol reads back, for every 64-bit number but the smallest. */
  lemma DecimalIsReadBack(args: Args)
    requires Signed64(args.words(0)) > 0 - LONG
    ensures var text := Text("%ld", args, 0, 0); Parsed(text, 10) == (Signed64(args.words(0)), |text|)
  {
    hide NumText, Parsed, Signed64;
    var f, v, fl := "%ld", Signed64(args.words(0)), PLAIN.(lflag := 1);
    assert Parse(f, args, 2, fl, 0) == Escape(2, fl, 0);
    assert Parse(f, args, 1, PLAIN, 0) == Escape(2, fl, 0);
    assert Text(f, args, 3, 1) == "";
    assert Text(f, args, 0, 0) == SignedText(v, fl) + "" == SignedText(v, fl);
    if v < 0 {
      SignedRoundTrip(v, -1, ' ');
    } else {
      RoundTrip(v, 10, -1, ' ');
    }
  }

  /** What %p prints, strtol reads back in base 16 or 0, for every address: as the same 64 bits. */
  lemma PointerIsReadBack(args: Args, base: nat)
    requires base == 0 || base == 16
    ensures var text := Text("%p", args, 0, 0); Parsed(text, base) == (Signed64(Unsigned64(args.words(0))), |text|)
    ensures Unsigned64(args.words(0)) < LONG ==> Signed64(Unsigned64(args.words(0))) == Unsigned64(args.words(0))
  {
    hide NumText, Parsed, Unsigned64;
    var f, num := "%p", Unsigned64(args.words(0));
    assert Parse(f, args, 1, PLAIN, 0) == Escape(1, PLAIN, 0);
    assert Text(f, args, 2, 1) == "";
    assert Text(f, args, 0, 0) == ("0x" + NumText(num, 16, -1, ' ')) + "" == "0x" + NumText(num, 16, -1, ' ');
    PointerRoundTrip(num, base, -1, ' ');
  }
}
