/** The bounded sink of vsnprintf, and printnum. */
module PrintNumber {
  import opened Powers

  /** struct sprintbuf, writing to `str[0..limit)`.  `emitted` is everything that was put, as an unbounded sink
      would have it. */
  class SprintBuf {
    const str: array<char>
    const limit: nat
    var pos: nat
    var cnt: nat
    ghost var emitted: string

    ghost predicate Valid()
      reads this, str
    {
      && limit <= str.Length && cnt == |emitted|
      && pos == (if |emitted| < limit then |emitted| else limit)
      && str[..pos] == emitted[..pos]
    }

    constructor (str: array<char>, limit: nat)
      requires limit <= str.Length
      ensures Valid() && this.str == str && this.limit == limit && emitted == "" && pos == 0
    {
      this.str, this.limit, pos, cnt, emitted := str, limit, 0, 0, "";
    }

    /** sprintputch */
    method Put(ch: char)
      requires Valid()
      modifies this, str
      ensures Valid() && emitted == old(emitted) + [ch]
      ensures Beyond(this, old(str[..]))
    {
      emitted := emitted + [ch];
      cnt := cnt + 1;
      if pos < limit {
        str[pos] := ch;
        pos := pos + 1;
      }
    }
  }

  /** Where nothing has been put yet the buffer is as it was. */
  ghost predicate Beyond(sink: SprintBuf, was: seq<char>)
    reads sink, sink.str
  {
    |was| == sink.str.Length && forall k :: sink.pos <= k < |was| ==> sink.str[k] == was[k]
  }

  function Repeat(ch: char, n: int): (r: string)
    ensures |r| == (if n > 0 then n else 0) && forall c :: c in r ==> c == ch
  {
    if n <= 0 then "" else [ch] + Repeat(ch, n - 1)
  }

  lemma {:induction false} RepeatMore(ch: char, n: int)
    requires n >= 1
    ensures Repeat(ch, n) == Repeat(ch, n - 1) + [ch]
  {
    if n > 1 { RepeatMore(ch, n - 1); }
  }

  const HEX := "0123456789abcdef"

  /** The digits of a number, most significant first, without superfluous zeros. */
  function Digits(num: nat, base: nat): (r: string)
    requires 2 <= base <= 16
    ensures |r| >= 1
  {
    (if num < base then "" else Digits(num / base, base)) + [HEX[num % base]]
  }

  /** What printnum prints: the digits, padded on the left. */
  function NumText(num: nat, base: nat, width: int, padc: char): string
    requires 2 <= base <= 16
  {
    Repeat(padc, width - |Digits(num, base)|) + Digits(num, base)
  }

  /** The text is as long as asked for, or as long as the number needs. */
  lemma NumTextLength(num: nat, base: nat, width: int, padc: char)
    requires 2 <= base <= 16
    ensures |NumText(num, base, width, padc)| == if width > |Digits(num, base)| then width else |Digits(num, base)|
  {
  }

  method PutRepeat(sink: SprintBuf, ch: char, times: int)
    requires sink.Valid()
    modifies sink, sink.str
    ensures sink.Valid() && sink.emitted == old(sink.emitted) + Repeat(ch, times)
    ensures Beyond(sink, old(sink.str[..]))
  {
    var width := times;
    while width > 0
      invariant sink.Valid() && (width <= 0 ==> width == times || width == 0) && width <= times
      invariant sink.emitted == old(sink.emitted) + Repeat(ch, if width >= 0 then times - width else 0)
      invariant Beyond(sink, old(sink.str[..]))
    {
      sink.Put(ch);
      width := width - 1;
      RepeatMore(ch, times - width);
    }
  }

  /** printnum */
  method PrintNum(sink: SprintBuf, num: nat, base: nat, width: int, padc: char)
    requires sink.Valid() && 2 <= base <= 16
    modifies sink, sink.str
    ensures sink.Valid() && sink.emitted == old(sink.emitted) + NumText(num, base, width, padc)
    ensures Beyond(sink, old(sink.str[..]))
    decreases num
  {
    var result, mod := num / base, num % base;
    if num >= base {
      Smaller(num, base);
      PrintNum(sink, result, base, width - 1, padc);
    } else {
      PutRepeat(sink, padc, width - 1);
    }
    sink.Put(HEX[mod]);
  }

  lemma Smaller(num: nat, base: nat)
    requires base >= 2 && num >= base
    ensures num / base < num
  {
    Split(num, base);
    AtLeastTwice(num / base, base);
  }

  lemma AtLeastTwice(q: nat, base: nat)
    requires base >= 2
    ensures q * base >= q + q
  {
    Distribute(base, 1, q);
    Far(base - 1, q);
  }
}
