/** Filtering and reversing sequences. */
module Lists {
  import opened Freelist

  function Not<T>(f: T -> bool): T -> bool
  {
    (x: T) => !f(x)
  }

  /** The elements that satisfy `f`, in order. */
  function Filter<T(!new)>(l: seq<T>, f: T -> bool): (r: seq<T>)
    ensures forall x :: x in r <==> x in l && f(x)
    ensures |r| <= |l|
  {
    if l == [] then []
    else if f(l[0]) then [l[0]] + Filter(l[1..], f) else Filter(l[1..], f)
  }

  lemma {:induction false} FilterAppend<T(!new)>(l: seq<T>, m: seq<T>, f: T -> bool)
    ensures Filter(l + m, f) == Filter(l, f) + Filter(m, f)
    decreases |l|
  {
    if l == [] {
      assert l + m == m;
    } else {
      assert (l + m)[1..] == l[1..] + m && (l + m)[0] == l[0];
      FilterAppend(l[1..], m, f);
    }
  }

  lemma {:induction false} FilterParts<T(!new)>(l: seq<T>, f: T -> bool)
    ensures multiset(l) == multiset(Filter(l, f)) + multiset(Filter(l, Not(f)))
  {
    if l != [] {
      FilterParts(l[1..], f);
      assert l == [l[0]] + l[1..];
    }
  }

  lemma {:induction false} FilterNoDup<T(!new)>(l: seq<T>, f: T -> bool)
    requires NoDup(l)
    ensures NoDup(Filter(l, f))
  {
    if l != [] {
      FilterNoDup(l[1..], f);
      assert l[0] !in l[1..];
    }
  }

  lemma FilterFrom<T(!new)>(q: seq<T>, i: nat, f: T -> bool)
    requires i < |q|
    ensures Filter(q[i..], f) == (if f(q[i]) then [q[i]] else []) + Filter(q[i + 1..], f)
  {
    assert q[i..][1..] == q[i + 1..];
  }

  lemma FilterOne<T(!new)>(x: T, f: T -> bool)
    ensures Filter([x], f) == if f(x) then [x] else []
  {
  }

  function Reversed<T(!new)>(l: seq<T>): (r: seq<T>)
    ensures |r| == |l| && forall x :: x in r <==> x in l
  {
    if l == [] then [] else Reversed(l[1..]) + [l[0]]
  }

  lemma {:induction false} ReversedAppend<T(!new)>(l: seq<T>, x: T)
    ensures Reversed(l + [x]) == [x] + Reversed(l)
  {
    if l == [] {
      assert l + [x] == [x];
    } else {
      assert (l + [x])[1..] == l[1..] + [x];
      ReversedAppend(l[1..], x);
    }
  }

  lemma {:induction false} ReversedMultiset<T(!new)>(l: seq<T>)
    ensures multiset(Reversed(l)) == multiset(l)
  {
    if l != [] {
      ReversedMultiset(l[1..]);
      assert l == [l[0]] + l[1..];
    }
  }

  lemma {:induction false} FirstMatch<T(!new)>(l: seq<T>, f: T -> bool) returns (i: nat)
    requires Filter(l, f) != []
    ensures i < |l| && f(l[i])
  {
    if f(l[0]) { i := 0; } else { i := FirstMatch(l[1..], f); i := i + 1; }
  }
}
