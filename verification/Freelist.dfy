/** Free lists threaded through the objects of one slab.

    An object is named by its index in the slab; the word of memory that holds its free
    pointer is `mem[index]`.  A free list is NULL-terminated and stays inside its slab. */
module Freelist {

  type SlabId = nat

  datatype Ptr = Null | Ref(slab: SlabId, idx: nat)

  datatype Option<T> = None | Some(value: T)

  /** `l` is, in order, what a walk from `head` along the free pointers meets before NULL. */
  predicate Chain(s: SlabId, mem: seq<Ptr>, head: Ptr, l: seq<nat>)
    decreases |l|
  {
    if l == [] then head == Null
    else l[0] < |mem| && head == Ref(s, l[0]) && Chain(s, mem, mem[l[0]], l[1..])
  }

  /** The objects of `l` are linked one to the next; the last one may point anywhere. */
  predicate Linked(s: SlabId, mem: seq<Ptr>, l: seq<nat>)
  {
    && (forall i :: 0 <= i < |l| ==> l[i] < |mem|)
    && (forall i :: 0 <= i < |l| - 1 ==> mem[l[i]] == Ref(s, l[i + 1]))
  }

  predicate NoDup<T(==)>(l: seq<T>)
  {
    forall i, j :: 0 <= i < j < |l| ==> l[i] != l[j]
  }

  function Last<T>(l: seq<T>): T
    requires l != []
  {
    l[|l| - 1]
  }

  /** Memory after linking the objects of `l`, each to the next. */
  function Link(s: SlabId, mem: seq<Ptr>, l: seq<nat>): (r: seq<Ptr>)
    requires forall i :: 0 <= i < |l| ==> l[i] < |mem|
    ensures |r| == |mem|
    ensures forall x :: 0 <= x < |mem| && x !in l ==> r[x] == mem[x]
    ensures NoDup(l) ==> Linked(s, r, l)
  {
    if |l| <= 1 then mem
    else
      var r := Link(s, mem, l[1..]);
      assert NoDup(l) ==> NoDup(l[1..]);
      r[l[0] := Ref(s, l[1])]
  }

  lemma {:induction false} ChainFrame(s: SlabId, mem: seq<Ptr>, mem': seq<Ptr>, head: Ptr, l: seq<nat>)
    requires Chain(s, mem, head, l)
    requires forall x :: x in l && x < |mem| ==> x < |mem'| && mem'[x] == mem[x]
    ensures Chain(s, mem', head, l)
    decreases |l|
  {
    if l != [] {
      assert forall x :: x in l[1..] ==> x in l;
      ChainFrame(s, mem, mem', mem[l[0]], l[1..]);
    }
  }

  lemma {:induction false} ChainUnique(s: SlabId, mem: seq<Ptr>, head: Ptr, l: seq<nat>, m: seq<nat>)
    requires Chain(s, mem, head, l) && Chain(s, mem, head, m)
    ensures l == m
    decreases |l|
  {
    if l != [] {
      ChainUnique(s, mem, mem[l[0]], l[1..], m[1..]);
      assert l == [l[0]] + l[1..] && m == [m[0]] + m[1..];
    }
  }

  lemma {:induction false} ChainLinked(s: SlabId, mem: seq<Ptr>, head: Ptr, l: seq<nat>)
    requires Chain(s, mem, head, l) && l != []
    ensures Linked(s, mem, l) && head == Ref(s, l[0]) && mem[Last(l)] == Null
    decreases |l|
  {
    if |l| > 1 {
      ChainLinked(s, mem, mem[l[0]], l[1..]);
      forall i | 0 <= i < |l| ensures l[i] < |mem| {
        if i > 0 { assert l[i] == l[1..][i - 1]; }
      }
      forall i | 0 <= i < |l| - 1 ensures mem[l[i]] == Ref(s, l[i + 1]) {
        if i > 0 { assert l[i] == l[1..][i - 1] && l[i + 1] == l[1..][i]; }
      }
    }
  }

  /** Pointing the last object of `l` at the head of `m` concatenates the two lists. */
  lemma {:induction false} ChainSplice(s: SlabId, mem: seq<Ptr>, l: seq<nat>, next: Ptr, m: seq<nat>)
    requires l != [] && Linked(s, mem, l) && mem[Last(l)] == next && Chain(s, mem, next, m)
    ensures Chain(s, mem, Ref(s, l[0]), l + m)
    decreases |l|
  {
    if |l| == 1 {
      assert (l + m)[1..] == m;
    } else {
      ChainSplice(s, mem, l[1..], next, m);
      assert (l + m)[1..] == l[1..] + m;
      assert (l + m)[0] == l[0];
    }
  }

  /** Rewriting the last word of a duplicate-free linked segment keeps it linked. */
  lemma LinkedTail(s: SlabId, mem: seq<Ptr>, l: seq<nat>, v: Ptr)
    requires l != [] && Linked(s, mem, l) && NoDup(l)
    ensures Linked(s, mem[Last(l) := v], l) && mem[Last(l) := v][Last(l)] == v
  {
  }

  // ---- every object of a slab is in exactly one of four places ----

  function Range(n: nat): (r: set<nat>)
    ensures forall x: nat :: x in r <==> x < n
    ensures |r| == n
  {
    if n == 0 then {} else Range(n - 1) + {n - 1}
  }

  /** Slab free list, detached free list, held by callers, being freed: no object twice, none missing. */
  predicate Parts(n: nat, free: seq<nat>, det: seq<nat>, live: set<nat>, pend: set<nat>)
  {
    multiset(free) + multiset(det) + multiset(live) + multiset(pend) == multiset(Range(n))
  }

  lemma PartsSize(n: nat, free: seq<nat>, det: seq<nat>, live: set<nat>, pend: set<nat>)
    requires Parts(n, free, det, live, pend)
    ensures |free| + |det| + |live| + |pend| == n
  {
    assert |multiset(free) + multiset(det) + multiset(live) + multiset(pend)| == n;
  }

  /** What membership of `x` in one part says about the others. */
  lemma PartsAt(n: nat, free: seq<nat>, det: seq<nat>, live: set<nat>, pend: set<nat>, x: nat)
    requires Parts(n, free, det, live, pend)
    ensures x in free ==> x !in det && x !in live && x !in pend
    ensures x in det ==> x !in live && x !in pend
    ensures x in live ==> x !in pend
    ensures x < n <==> x in free || x in det || x in live || x in pend
  {
    var a, b, c, d := multiset(free), multiset(det), multiset(live), multiset(pend);
    assert (a + b + c + d)[x] == multiset(Range(n))[x];
    assert a[x] + b[x] + c[x] + d[x] == multiset(Range(n))[x] <= 1;
    assert x in free <==> x in a;
    assert x in det <==> x in b;
  }

  lemma PartsAll(n: nat, free: seq<nat>, det: seq<nat>, live: set<nat>, pend: set<nat>)
    requires Parts(n, free, det, live, pend)
    ensures forall x :: x in free ==> x !in det && x !in live && x !in pend && x < n
    ensures forall x :: x in det ==> x !in free && x !in live && x !in pend && x < n
    ensures forall x :: x in live ==> x !in free && x !in det && x !in pend && x < n
    ensures forall x :: x in pend ==> x !in free && x !in det && x !in live && x < n
    ensures NoDup(free) && NoDup(det)
  {
    forall x: nat ensures true
      && (x in free ==> x !in det && x !in live && x !in pend && x < n)
      && (x in det ==> x !in free && x !in live && x !in pend && x < n)
      && (x in live ==> x !in free && x !in det && x !in pend && x < n)
      && (x in pend ==> x !in free && x !in det && x !in live && x < n)
    {
      PartsAt(n, free, det, live, pend, x);
    }
    MultisetNoDup(free, n, multiset(det) + multiset(live) + multiset(pend));
    MultisetNoDup(det, n, multiset(free) + multiset(live) + multiset(pend));
  }

  lemma TwiceCounted(l: seq<nat>, i: nat, j: nat)
    requires i < j < |l| && l[i] == l[j]
    ensures multiset(l)[l[i]] >= 2
  {
    assert l == l[..i] + [l[i]] + l[i + 1..j] + [l[i]] + l[j + 1..];
  }

  lemma NoDupCount(l: seq<nat>, x: nat)
    requires NoDup(l)
    ensures multiset(l)[x] <= 1
  {
    if x in l {
      var i :| 0 <= i < |l| && l[i] == x;
      assert l == l[..i] + [x] + l[i + 1..];
      assert x !in l[..i] && x !in l[i + 1..];
    }
  }

  lemma CountNoDup(l: seq<nat>)
    requires forall x :: multiset(l)[x] <= 1
    ensures NoDup(l)
  {
    forall i, j | 0 <= i < j < |l| ensures l[i] != l[j] {
      if l[i] == l[j] { TwiceCounted(l, i, j); }
    }
  }

  lemma MultisetNoDup(l: seq<nat>, n: nat, rest: multiset<nat>)
    requires multiset(l) + rest == multiset(Range(n))
    ensures NoDup(l)
  {
    forall i, j | 0 <= i < j < |l| ensures l[i] != l[j] {
      assert (multiset(l) + rest)[l[i]] <= 1;
      if l[i] == l[j] { TwiceCounted(l, i, j); }
    }
  }

  /** The multiset of a duplicate-free list that is a part of a set. */
  lemma {:induction false} MultisetMinus(s: set<nat>, l: seq<nat>)
    requires NoDup(l) && forall x :: x in l ==> x in s
    ensures multiset(s) == multiset(s - Elems(l)) + multiset(l)
  {
    if l == [] {
      assert s - Elems(l) == s;
    } else {
      var t := l[1..];
      assert NoDup(t);
      forall x | x in t ensures x in s - {l[0]} {
        var i :| 0 <= i < |t| && t[i] == x;
        assert l[i + 1] == x;
      }
      MultisetMinus(s - {l[0]}, t);
      assert l == [l[0]] + t;
      assert s - Elems(l) == s - {l[0]} - Elems(t);
      assert multiset(s) == multiset(s - {l[0]}) + multiset{l[0]};
      assert multiset(l) == multiset{l[0]} + multiset(t);
    }
  }

  function Elems<T(==,!new)>(l: seq<T>): (r: set<T>)
    ensures forall x :: x in r <==> x in l
  {
    set x | x in l
  }

  lemma PartsTake(n: nat, free: seq<nat>, live: set<nat>, pend: set<nat>)
    requires Parts(n, free, [], live, pend)
    ensures Parts(n, [], free, live, pend)
  {
  }

  lemma PartsPop(n: nat, free: seq<nat>, det: seq<nat>, live: set<nat>, pend: set<nat>)
    requires Parts(n, free, det, live, pend) && det != []
    ensures det[0] !in live && det[0] < n
    ensures Parts(n, free, det[1..], live + {det[0]}, pend)
  {
    PartsAt(n, free, det, live, pend, det[0]);
    assert det == [det[0]] + det[1..];
    assert multiset(live + {det[0]}) == multiset(live) + multiset{det[0]};
    assert multiset(det) == multiset{det[0]} + multiset(det[1..]);
  }

  lemma PartsSplice(n: nat, free: seq<nat>, det: seq<nat>, live: set<nat>, pend: set<nat>)
    requires Parts(n, free, det, live, pend)
    ensures Parts(n, det + free, [], live, pend)
  {
  }

  lemma PartsBeginFree(n: nat, free: seq<nat>, det: seq<nat>, live: set<nat>, pend: set<nat>, l: seq<nat>)
    requires Parts(n, free, det, live, pend)
    requires NoDup(l) && forall x :: x in l ==> x in live
    ensures Parts(n, free, det, live - Elems(l), pend + Elems(l))
  {
    MultisetMinus(live, l);
    PartsAll(n, free, det, live, pend);
    assert (pend + Elems(l)) - Elems(l) == pend;
    MultisetMinus(pend + Elems(l), l);
  }

  lemma PartsPush(n: nat, free: seq<nat>, det: seq<nat>, live: set<nat>, pend: set<nat>, l: seq<nat>)
    requires Parts(n, free, det, live, pend)
    requires NoDup(l) && forall x :: x in l ==> x in pend
    ensures Parts(n, l + free, det, live, pend - Elems(l))
    ensures Parts(n, free, l + det, live, pend - Elems(l))
  {
    MultisetMinus(pend, l);
  }

  // ---- maps and names ----

  /** The maps agree except perhaps at `y`. */
  predicate Same<T(==)>(m: map<nat, T>, m': map<nat, T>, y: nat)
  {
    && (forall x :: x in m' && x != y ==> x in m)
    && (forall x :: x in m && x != y ==> x in m' && m'[x] == m[x])
  }

  /** A name that is not in use. */
  lemma Fresh(used: set<nat>) returns (x: nat)
    ensures x !in used
  {
    if forall y :: y in Range(|used| + 1) ==> y in used {
      Subset(Range(|used| + 1), used);
      assert false;
    }
    x :| x in Range(|used| + 1) && x !in used;
  }

  lemma Subset(a: set<nat>, b: set<nat>)
    requires forall x :: x in a ==> x in b
    ensures |a| <= |b|
  {
    if a != {} {
      var x :| x in a;
      Subset(a - {x}, b - {x});
    }
  }

  lemma {:induction false} SetSize(l: seq<nat>)
    requires NoDup(l)
    ensures |Elems(l)| == |l|
  {
    if l != [] {
      SetSize(l[..|l| - 1]);
      assert Elems(l) == Elems(l[..|l| - 1]) + {Last(l)};
    }
  }

  /** n different numbers below n are all the numbers below n. */
  lemma Pigeonhole(l: seq<nat>, n: nat)
    requires NoDup(l) && |l| == n && forall i :: 0 <= i < n ==> l[i] < n
    ensures forall y :: 0 <= y < n ==> y in l
  {
    SetSize(l);
    forall y: nat | y < n ensures y in l {
      if y !in l {
        assert |Elems(l) + {y}| == n + 1;
        Subset(Elems(l) + {y}, Range(n));
      }
    }
  }
}
