/** __kmem_cache_do_shrink on one node, without concurrent frees: empty slabs go, and the fullest come first. */
module Shrink {
  import opened Freelist
  import opened Lists

  const SHRINK_PROMOTE_MAX: nat := 32

  datatype Slab = Slab(id: nat, objects: nat, inuse: nat)

  function Free(s: Slab): int
  {
    s.objects - s.inuse
  }

  /** All objects free: to be discarded. */
  predicate Empty(s: Slab)
  {
    Free(s) == s.objects
  }

  /** To be promoted, with f free objects. */
  function Promoted(f: int): Slab -> bool
  {
    (s: Slab) => !Empty(s) && Free(s) == f
  }

  /** Left where it is. */
  predicate Stays(s: Slab)
  {
    !Empty(s) && Free(s) > SHRINK_PROMOTE_MAX
  }

  /** The new list from the slabs with `from` free objects on. */
  function Buckets(q: seq<Slab>, from: nat): seq<Slab>
    requires 1 <= from <= SHRINK_PROMOTE_MAX + 1
    decreases SHRINK_PROMOTE_MAX + 1 - from
  {
    if from == SHRINK_PROMOTE_MAX + 1 then Filter(q, Stays)
    else Reversed(Filter(q, Promoted(from))) + Buckets(q, from + 1)
  }

  class Node {
    var partial: seq<Slab>
    var nrPartial: int

    /** `discard` are the slabs that are freed. */
    method DoShrink() returns (discard: seq<Slab>)
      requires forall s :: s in partial ==> 0 < Free(s) <= s.objects
      modifies this
      ensures partial == Buckets(old(partial), 1)
      ensures discard == Reversed(Filter(old(partial), Empty))
      ensures nrPartial == old(nrPartial) - |discard|
    {
      hide Filter, Reversed, Buckets, Stay, Bucket;
      ghost var q := partial;
      var todo := partial;
      var stay: seq<Slab> := [];
      discard := [];
      var promote := new seq<Slab>[SHRINK_PROMOTE_MAX](_ => []);
      ghost var i := 0;
      NoSlab(q);
      while todo != []
        invariant i <= |q| && todo == q[i..] && partial == stay + todo && stay == Stay(q, i)
        invariant discard == Bucket(q, i, 0) && nrPartial == old(nrPartial) - |discard|
        invariant forall f :: 0 <= f < SHRINK_PROMOTE_MAX ==> promote[f] == Bucket(q, i, f + 1)
        decreases |q| - i
      {
        var slab := todo[0];
        assert slab == q[i] && slab in q;
        NextSlab(q, i);
        var free := Free(slab);
        todo := todo[1..];
        if free == slab.objects {
          discard := [slab] + discard;
          partial := stay + todo;
          nrPartial := nrPartial - 1;
        } else if free <= SHRINK_PROMOTE_MAX {
          promote[free - 1] := [slab] + promote[free - 1];
          partial := stay + todo;
        } else {
          stay := stay + [slab];
        }
        i := i + 1;
      }
      AllSlabs(q);
      var k := SHRINK_PROMOTE_MAX;
      while k > 0
        invariant 0 <= k <= SHRINK_PROMOTE_MAX && partial == Buckets(q, k + 1) && nrPartial == old(nrPartial) - |discard|
        invariant forall f :: 0 <= f < SHRINK_PROMOTE_MAX ==> promote[f] == Bucket(q, |q|, f + 1)
      {
        BucketsStep(q, k);
        k := k - 1;
        partial := promote[k] + partial;
      }
    }
  }

  /** The lists after the first i slabs: bucket 0 is for the slabs to be discarded. */
  ghost function Stay(q: seq<Slab>, i: nat): seq<Slab>
    requires i <= |q|
  {
    Filter(q[..i], Stays)
  }

  ghost function Bucket(q: seq<Slab>, i: nat, f: nat): seq<Slab>
    requires i <= |q|
  {
    Reversed(Filter(q[..i], if f == 0 then Empty else Promoted(f)))
  }

  lemma NoSlab(q: seq<Slab>)
    ensures Stay(q, 0) == [] && forall f: nat :: Bucket(q, 0, f) == []
  {
  }

  lemma AllSlabs(q: seq<Slab>)
    ensures Stay(q, |q|) == Buckets(q, SHRINK_PROMOTE_MAX + 1) && Bucket(q, |q|, 0) == Reversed(Filter(q, Empty))
  {
    assert q[..|q|] == q;
  }

  lemma BucketsStep(q: seq<Slab>, f: nat)
    requires 1 <= f <= SHRINK_PROMOTE_MAX
    ensures Buckets(q, f) == Bucket(q, |q|, f) + Buckets(q, f + 1)
  {
    assert q[..|q|] == q;
  }

  /** What looking at one more slab does to the lists. */
  lemma NextSlab(q: seq<Slab>, i: nat)
    requires i < |q|
    ensures Stay(q, i + 1) == Stay(q, i) + (if Stays(q[i]) then [q[i]] else [])
    ensures Bucket(q, i + 1, 0) == (if Empty(q[i]) then [q[i]] else []) + Bucket(q, i, 0)
    ensures forall f: nat :: f >= 1 ==> Bucket(q, i + 1, f) == (if !Empty(q[i]) && Free(q[i]) == f then [q[i]] else []) + Bucket(q, i, f)
  {
    hide Filter, Reversed;
    FilterNext(q, i, Stays);
    FilterNext(q, i, Empty);
    forall f: nat | f >= 1
      ensures Bucket(q, i + 1, f) == (if !Empty(q[i]) && Free(q[i]) == f then [q[i]] else []) + Bucket(q, i, f)
    {
      FilterNext(q, i, Promoted(f));
    }
  }

  lemma FilterNext(q: seq<Slab>, i: nat, f: Slab -> bool)
    requires i < |q|
    ensures Filter(q[..i + 1], f) == Filter(q[..i], f) + (if f(q[i]) then [q[i]] else [])
    ensures Reversed(Filter(q[..i + 1], f)) == (if f(q[i]) then [q[i]] else []) + Reversed(Filter(q[..i], f))
  {
    assert q[..i + 1] == q[..i] + [q[i]];
    FilterAppend(q[..i], [q[i]], f);
    FilterOne(q[i], f);
    if f(q[i]) {
      ReversedAppend(Filter(q[..i], f), q[i]);
    } else {
      assert Filter(q[..i], f) + [] == Filter(q[..i], f);
    }
  }

  // ---- what the new list is ----

  /** Slabs that are neither discarded nor in a bucket below `from`. */
  function FromOn(from: int): Slab -> bool
  {
    (s: Slab) => !Empty(s) && Free(s) >= from
  }

  lemma {:induction false} BucketsKeep(q: seq<Slab>, from: nat)
    requires 1 <= from <= SHRINK_PROMOTE_MAX + 1
    ensures multiset(Buckets(q, from)) == multiset(Filter(q, FromOn(from)))
    decreases SHRINK_PROMOTE_MAX + 1 - from
  {
    if from == SHRINK_PROMOTE_MAX + 1 {
      SameOn(q, Stays, FromOn(from));
    } else {
      BucketsKeep(q, from + 1);
      ReversedMultiset(Filter(q, Promoted(from)));
      TwoFilters(q, FromOn(from), Promoted(from), FromOn(from + 1));
    }
  }

  lemma {:induction false} TwoFilters(q: seq<Slab>, f: Slab -> bool, g: Slab -> bool, h: Slab -> bool)
    requires forall s :: f(s) <==> g(s) || h(s)
    requires forall s :: !(g(s) && h(s))
    ensures multiset(Filter(q, f)) == multiset(Filter(q, g)) + multiset(Filter(q, h))
  {
    if q != [] { TwoFilters(q[1..], f, g, h); }
  }

  ghost predicate Ascending(l: seq<Slab>)
  {
    forall i, j :: 0 <= i < j < |l| ==> Free(l[i]) <= Free(l[j])
  }

  /** Where the promoted slabs end. */
  function Heads(q: seq<Slab>, from: nat): seq<Slab>
    requires 1 <= from <= SHRINK_PROMOTE_MAX + 1
    decreases SHRINK_PROMOTE_MAX + 1 - from
  {
    if from == SHRINK_PROMOTE_MAX + 1 then [] else Reversed(Filter(q, Promoted(from))) + Heads(q, from + 1)
  }

  lemma {:induction false} HeadsAscend(q: seq<Slab>, from: nat)
    requires 1 <= from <= SHRINK_PROMOTE_MAX + 1
    ensures Buckets(q, from) == Heads(q, from) + Filter(q, Stays)
    ensures Ascending(Heads(q, from)) && forall s :: s in Heads(q, from) ==> from <= Free(s) <= SHRINK_PROMOTE_MAX
    decreases SHRINK_PROMOTE_MAX + 1 - from
  {
    hide Filter, Reversed, Ascending;
    if from == SHRINK_PROMOTE_MAX + 1 {
      assert [] + Filter(q, Stays) == Filter(q, Stays);
      NoneAscend();
    } else {
      HeadsAscend(q, from + 1);
      var b, h := Reversed(Filter(q, Promoted(from))), Heads(q, from + 1);
      assert (b + h) + Filter(q, Stays) == b + (h + Filter(q, Stays));
      JoinAscending(b, h, from);
    }
  }

  lemma NoneAscend()
    ensures Ascending([])
  {
  }

  lemma JoinAscending(b: seq<Slab>, h: seq<Slab>, from: nat)
    requires (forall s :: s in b ==> Free(s) == from) && Ascending(h) && forall s :: s in h ==> from < Free(s)
    ensures Ascending(b + h)
  {
    forall i, j | 0 <= i < j < |b + h| ensures Free((b + h)[i]) <= Free((b + h)[j]) {
      if i < |b| { assert b[i] in b; }
      if j < |b| { assert b[j] in b; } else { assert h[j - |b|] in h; }
    }
  }

  /** The new partial list is the old one without exactly the empty slabs; the slabs with at most 32 free objects
      come first, those with fewer free objects before those with more; the others follow in their old order;
      and the count is right if it was. */
  lemma ShrinkSorts(q: seq<Slab>)
    requires forall s :: s in q ==> 0 < Free(s) <= s.objects
    ensures var now, gone, n := Buckets(q, 1), Reversed(Filter(q, Empty)), |Heads(q, 1)|;
      && multiset(now) + multiset(gone) == multiset(q) && |q| - |gone| == |now|
      && (forall s :: s in gone ==> Empty(s)) && (forall s :: s in now ==> !Empty(s))
      && n <= |now| && Ascending(now[..n]) && (forall s :: s in now[..n] ==> 0 < Free(s) <= 32)
      && now[n..] == Filter(q, (s: Slab) => Free(s) < s.objects && Free(s) > 32)
  {
    hide Reversed, Filter, Buckets, Heads, Ascending;
    var now, gone, h := Buckets(q, 1), Reversed(Filter(q, Empty)), Heads(q, 1);
    HeadsAscend(q, 1);
    BucketsKeep(q, 1);
    ReversedMultiset(Filter(q, Empty));
    FilterParts(q, Empty);
    SameOn(q, FromOn(1), Not(Empty));
    SameOn(q, Stays, (s: Slab) => Free(s) < s.objects && Free(s) > 32);
    assert now[..|h|] == h && now[|h|..] == Filter(q, Stays);
    assert |multiset(now) + multiset(gone)| == |multiset(q)|;
    forall s | s in now ensures !Empty(s) { assert s in multiset(now); }
  }

  lemma {:induction false} SameOn(q: seq<Slab>, f: Slab -> bool, g: Slab -> bool)
    requires forall s :: s in q ==> f(s) == g(s)
    ensures Filter(q, f) == Filter(q, g)
  {
    if q != [] { SameOn(q[1..], f, g); }
  }
}
