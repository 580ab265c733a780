/** Bulk free to slabs: objects of one slab are gathered into a free list of their own, which is then
    given to the slab in one go. */
module DetachedFreelist {
  import opened Freelist
  import opened Lists

  /** The free pointers inside the objects; objects are named by their addresses and 0 is NULL. */
  class FreePointers {
    var next: map<nat, nat>

    constructor ()
      ensures next == map[]
    {
      next := map[];
    }

    /** set_freepointer */
    method Set(object': nat, value: nat)
      modifies this
      ensures next == old(next)[object' := value]
    {
      next := next[object' := value];
    }
  }

  /** `l` is linked one to the next and the last one to `end`. */
  ghost predicate Segment(next: map<nat, nat>, l: seq<nat>, end: nat)
  {
    forall k :: 0 <= k < |l| ==> l[k] in next && next[l[k]] == (if k + 1 < |l| then l[k + 1] else end)
  }

  /** A NULL-terminated list. */
  ghost predicate NullTerminated(next: map<nat, nat>, head: nat, l: seq<nat>)
  {
    Segment(next, l, 0) && head == if l == [] then 0 else l[0]
  }

  function OfSlab(slabOf: nat -> nat, slab: nat): nat -> bool
  {
    (x: nat) => slabOf(x) == slab
  }

  // ---- build_detached_freelist ----

  const LOOKAHEAD: nat := 3

  /** struct detached_freelist; `Large` is an object that came from the page allocator. */
  datatype Detached = Large(obj: nat) | Detached(slab: nat, tail: nat, freelist: nat, cnt: nat)

  /** The scan goes down from index i and ends below the element that is the look-th of another slab. */
  function ScanEnd(q: seq<nat>, i: nat, look: nat, mine: nat -> bool): (e: nat)
    requires i <= |q| && look >= 1
    ensures e <= i
    decreases i
  {
    if i == 0 then 0
    else if mine(q[i - 1]) then ScanEnd(q, i - 1, look, mine)
    else if look == 1 then i - 1
    else ScanEnd(q, i - 1, look - 1, mine)
  }

  /** If fewer than `look` elements belong to other slabs, nothing is left out. */
  lemma {:induction false} ScanReaches(q: seq<nat>, i: nat, look: nat, mine: nat -> bool)
    requires i <= |q| && look >= 1 && |Filter(q[..i], Not(mine))| < look
    ensures ScanEnd(q, i, look, mine) == 0
    decreases i
  {
    if i > 0 {
      assert q[..i] == q[..i - 1] + [q[i - 1]];
      FilterAppend(q[..i - 1], [q[i - 1]], Not(mine));
      ScanReaches(q, i - 1, if mine(q[i - 1]) then look else look - 1, mine);
    }
  }

  /** The scan passes `look` elements of other slabs, the last of them where it ends, or reaches the beginning. */
  lemma {:induction false} ScanLooks(q: seq<nat>, i: nat, look: nat, mine: nat -> bool)
    requires i <= |q| && look >= 1
    ensures var e := ScanEnd(q, i, look, mine);
      && |Filter(q[e..i], Not(mine))| <= look
      && (e > 0 ==> |Filter(q[e..i], Not(mine))| == look && !mine(q[e]))
    decreases i
  {
    hide Filter, ScanEnd;
    if i == 0 {
      assert q[0..0] == [];
      ScanZero(q, look, mine);
    } else {
      ScanStep(q, i, look, mine);
      FilterOne(q[i - 1], Not(mine));
      if mine(q[i - 1]) || look > 1 {
        var rest := if mine(q[i - 1]) then look else look - 1;
        ScanLooks(q, i - 1, rest, mine);
        var e := ScanEnd(q, i - 1, rest, mine);
        assert q[e..i] == q[e..i - 1] + [q[i - 1]];
        FilterAppend(q[e..i - 1], [q[i - 1]], Not(mine));
      } else {
        assert q[i - 1..i] == [q[i - 1]];
      }
    }
  }

  method BuildDetached(p: array<nat>, size: nat, haveCache: bool, isLarge: nat -> bool, slabOf: nat -> nat, mem: FreePointers)
    returns (same: nat, df: Detached)
    requires 1 <= size <= p.Length && NoDup(p[..size]) && 0 !in p[..size]
    modifies p, mem
    ensures same < size && p[size..] == old(p[size..])
    ensures multiset(p[..size]) == multiset(old(p[..size]))
    ensures df.Large? <==> !haveCache && isLarge(old(p[size - 1]))
    ensures df.Large? ==> df.obj == old(p[size - 1]) && same == size - 1 && p[..] == old(p[..]) && mem.next == old(mem.next)
    ensures df.Detached? ==>
      var q := old(p[..size]);
      var mine := OfSlab(slabOf, slabOf(q[size - 1]));
      && p[same..size] == Filter(q[ScanEnd(q, size - 1, 3, mine)..], mine)
      && df.slab == slabOf(q[size - 1]) && df.tail == q[size - 1] == p[size - 1] && df.cnt == size - same
      && NullTerminated(mem.next, df.freelist, p[same..size])
      && Untouched(old(mem.next), mem.next, p[same..size])
  {
    hide Gathered, ScanEnd, NullTerminated, Filter, Untouched, NoDup;
    ghost var q := p[..size];
    var object' := p[size - 1];
    if !haveCache && isLarge(object') {
      return size - 1, Large(object');
    }
    var slab := slabOf(object');
    ghost var mine := OfSlab(slabOf, slab);
    mem.Set(object', 0);
    GatherBegin(q, mine, old(mem.next));
    var freelist, cnt;
    same, freelist, cnt := Gather(p, size, slab, slabOf, mem, old(mem.next));
    GatheredMeans(q, p[..size], ScanEnd(q, size - 1, LOOKAHEAD, mine), same, mine, old(mem.next), mem.next, freelist);
    assert p[..size][same..] == p[same..size] && Last(p[..size]) == p[size - 1];
    df := Detached(slab, object', freelist, cnt);
  }

  /** The loop of build_detached_freelist. */
  method Gather(p: array<nat>, size: nat, slab: nat, slabOf: nat -> nat, mem: FreePointers, ghost before: map<nat, nat>)
    returns (same: nat, freelist: nat, cnt: nat)
    requires 1 <= size <= p.Length && NoDup(p[..size])
    requires Gathered(p[..size], p[..size], size - 1, size - 1, OfSlab(slabOf, slab), before, mem.next, p[size - 1])
    modifies p, mem
    ensures var q, mine := old(p[..size]), OfSlab(slabOf, slab);
      Gathered(q, p[..size], ScanEnd(q, size - 1, LOOKAHEAD, mine), same, mine, before, mem.next, freelist)
    ensures same < size && cnt == size - same && p[size..] == old(p[size..])
  {
    hide Gathered, ScanEnd, NullTerminated, Filter, Untouched, NoDup;
    ghost var q, mine := p[..size], OfSlab(slabOf, slab);
    var i, lookahead := size - 1, LOOKAHEAD;
    same, freelist, cnt := i, p[i], 1;
    while i > 0
      invariant 0 <= i <= same < size && lookahead >= 1 && cnt == size - same && p[size..] == old(p[size..])
      invariant Gathered(q, p[..size], i, same, mine, before, mem.next, freelist)
      invariant ScanEnd(q, i, lookahead, mine) == ScanEnd(q, size - 1, LOOKAHEAD, mine)
      decreases i
    {
      ghost var was := p[..size];
      ScanStep(q, i, lookahead, mine);
      i := i - 1;
      var object' := p[i];
      GatheredAt(q, was, i + 1, same, mine, before, mem.next, freelist);
      if slab == slabOf(object') {
        GatherTake(q, was, i + 1, same, mine, before, mem.next, freelist);
        mem.Set(object', freelist);
        freelist := object';
        cnt := cnt + 1;
        same := same - 1;
        if i != same {
          Swap(p, i, same, size);
        }
        assert i == same ==> was[i := was[same]][same := was[i]] == was;
        continue;
      }
      GatherSkip(q, was, i + 1, same, mine, before, mem.next, freelist);
      lookahead := lookahead - 1;
      if lookahead == 0 {
        break;
      }
    }
    ScanZero(q, lookahead, mine);
  }

  method Swap(p: array<nat>, i: nat, j: nat, ghost size: nat)
    requires i < j < size <= p.Length
    modifies p
    ensures p[..size] == old(p[..size])[i := old(p[j])][j := old(p[i])] && p[size..] == old(p[size..])
  {
    p[i], p[j] := p[j], p[i];
  }

  /** The state of the scan: of the array `q`, now `s`, everything from index i on has been looked at; what is
      of the right slab is at the end, from index `same` on, and linked. */
  ghost predicate Gathered(q: seq<nat>, s: seq<nat>, i: nat, same: nat, mine: nat -> bool, before: map<nat, nat>, next: map<nat, nat>, head: nat)
  {
    && |s| == |q| && i <= same < |q| && s[..i] == q[..i] && multiset(s) == multiset(q) && mine(Last(q))
    && s[same..] == Filter(q[i..], mine)
    && (forall k :: i <= k < same ==> !mine(s[k]))
    && NullTerminated(next, head, s[same..]) && Untouched(before, next, s[same..])
  }

  /** Only free pointers of the objects in `l` may have changed. */
  ghost predicate Untouched(before: map<nat, nat>, next: map<nat, nat>, l: seq<nat>)
  {
    forall x :: x in before && x !in l ==> x in next && next[x] == before[x]
  }

  lemma GatherBegin(q: seq<nat>, mine: nat -> bool, before: map<nat, nat>)
    requires q != [] && mine(Last(q))
    ensures Gathered(q, q, |q| - 1, |q| - 1, mine, before, before[Last(q) := 0], Last(q))
  {
    assert q[|q| - 1..] == [Last(q)];
  }

  lemma GatheredAt(q: seq<nat>, s: seq<nat>, i: nat, same: nat, mine: nat -> bool, before: map<nat, nat>, next: map<nat, nat>, head: nat)
    requires Gathered(q, s, i, same, mine, before, next, head) && i >= 1
    ensures |s| == |q| && i <= same < |q| && s[i - 1] == q[i - 1] && s[..i - 1] == q[..i - 1]
  {
    hide Filter, NullTerminated, Untouched;
    SamePrefix(q, s, i);
  }

  lemma GatherTake(q: seq<nat>, s: seq<nat>, i: nat, same: nat, mine: nat -> bool, before: map<nat, nat>, next: map<nat, nat>, head: nat)
    requires Gathered(q, s, i, same, mine, before, next, head) && NoDup(q) && 1 <= i && i <= |s| && mine(s[i - 1])
    requires same <= |s|
    ensures Gathered(q, s[i - 1 := s[same - 1]][same - 1 := s[i - 1]], i - 1, same - 1, mine, before, next[s[i - 1] := head], s[i - 1])
  {
    hide Filter, NullTerminated, Untouched, NoDup;
    GatheredAt(q, s, i, same, mine, before, next, head);
    TakeShape(q, s, i, same, mine);
    Elsewhere(q, i - 1, mine);
    TakeLinks(s[same..], before, next, head, s[i - 1]);
  }

  lemma TakeShape(q: seq<nat>, s: seq<nat>, i: nat, same: nat, mine: nat -> bool)
    requires |s| == |q| && 1 <= i <= same < |q| && s[..i] == q[..i] && multiset(s) == multiset(q)
    requires s[same..] == Filter(q[i..], mine) && (forall k :: i <= k < same ==> !mine(s[k])) && mine(s[i - 1])
    ensures var s' := s[i - 1 := s[same - 1]][same - 1 := s[i - 1]];
      && s'[..i - 1] == q[..i - 1] && multiset(s') == multiset(q)
      && s'[same - 1..] == [s[i - 1]] + s[same..] == Filter(q[i - 1..], mine)
      && (forall k :: i - 1 <= k < same - 1 ==> !mine(s'[k]))
  {
    hide Filter;
    SamePrefix(q, s, i);
    FilterFrom(q, i - 1, mine);
    SwapParts(s, i - 1, same - 1);
    TakeMarks(s, s[i - 1 := s[same - 1]][same - 1 := s[i - 1]], i, same, mine);
  }

  /** What lies between stays outside the slab. */
  lemma TakeMarks(s: seq<nat>, s': seq<nat>, i: nat, same: nat, mine: nat -> bool)
    requires |s'| == |s| && 1 <= i <= same < |s| && (forall k :: i <= k < same ==> !mine(s[k]))
    requires forall k :: i - 1 <= k < same - 1 ==> s'[k] == if k == i - 1 then s[same - 1] else s[k]
    ensures forall k :: i - 1 <= k < same - 1 ==> !mine(s'[k])
  {
  }

  lemma SamePrefix(q: seq<nat>, s: seq<nat>, i: nat)
    requires 1 <= i <= |s| && i <= |q| && s[..i] == q[..i]
    ensures s[i - 1] == q[i - 1] && s[..i - 1] == q[..i - 1]
  {
    assert s[i - 1] == s[..i][i - 1] == q[..i][i - 1];
    assert s[..i - 1] == s[..i][..i - 1] == q[..i][..i - 1] == q[..i - 1];
  }

  lemma Elsewhere(q: seq<nat>, i: nat, f: nat -> bool)
    requires NoDup(q) && i < |q|
    ensures q[i] !in Filter(q[i + 1..], f)
  {
  }

  lemma TakeLinks(l: seq<nat>, before: map<nat, nat>, next: map<nat, nat>, head: nat, o: nat)
    requires NullTerminated(next, head, l) && o !in l && Untouched(before, next, l)
    ensures NullTerminated(next[o := head], o, [o] + l) && Untouched(before, next[o := head], [o] + l)
  {
    var l', next' := [o] + l, next[o := head];
    forall k | 0 <= k < |l'| ensures l'[k] in next' && next'[l'[k]] == (if k + 1 < |l'| then l'[k + 1] else 0) {
      if k == 0 {
        assert next'[l'[0]] == head;
      } else {
        SegmentAt(next, l, 0, k - 1);
        assert l'[k] == l[k - 1] && l[k - 1] in l;
        assert k < |l| ==> l'[k + 1] == l[k];
      }
    }
    assert Segment(next', l', 0);
  }

  lemma SegmentAt(next: map<nat, nat>, l: seq<nat>, end: nat, k: nat)
    requires Segment(next, l, end) && k < |l|
    ensures l[k] in next && next[l[k]] == if k + 1 < |l| then l[k + 1] else end
  {
  }

  lemma SwapParts(s: seq<nat>, i: nat, j: nat)
    requires i <= j < |s|
    ensures var s' := s[i := s[j]][j := s[i]];
      && multiset(s') == multiset(s) && s'[..i] == s[..i] && s'[j..] == [s[i]] + s[j + 1..]
      && (forall k :: i <= k < j ==> s'[k] == if k == i then s[j] else s[k])
  {
  }

  lemma GatherSkip(q: seq<nat>, s: seq<nat>, i: nat, same: nat, mine: nat -> bool, before: map<nat, nat>, next: map<nat, nat>, head: nat)
    requires Gathered(q, s, i, same, mine, before, next, head) && 1 <= i <= |s| && !mine(s[i - 1])
    ensures Gathered(q, s, i - 1, same, mine, before, next, head)
  {
    hide Filter, NullTerminated, Untouched;
    GatheredAt(q, s, i, same, mine, before, next, head);
    FilterSkip(q, i - 1, mine);
  }

  lemma FilterSkip(q: seq<nat>, i: nat, f: nat -> bool)
    requires i < |q| && !f(q[i])
    ensures Filter(q[i..], f) == Filter(q[i + 1..], f)
  {
    hide Filter;
    FilterFrom(q, i, f);
    assert [] + Filter(q[i + 1..], f) == Filter(q[i + 1..], f);
  }

  lemma ScanStep(q: seq<nat>, i: nat, look: nat, mine: nat -> bool)
    requires 1 <= i <= |q| && look >= 1
    ensures ScanEnd(q, i, look, mine) ==
      if mine(q[i - 1]) then ScanEnd(q, i - 1, look, mine)
      else if look == 1 then i - 1 else ScanEnd(q, i - 1, look - 1, mine)
  {
  }

  lemma ScanZero(q: seq<nat>, look: nat, mine: nat -> bool)
    ensures look >= 1 ==> ScanEnd(q, 0, look, mine) == 0
  {
  }

  lemma GatheredMeans(q: seq<nat>, s: seq<nat>, i: nat, same: nat, mine: nat -> bool, before: map<nat, nat>, next: map<nat, nat>, head: nat)
    requires Gathered(q, s, i, same, mine, before, next, head)
    ensures |s| == |q| && same < |q| && i <= |q| && s[same..] == Filter(q[i..], mine) && multiset(s) == multiset(q)
    ensures NullTerminated(next, head, s[same..]) && Untouched(before, next, s[same..])
    ensures Last(s) == Last(q)
  {
    assert q[i..] == q[i..|q| - 1] + [Last(q)];
    FilterAppend(q[i..|q| - 1], [Last(q)], mine);
    assert Last(s) == Last(s[same..]);
  }

  // ---- slab_free_freelist_hook ----

  /** What is left of the list `l` after the objects in its first k places have been offered to the hook. */
  ghost predicate Hooked(l: seq<nat>, k: nat, accept: nat -> bool, before: map<nat, nat>, next: map<nat, nat>, head: nat, tail: nat, cnt: int)
  {
    && k <= |l|
    && var kept := Reversed(Filter(l[..k], accept));
       && NullTerminated(next, head, kept) && Untouched(before, next, kept)
       && tail == (if kept == [] then 0 else Last(kept)) && cnt == |l| - k + |kept|
  }

  lemma HookStep(l: seq<nat>, k: nat, accept: nat -> bool, before: map<nat, nat>, next: map<nat, nat>, head: nat, tail: nat, cnt: int)
    requires Hooked(l, k, accept, before, next, head, tail, cnt) && k < |l| && NoDup(l) && 0 !in l
    ensures accept(l[k]) ==> Hooked(l, k + 1, accept, before, next[l[k] := head], l[k], if tail == 0 then l[k] else tail, cnt)
    ensures !accept(l[k]) ==> Hooked(l, k + 1, accept, before, next, head, tail, cnt - 1)
  {
    hide NullTerminated, Untouched, Filter, Reversed;
    var kept := Reversed(Filter(l[..k], accept));
    assert l[..k + 1] == l[..k] + [l[k]];
    FilterAppend(l[..k], [l[k]], accept);
    FilterOne(l[k], accept);
    Beside(l, k);
    if accept(l[k]) {
      ReversedAppend(Filter(l[..k], accept), l[k]);
      TakeLinks(kept, before, next, head, l[k]);
      if kept != [] {
        assert Last(kept) in kept;
        assert Last([l[k]] + kept) == Last(kept);
      }
    } else {
      assert Filter(l[..k], accept) + [] == Filter(l[..k], accept);
    }
  }

  lemma Beside(l: seq<nat>, k: nat)
    requires NoDup(l) && k < |l|
    ensures l[k] !in l[..k] && forall j :: k < j < |l| ==> l[j] !in l[..k] && l[j] != l[k]
  {
  }

  /** The list is rebuilt, in reverse, from the objects the hook accepts. */
  method FreelistHook(mem: FreePointers, head: nat, tail: nat, cnt: nat, accept: nat -> bool, ghost l: seq<nat>)
    returns (ok: bool, head': nat, tail': nat, cnt': int)
    requires l != [] && head == l[0] && tail == Last(l) && cnt == |l| && NoDup(l) && 0 !in l
    requires exists end :: Segment(mem.next, l, end)
    modifies mem
    ensures var kept := Reversed(Filter(l, accept));
      && NullTerminated(mem.next, head', kept) && Untouched(old(mem.next), mem.next, kept)
      && cnt' == |kept| && tail' == (if kept == [] then 0 else Last(kept)) && (ok <==> kept != [])
  {
    hide Hooked, NullTerminated, Untouched, NoDup, Filter, Reversed;
    ghost var before, k := mem.next, 0;
    var object', next := 0, head;
    head', tail', cnt' := 0, 0, cnt;
    HookBegins(l, accept, before);
    while object' != tail
      invariant k <= |l| && object' == (if k == 0 then 0 else l[k - 1]) && (k < |l| ==> next == l[k])
      invariant Hooked(l, k, accept, before, mem.next, head', tail', cnt')
      invariant forall j :: k <= j < |l| ==> l[j] in mem.next && mem.next[l[j]] == before[l[j]]
      decreases |l| - k
    {
      assert k < |l|;
      Beside(l, k);
      HookStep(l, k, accept, before, mem.next, head', tail', cnt');
      object' := next;
      next := mem.next[object'];
      if accept(object') {
        mem.Set(object', head');
        head' := object';
        if tail' == 0 { tail' := object'; }
      } else {
        cnt' := cnt' - 1;
      }
      k := k + 1;
    }
    LastPlace(l, k);
    HookEnds(l, accept, before, mem.next, head', tail', cnt');
    ok := head' != 0;
  }

  lemma LastPlace(l: seq<nat>, k: nat)
    requires NoDup(l) && l != [] && 0 !in l && k <= |l| && (if k == 0 then 0 else l[k - 1]) == Last(l)
    ensures k == |l|
  {
  }

  lemma HookBegins(l: seq<nat>, accept: nat -> bool, before: map<nat, nat>)
    ensures Hooked(l, 0, accept, before, before, 0, 0, |l|)
  {
    assert l[..0] == [];
  }

  lemma HookEnds(l: seq<nat>, accept: nat -> bool, before: map<nat, nat>, next: map<nat, nat>, head: nat, tail: nat, cnt: int)
    requires Hooked(l, |l|, accept, before, next, head, tail, cnt) && 0 !in l
    ensures var kept := Reversed(Filter(l, accept));
      && NullTerminated(next, head, kept) && Untouched(before, next, kept)
      && cnt == |kept| && tail == (if kept == [] then 0 else Last(kept)) && (head != 0 <==> kept != [])
  {
    assert l[..|l|] == l;
    var kept := Reversed(Filter(l, accept));
    if kept != [] { assert kept[0] in kept; }
  }

  // ---- the bulk loops ----

  /** A call that gives objects back: free_large_kmalloc, or do_slab_free with a list. */
  datatype Call = LargeFree(obj: nat) | SlabFree(slab: nat, head: nat, tail: nat, cnt: int)

  /** What is known about objects: whether a cache was given, which objects are from the page allocator, in which
      slab the others are, and which of them the free hook accepts. */
  datatype World = World(haveCache: bool, isLarge: nat -> bool, slabOf: nat -> nat, accept: nat -> bool)

  /** Call `c` gives back exactly the objects `l`: all accepted, of one slab, linked from head to tail, and counted. */
  ghost predicate Gives(k: World, c: Call, l: seq<nat>, next: map<nat, nat>)
  {
    match c
    case LargeFree(o) => l == [o] && !k.haveCache && k.isLarge(o)
    case SlabFree(slab, head, tail, cnt) =>
      && l != [] && NullTerminated(next, head, l) && tail == Last(l) && cnt == |l|
      && forall x :: x in l ==> k.slabOf(x) == slab && k.accept(x)
  }

  ghost predicate GivesAll(k: World, calls: seq<Call>, lists: seq<seq<nat>>, next: map<nat, nat>)
  {
    |lists| == |calls| && forall i :: 0 <= i < |calls| ==> Gives(k, calls[i], lists[i], next)
  }

  function Flat(lists: seq<seq<nat>>): seq<nat>
  {
    if lists == [] then [] else Flat(lists[..|lists| - 1]) + lists[|lists| - 1]
  }

  lemma FlatAppend(lists: seq<seq<nat>>, l: seq<nat>)
    ensures Flat(lists + [l]) == Flat(lists) + l
  {
    assert (lists + [l])[..|lists|] == lists;
  }

  lemma {:induction false} InFlat(lists: seq<seq<nat>>, i: nat, x: nat)
    requires i < |lists| && x in lists[i]
    ensures x in Flat(lists)
  {
    if i < |lists| - 1 { InFlat(lists[..|lists| - 1], i, x); }
  }

  /** Calls made earlier are not affected by what happens to other objects. */
  lemma GivesFrame(k: World, calls: seq<Call>, lists: seq<seq<nat>>, next: map<nat, nat>, next': map<nat, nat>, l: seq<nat>)
    requires GivesAll(k, calls, lists, next) && Untouched(next, next', l) && forall x :: x in Flat(lists) ==> x !in l
    ensures GivesAll(k, calls, lists, next')
  {
    hide Gives, Flat, Untouched;
    forall i | 0 <= i < |calls| ensures Gives(k, calls[i], lists[i], next') {
      forall x | x in lists[i] ensures x !in l { InFlat(lists, i, x); }
      OneGivesFrame(k, calls[i], lists[i], next, next', l);
    }
  }

  lemma OneGivesFrame(k: World, c: Call, given: seq<nat>, next: map<nat, nat>, next': map<nat, nat>, l: seq<nat>)
    requires Gives(k, c, given, next) && Untouched(next, next', l) && forall x :: x in given ==> x !in l
    ensures Gives(k, c, given, next')
  {
    if c.SlabFree? {
      forall j | 0 <= j < |given| ensures given[j] in next' && next'[given[j]] == if j + 1 < |given| then given[j + 1] else 0 {
        SegmentAt(next, given, 0, j);
        assert given[j] in given;
      }
      assert Segment(next', given, 0);
    }
  }

  /** The array `q` is what is left plus what has been given back plus what the hook has kept. */
  ghost predicate Accounted(k: World, q: seq<nat>, rest: seq<nat>, given: seq<nat>, kept: seq<nat>)
  {
    && multiset(rest) + multiset(given) + multiset(kept) == multiset(q)
    && forall x :: x in kept ==> !k.accept(x)
  }

  lemma AccountedApart(k: World, q: seq<nat>, rest: seq<nat>, given: seq<nat>, kept: seq<nat>)
    requires NoDup(q) && 0 !in q && Accounted(k, q, rest, given, kept)
    ensures NoDup(rest) && 0 !in rest && forall x :: x in given ==> x !in rest
  {
    forall x: nat ensures multiset(rest)[x] + multiset(given)[x] <= 1 && (x in rest ==> x in q) {
      NoDupCount(q, x);
      assert (multiset(rest) + multiset(given) + multiset(kept))[x] == multiset(q)[x];
      assert x in rest <==> multiset(rest)[x] > 0;
    }
    CountNoDup(rest);
    forall x | x in given ensures x !in rest {
      assert multiset(given)[x] > 0;
      assert x in rest <==> multiset(rest)[x] > 0;
    }
  }

  /** The books of the loop: calls made, objects still to go and objects kept back. */
  ghost predicate Books(k: World, q: seq<nat>, rest: seq<nat>, calls: seq<Call>, lists: seq<seq<nat>>, kept: seq<nat>, next: map<nat, nat>)
  {
    GivesAll(k, calls, lists, next) && Accounted(k, q, rest, Flat(lists), kept)
  }

  lemma BooksOpen(k: World, q: seq<nat>, next: map<nat, nat>)
    ensures Books(k, q, q, [], [], [], next)
  {
  }

  lemma BooksLarge(k: World, q: seq<nat>, rest: seq<nat>, calls: seq<Call>, lists: seq<seq<nat>>, kept: seq<nat>, next: map<nat, nat>)
    requires Books(k, q, rest, calls, lists, kept, next) && rest != [] && !k.haveCache && k.isLarge(Last(rest))
    ensures Books(k, q, rest[..|rest| - 1], calls + [LargeFree(Last(rest))], lists + [[Last(rest)]], kept, next)
  {
    hide GivesAll, Flat, Accounted;
    FlatAppend(lists, [Last(rest)]);
    OneMoreCall(k, calls, lists, next, LargeFree(Last(rest)), [Last(rest)]);
    LargeAccounted(k, q, rest, Flat(lists), kept);
  }

  lemma LargeAccounted(k: World, q: seq<nat>, rest: seq<nat>, given: seq<nat>, kept: seq<nat>)
    requires Accounted(k, q, rest, given, kept) && rest != []
    ensures Accounted(k, q, rest[..|rest| - 1], given + [Last(rest)], kept)
  {
    assert rest == rest[..|rest| - 1] + [Last(rest)];
  }

  /** The list `l` has been built at the end of what was left. */
  lemma BooksBuilt(k: World, q: seq<nat>, rest: seq<nat>, calls: seq<Call>, lists: seq<seq<nat>>, kept: seq<nat>, next: map<nat, nat>,
                   now: seq<nat>, same: nat, next': map<nat, nat>, head: nat)
    requires NoDup(q) && 0 !in q && Books(k, q, rest, calls, lists, kept, next) && multiset(now) == multiset(rest)
    requires same < |now| && Untouched(next, next', now[same..]) && NullTerminated(next', head, now[same..])
    ensures var l := now[same..]; NoDup(l) && 0 !in l && head == l[0] && exists end :: Segment(next', l, end)
    ensures Books(k, q, now, calls, lists, kept, next')
  {
    AccountedApart(k, q, now, Flat(lists), kept);
    GivesFrame(k, calls, lists, next, next', now[same..]);
    assert Segment(next', now[same..], 0);
  }

  /** The hook has split `l`, the end of what was left, into `back` and the rest. */
  lemma BooksHooked(k: World, q: seq<nat>, now: seq<nat>, same: nat, calls: seq<Call>, lists: seq<seq<nat>>, kept: seq<nat>,
                    next: map<nat, nat>, next': map<nat, nat>, c: Call)
    requires NoDup(q) && 0 !in q && Books(k, q, now, calls, lists, kept, next) && same < |now|
    requires var back := Reversed(Filter(now[same..], k.accept));
      && Untouched(next, next', back) && c.SlabFree? && NullTerminated(next', c.head, back) && c.cnt == |back|
      && (back != [] ==> c.tail == Last(back)) && (forall x :: x in now[same..] ==> k.slabOf(x) == c.slab)
    ensures var back, kept' := Reversed(Filter(now[same..], k.accept)), kept + Filter(now[same..], Not(k.accept));
      if back == [] then Books(k, q, now[..same], calls, lists, kept', next')
      else Books(k, q, now[..same], calls + [c], lists + [back], kept', next')
  {
    hide NullTerminated, Filter, Reversed, Untouched, NoDup, Flat, Accounted, GivesAll;
    var l := now[same..];
    var back := Reversed(Filter(l, k.accept));
    AccountedApart(k, q, now, Flat(lists), kept);
    GivesFrame(k, calls, lists, next, next', back);
    FlatAppend(lists, back);
    HookAccounted(k, q, now, same, Flat(lists), kept);
    if back == [] {
      assert Flat(lists) + back == Flat(lists);
    } else {
      OneMoreCall(k, calls, lists, next', c, back);
    }
  }

  lemma OneMoreCall(k: World, calls: seq<Call>, lists: seq<seq<nat>>, next: map<nat, nat>, c: Call, l: seq<nat>)
    requires GivesAll(k, calls, lists, next) && Gives(k, c, l, next)
    ensures GivesAll(k, calls + [c], lists + [l], next)
  {
  }

  lemma HookAccounted(k: World, q: seq<nat>, now: seq<nat>, same: nat, given: seq<nat>, kept: seq<nat>)
    requires Accounted(k, q, now, given, kept) && same <= |now|
    ensures var l := now[same..];
      Accounted(k, q, now[..same], given + Reversed(Filter(l, k.accept)), kept + Filter(l, Not(k.accept)))
  {
    hide Filter, Reversed;
    var l := now[same..];
    assert now == now[..same] + l;
    FilterParts(l, k.accept);
    ReversedMultiset(Filter(l, k.accept));
  }

  /** kmem_cache_free_bulk without sheaves: every object is given back in exactly one call, unless the hook keeps
      it back. */
  method FreeBulk(p: array<nat>, count: nat, k: World, mem: FreePointers)
    returns (calls: seq<Call>, ghost lists: seq<seq<nat>>, ghost kept: seq<nat>)
    requires count <= p.Length && NoDup(p[..count]) && 0 !in p[..count]
    modifies p, mem
    ensures GivesAll(k, calls, lists, mem.next)
    ensures Accounted(k, old(p[..count]), [], Flat(lists), kept)
  {
    hide GivesAll, Gives, Books, Accounted, NoDup, Flat;
    ghost var q := p[..count];
    calls, lists, kept := [], [], [];
    BooksOpen(k, q, mem.next);
    var size := count;
    while size > 0
      invariant 0 <= size <= count && Books(k, q, p[..size], calls, lists, kept, mem.next)
    {
      size, calls, lists, kept := FreeRound(p, size, k, mem, q, calls, lists, kept);
    }
    assert p[..0] == [];
    BooksClose(k, q, calls, lists, kept, mem.next);
  }

  /** One round: build a list, offer it to the hook, give back what is left of it. */
  method FreeRound(p: array<nat>, size: nat, k: World, mem: FreePointers, ghost q: seq<nat>,
                   calls: seq<Call>, ghost lists: seq<seq<nat>>, ghost kept: seq<nat>)
    returns (same: nat, calls': seq<Call>, ghost lists': seq<seq<nat>>, ghost kept': seq<nat>)
    requires 1 <= size <= p.Length && NoDup(q) && 0 !in q && Books(k, q, p[..size], calls, lists, kept, mem.next)
    modifies p, mem
    ensures same < size && Books(k, q, p[..same], calls', lists', kept', mem.next)
  {
    hide GivesAll, Gives, Books, Accounted, NoDup, Filter, Reversed, NullTerminated, Untouched, Flat, ScanEnd;
    calls', lists', kept' := calls, lists, kept;
    BooksRest(k, q, p[..size], calls, lists, kept, mem.next);
    ghost var before, rest := mem.next, p[..size];
    var df;
    same, df := BuildDetached(p, size, k.haveCache, k.isLarge, k.slabOf, mem);
    ghost var now := p[..size];
    assert now[..same] == p[..same] && now[same..] == p[same..size];
    if df.Large? {
      assert now == rest;
      BooksLarge(k, q, rest, calls, lists, kept, mem.next);
      calls', lists' := calls + [LargeFree(df.obj)], lists + [[df.obj]];
      return;
    }
    BooksBuilt(k, q, rest, calls, lists, kept, before, now, same, mem.next, df.freelist);
    ghost var mid := mem.next;
    var ok, head, tail, cnt := FreelistHook(mem, df.freelist, df.tail, df.cnt, k.accept, now[same..]);
    BooksHooked(k, q, now, same, calls, lists, kept, mid, mem.next, SlabFree(df.slab, head, tail, cnt));
    kept' := kept + Filter(now[same..], Not(k.accept));
    if ok {
      calls', lists' := calls + [SlabFree(df.slab, head, tail, cnt)], lists + [Reversed(Filter(now[same..], k.accept))];
    }
  }

  lemma BooksRest(k: World, q: seq<nat>, rest: seq<nat>, calls: seq<Call>, lists: seq<seq<nat>>, kept: seq<nat>, next: map<nat, nat>)
    requires NoDup(q) && 0 !in q && Books(k, q, rest, calls, lists, kept, next)
    ensures NoDup(rest) && 0 !in rest
  {
    AccountedApart(k, q, rest, Flat(lists), kept);
  }

  lemma BooksClose(k: World, q: seq<nat>, calls: seq<Call>, lists: seq<seq<nat>>, kept: seq<nat>, next: map<nat, nat>)
    requires Books(k, q, [], calls, lists, kept, next)
    ensures GivesAll(k, calls, lists, next) && Accounted(k, q, [], Flat(lists), kept)
  {
  }
}
