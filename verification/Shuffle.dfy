/** shuffle_freelist: the free list of a new slab in a precomputed random order. */
module Shuffle {
  import opened Freelist
  import opened Powers
  import opened Lists
  import opened DetachedFreelist

  /** The numbers below n, each once. */
  ghost predicate Permutation(perm: seq<nat>, n: nat)
  {
    |perm| == n && NoDup(perm) && forall x :: x in perm ==> x < n
  }

  function Below(n: nat): nat -> bool
  {
    (x: nat) => x < n
  }

  /** Position p of an endless repetition, for p below twice the length. */
  function Wrap(p: nat, n: nat): nat
  {
    if p >= n then p - n else p
  }

  /** The permutation read from `pos` on, all the way round. */
  ghost function Rotation(perm: seq<nat>, pos: nat): seq<nat>
    requires pos < |perm|
  {
    seq(|perm|, j requires 0 <= j < |perm| => perm[Wrap(pos + j, |perm|)])
  }

  /** The order in which the objects of a slab of n objects are listed. */
  ghost function Order(perm: seq<nat>, pos: nat, n: nat): seq<nat>
    requires pos < |perm|
  {
    Filter(Rotation(perm, pos), Below(n))
  }

  /** The part of the order that comes from the first t entries. */
  ghost function Taken(perm: seq<nat>, pos: nat, n: nat, t: nat): seq<nat>
    requires pos < |perm| && t <= |perm|
  {
    Filter(Rotation(perm, pos)[..t], Below(n))
  }

  lemma TakenStep(perm: seq<nat>, pos: nat, n: nat, t: nat)
    requires pos < |perm| && t < |perm|
    ensures var x := perm[Wrap(pos + t, |perm|)];
      Taken(perm, pos, n, t + 1) == Taken(perm, pos, n, t) + if x < n then [x] else []
  {
    var rot := Rotation(perm, pos);
    assert rot[..t + 1] == rot[..t] + [rot[t]];
    FilterAppend(rot[..t], [rot[t]], Below(n));
    FilterOne(rot[t], Below(n));
  }

  /** Every object of the slab is in the order exactly once, wherever the reading begins. */
  lemma OrderIsComplete(perm: seq<nat>, pos: nat, n: nat)
    requires Permutation(perm, |perm|) && pos < |perm| && n <= |perm|
    ensures NoDup(Order(perm, pos, n)) && |Order(perm, pos, n)| == n
    ensures forall x: nat :: x in Order(perm, pos, n) <==> x < n
  {
    var rot: seq<nat> := Rotation(perm, pos);
    RotationNoDup(perm, pos);
    forall i | 0 <= i < |rot| ensures rot[i] < |perm| { assert rot[i] in rot; }
    Pigeonhole(rot, |perm|);
    FilterNoDup(rot, Below(n));
    var l := Order(perm, pos, n);
    SetSize(l);
    assert Elems(l) == Range(n);
  }

  /** In a slab of full size the objects are listed as in the precomputed order, from `pos` on and round. */
  lemma FullOrder(perm: seq<nat>, pos: nat)
    requires Permutation(perm, |perm|) && pos < |perm|
    ensures Order(perm, pos, |perm|) == perm[pos..] + perm[..pos]
  {
    RotationNoDup(perm, pos);
    var rot: seq<nat> := Rotation(perm, pos);
    FilterAll(rot, Below(|perm|));
    var round := perm[pos..] + perm[..pos];
    forall j | 0 <= j < |perm| ensures rot[j] == round[j] { assert rot[j] == perm[Wrap(pos + j, |perm|)]; }
    assert rot == round;
  }

  lemma {:induction false} FilterAll(l: seq<nat>, f: nat -> bool)
    requires forall x :: x in l ==> f(x)
    ensures Filter(l, f) == l
  {
    if l != [] { FilterAll(l[1..], f); }
  }

  lemma RotationNoDup(perm: seq<nat>, pos: nat)
    requires Permutation(perm, |perm|) && pos < |perm|
    ensures NoDup(Rotation(perm, pos)) && forall x :: x in Rotation(perm, pos) ==> x < |perm|
  {
    var rot := Rotation(perm, pos);
    forall i, j | 0 <= i < j < |rot| ensures rot[i] != rot[j] {
      assert Wrap(pos + i, |perm|) != Wrap(pos + j, |perm|);
    }
    forall x | x in rot ensures x < |perm| {
      var j :| 0 <= j < |rot| && rot[j] == x;
      assert perm[Wrap(pos + j, |perm|)] in perm;
    }
  }

  /** init_cache_random_seq: the sequence becomes one of offsets. */
  method Scale(random: array<nat>, size: nat)
    modifies random
    ensures forall i :: 0 <= i < random.Length ==> random[i] == old(random[i]) * size
  {
    var i := 0;
    while i < random.Length
      invariant 0 <= i <= random.Length
      invariant forall j :: 0 <= j < i ==> random[j] == old(random[j]) * size
      invariant forall j :: i <= j < random.Length ==> random[j] == old(random[j])
    {
      random[i] := random[i] * size;
      i := i + 1;
    }
  }

  ghost predicate Scaled(random: seq<nat>, perm: seq<nat>, size: nat)
  {
    |random| == |perm| && forall i :: 0 <= i < |perm| ==> random[i] == perm[i] * size
  }

  /** next_freelist_entry: entries that are beyond the slab are skipped.  `rot` is the rotation being read, of which
      `t` entries have been read and entry `j` is one of the slab's. */
  method NextEntry(random: array<nat>, pos: nat, pageLimit: nat, ghost perm: seq<nat>, ghost size: nat, ghost n: nat,
                   ghost first: nat, ghost t: nat, ghost j: nat)
    returns (offset: nat, pos': nat, ghost t': nat)
    requires size >= 1 && Scaled(random[..], perm, size) && pageLimit == n * size && first < |perm| && t < |perm|
    requires pos == Wrap(first + t, |perm|)
    requires t <= j < |perm| && perm[Wrap(first + j, |perm|)] < n
    ensures offset < pageLimit && offset in random[..] && pos' < random.Length
    ensures t < t' <= |perm| && pos' == Wrap(first + t', |perm|)
    ensures var x := perm[Wrap(first + (t' - 1), |perm|)];
      x < n && offset == x * size && Taken(perm, first, n, t') == Taken(perm, first, n, t) + [x]
  {
    hide Taken;
    pos', t' := pos, t;
    while true
      invariant t <= t' <= j < |perm| && pos' == Wrap(first + t', |perm|) < |perm|
      invariant Taken(perm, first, n, t') == Taken(perm, first, n, t)
      decreases j - t'
    {
      TakenStep(perm, first, n, t');
      offset := random[pos'];
      BelowScaled(perm[pos'], n, size);
      assert offset == random[..][pos'];
      pos', t' := pos' + 1, t' + 1;
      if pos' >= random.Length { pos' := 0; }
      if offset < pageLimit { break; }
    }
  }

  lemma BelowScaled(x: nat, n: nat, size: nat)
    requires size >= 1
    ensures x < n <==> x * size < n * size
  {
    Distribute(x, n, size);
    Far(x - n, size);
  }

  /** The addresses of the objects of an order. */
  ghost function Addresses(order: seq<nat>, start: nat, size: nat): seq<nat>
  {
    seq(|order|, k requires 0 <= k < |order| => start + order[k] * size)
  }

  lemma AddressesNoDup(order: seq<nat>, start: nat, size: nat)
    requires NoDup(order) && size >= 1
    ensures NoDup(Addresses(order, start, size))
  {
    var l := Addresses(order, start, size);
    forall i, j | 0 <= i < j < |l| ensures l[i] != l[j] {
      BelowScaled(order[i], order[j], size);
      BelowScaled(order[j], order[i], size);
    }
  }

  /** shuffle_freelist: `objects` objects of `size` bytes from `start` on; `pos` is random. */
  method ShuffleFreelist(mem: FreePointers, haveSeq: bool, random: array<nat>, pos: nat, objects: nat, size: nat, start: nat, ghost perm: seq<nat>)
    returns (ok: bool, freelist: nat)
    requires size >= 1 && start >= 1
    requires haveSeq ==> Permutation(perm, random.Length) && Scaled(random[..], perm, size) && pos < random.Length && objects <= random.Length
    modifies mem
    ensures ok <==> haveSeq && objects >= 2
    ensures ok ==> NullTerminated(mem.next, freelist, Addresses(Order(perm, pos, objects), start, size))
    ensures ok ==> Untouched(old(mem.next), mem.next, Addresses(Order(perm, pos, objects), start, size))
    ensures !ok ==> mem.next == old(mem.next)
  {
    if objects < 2 || !haveSeq {
      return false, 0;
    }
    hide Order, Rotation, NullTerminated, NoDup, Taken, Addresses, Untouched, Scaled, Permutation;
    ghost var order := Order(perm, pos, objects);
    OrderIsComplete(perm, pos, objects);
    AddressesNoDup(order, start, size);
    ghost var l := Addresses(order, start, size);
    AddressesAre(order, start, size);
    ghost var t := 0;
    NothingTaken(perm, pos, objects);
    ghost var j := MoreToRead(perm, pos, objects, 0, 0);
    var p, offset := pos, 0;
    offset, p, t := NextEntry(random, p, objects * size, perm, size, objects, pos, t, j);
    Reads(perm, pos, objects, 0, t, 0);
    var cur := start + offset;
    freelist := cur;
    var idx := 1;
    NothingTouched(mem.next, l);
    while idx < objects
      invariant 1 <= idx <= objects && t <= |perm| && p == Wrap(pos + t, |perm|)
      invariant Taken(perm, pos, objects, t) == order[..idx]
      invariant cur == l[idx - 1] && freelist == l[0] && Untouched(old(mem.next), mem.next, l)
      invariant LinkedTo(mem.next, l, idx - 1)
    {
      ghost var was := t;
      j := MoreToRead(perm, pos, objects, t, idx);
      offset, p, t := NextEntry(random, p, objects * size, perm, size, objects, pos, t, j);
      Reads(perm, pos, objects, was, t, idx);
      var next := start + offset;
      OneTouched(old(mem.next), mem.next, l, idx - 1, next);
      OneLinked(mem.next, l, idx - 1, next);
      mem.Set(cur, next);
      cur := next;
      idx := idx + 1;
    }
    OneTouched(old(mem.next), mem.next, l, idx - 1, 0);
    LastLinked(mem.next, l);
    mem.Set(cur, 0);
    LinkedIsChain(mem.next, l);
    return true, freelist;
  }

  lemma AddressesAre(order: seq<nat>, start: nat, size: nat)
    ensures var l := Addresses(order, start, size);
      |l| == |order| && forall k :: 0 <= k < |order| ==> l[k] == start + order[k] * size
  {
  }

  lemma NothingTouched(next: map<nat, nat>, l: seq<nat>)
    ensures Untouched(next, next, l)
  {
  }

  lemma OneTouched(before: map<nat, nat>, next: map<nat, nat>, l: seq<nat>, i: nat, value: nat)
    requires Untouched(before, next, l) && i < |l|
    ensures Untouched(before, next[l[i] := value], l)
  {
  }

  /** The first n of `l` each point at the next. */
  ghost predicate LinkedTo(next: map<nat, nat>, l: seq<nat>, n: nat)
  {
    n < |l| && forall k :: 0 <= k < n ==> l[k] in next && next[l[k]] == l[k + 1]
  }

  lemma OneLinked(next: map<nat, nat>, l: seq<nat>, i: nat, value: nat)
    requires NoDup(l) && LinkedTo(next, l, i) && i + 1 < |l| && value == l[i + 1]
    ensures LinkedTo(next[l[i] := value], l, i + 1)
  {
    AddressesApart(l, i);
  }

  lemma LastLinked(next: map<nat, nat>, l: seq<nat>)
    requires NoDup(l) && l != [] && LinkedTo(next, l, |l| - 1)
    ensures LinkedTo(next[l[|l| - 1] := 0], l, |l| - 1)
  {
    AddressesApart(l, |l| - 1);
  }

  lemma NothingTaken(perm: seq<nat>, pos: nat, n: nat)
    requires pos < |perm|
    ensures Taken(perm, pos, n, 0) == [] == Order(perm, pos, n)[..0]
  {
    assert Rotation(perm, pos)[..0] == [];
  }

  /** Until all objects are listed there are more to come. */
  lemma MoreToRead(perm: seq<nat>, pos: nat, n: nat, t: nat, idx: nat) returns (j: nat)
    requires pos < |perm| && t <= |perm| && idx < n && |Order(perm, pos, n)| == n
    requires Taken(perm, pos, n, t) == Order(perm, pos, n)[..idx]
    ensures t <= j < |perm| && perm[Wrap(pos + j, |perm|)] < n
  {
    hide Filter;
    var rot: seq<nat> := Rotation(perm, pos);
    assert rot == rot[..t] + rot[t..];
    FilterAppend(rot[..t], rot[t..], Below(n));
    j := FirstMatch(rot[t..], Below(n));
    j := t + j;
  }

  /** The entry read is the next one of the order. */
  lemma Reads(perm: seq<nat>, pos: nat, n: nat, was: nat, t: nat, idx: nat)
    requires pos < |perm| && was < t <= |perm| && idx < n && |Order(perm, pos, n)| == n
    requires Taken(perm, pos, n, was) == Order(perm, pos, n)[..idx]
    requires Taken(perm, pos, n, t) == Taken(perm, pos, n, was) + [perm[Wrap(pos + (t - 1), |perm|)]]
    ensures Taken(perm, pos, n, t) == Order(perm, pos, n)[..idx + 1]
    ensures perm[Wrap(pos + (t - 1), |perm|)] == Order(perm, pos, n)[idx]
  {
    var rot: seq<nat>, order := Rotation(perm, pos), Order(perm, pos, n);
    var x := perm[Wrap(pos + (t - 1), |perm|)];
    assert rot == rot[..t] + rot[t..];
    FilterAppend(rot[..t], rot[t..], Below(n));
    assert order == (order[..idx] + [x]) + Filter(rot[t..], Below(n));
    assert order[idx] == x;
    assert order[..idx + 1] == order[..idx] + [order[idx]];
  }

  lemma AddressesApart(l: seq<nat>, i: nat)
    requires NoDup(l) && i < |l|
    ensures forall k :: 0 <= k < |l| && k != i ==> l[k] != l[i]
  {
  }

  lemma LinkedIsChain(next: map<nat, nat>, l: seq<nat>)
    requires l != [] && forall k :: 0 <= k < |l| - 1 ==> l[k] in next && next[l[k]] == l[k + 1]
    requires Last(l) in next && next[Last(l)] == 0
    ensures NullTerminated(next, l[0], l)
  {
  }
}
