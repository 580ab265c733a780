/** on_freelist: looking for an object on a free list that may be corrupt, and repairing the list. */
module FreelistRepair {
  import opened Freelist
  import opened Powers
  import opened SlabOrder

  /** The memory of one slab as pointers see it: object i is at `origin + i * size`, and `words[i]` is
      the free pointer stored in it.  Free pointers are arbitrary numbers, 0 is NULL. */
  datatype Memory = Memory(origin: nat, size: nat, objects: nat, words: seq<nat>)

  predicate Sane(m: Memory)
  {
    m.size >= 1 && m.origin >= 1 && m.objects <= |m.words|
  }

  /** check_valid_pointer for a pointer that is not NULL, and the object it names. */
  function Slot(m: Memory, a: nat): Option<nat>
    requires m.size >= 1
  {
    if m.origin <= a < m.origin + m.objects * m.size && (a - m.origin) % m.size == 0
    then Some((a - m.origin) / m.size) else None
  }

  lemma SlotIs(m: Memory, a: nat)
    requires m.size >= 1 && Slot(m, a).Some?
    ensures Slot(m, a).value < m.objects && a == m.origin + Slot(m, a).value * m.size
  {
    var i := Slot(m, a).value;
    Split(a - m.origin, m.size);
    Distribute(i, m.objects, m.size);
    Far(i - m.objects, m.size);
  }

  /** A valid pointer stays valid, and names the same object, when the slab is found to hold more objects. */
  lemma SlotGrows(m: Memory, m': Memory, a: nat)
    requires m.size >= 1 && Slot(m, a).Some? && m'.origin == m.origin && m'.size == m.size && m.objects <= m'.objects
    ensures Slot(m', a) == Slot(m, a)
  {
    Distribute(m'.objects, m.objects, m.size);
    Far(m'.objects - m.objects, m.size);
  }

  // ---- walking ----

  /** The pointer met after n hops from `head`; NULL once a pointer is not an object's. */
  function At(m: Memory, head: nat, n: nat): nat
    requires Sane(m)
  {
    if n == 0 then head
    else
      var s := Slot(m, At(m, head, n - 1));
      if s.Some? && s.value < |m.words| then m.words[s.value] else 0
  }

  /** The first n pointers are objects'. */
  ghost predicate Steps(m: Memory, head: nat, n: nat)
    requires Sane(m)
  {
    forall k: nat :: k < n ==> Slot(m, At(m, head, k)).Some?
  }

  /** The walk meets n objects and then NULL or a pointer that is no object's. */
  ghost predicate Stops(m: Memory, head: nat, n: nat)
    requires Sane(m)
  {
    Steps(m, head, n) && Slot(m, At(m, head, n)).None?
  }

  /** The walk over valid pointers meets one of them again. */
  ghost predicate Cyclic(m: Memory, head: nat)
    requires Sane(m)
  {
    exists i: nat, j: nat :: i < j && At(m, head, i) == At(m, head, j) && Steps(m, head, j + 1)
  }

  /** The objects met in the first n hops. */
  ghost function Trail(m: Memory, head: nat, n: nat): (l: seq<nat>)
    requires Sane(m) && Steps(m, head, n)
    ensures |l| == n && forall k: nat :: k < n ==> Slot(m, At(m, head, k)) == Some(l[k]) && l[k] < m.objects
  {
    var l := seq(n, k requires 0 <= k < n => Slot(m, At(m, head, k)).value);
    assert forall k: nat :: k < n ==> Slot(m, At(m, head, k)) == Some(l[k]) && l[k] < m.objects by {
      forall k: nat | k < n ensures Slot(m, At(m, head, k)) == Some(l[k]) && l[k] < m.objects { SlotIs(m, At(m, head, k)); }
    }
    l
  }

  lemma TrailNoDup(m: Memory, head: nat, n: nat)
    requires Sane(m) && Steps(m, head, n) && !Cyclic(m, head)
    ensures NoDup(Trail(m, head, n))
  {
    var l := Trail(m, head, n);
    forall i, j | 0 <= i < j < |l| ensures l[i] != l[j] {
      SlotIs(m, At(m, head, i));
      SlotIs(m, At(m, head, j));
      assert Steps(m, head, j + 1);
    }
  }

  /** Without a cycle there are not more hops than objects. */
  lemma Pigeons(m: Memory, head: nat, n: nat)
    requires Sane(m) && Steps(m, head, n) && !Cyclic(m, head)
    ensures n <= m.objects
  {
    var l := Trail(m, head, n);
    TrailNoDup(m, head, n);
    SetSize(l);
    Subset(Elems(l), Range(m.objects));
  }

  /** In a cycle the walk never ends. */
  lemma {:induction false} Round(m: Memory, head: nat, i: nat, j: nat, n: nat)
    requires Sane(m) && i < j && At(m, head, i) == At(m, head, j) && Steps(m, head, j + 1)
    ensures Steps(m, head, n)
    ensures n >= j ==> At(m, head, n) == At(m, head, n - (j - i))
    decreases n
  {
    if n > j {
      Round(m, head, i, j, n - 1);
      if n - 1 > j { assert Slot(m, At(m, head, n - 1 - (j - i))).Some?; }
      assert At(m, head, n) == At(m, head, n - (j - i));
    }
  }

  /** The walk goes over more pointers than there are objects exactly if it is cyclic. */
  lemma CycleIsTooLong(m: Memory, head: nat)
    requires Sane(m)
    ensures Steps(m, head, m.objects + 1) <==> Cyclic(m, head)
  {
    if Steps(m, head, m.objects + 1) && !Cyclic(m, head) {
      Pigeons(m, head, m.objects + 1);
    } else if Cyclic(m, head) {
      var i: nat, j: nat :| i < j && At(m, head, i) == At(m, head, j) && Steps(m, head, j + 1);
      Round(m, head, i, j, m.objects + 1);
    }
  }

  lemma StopsIsNotCyclic(m: Memory, head: nat, n: nat)
    requires Sane(m) && Stops(m, head, n)
    ensures !Cyclic(m, head) && n <= m.objects
  {
    if Cyclic(m, head) {
      var i: nat, j: nat :| i < j && At(m, head, i) == At(m, head, j) && Steps(m, head, j + 1);
      Round(m, head, i, j, n + 1);
    } else {
      Pigeons(m, head, n);
    }
  }

  lemma StopsOnce(m: Memory, head: nat, i: nat, j: nat)
    requires Sane(m) && Stops(m, head, i) && Stops(m, head, j)
    ensures i == j
  {
  }

  /** A NULL-terminated list of different objects. */
  ghost predicate IsList(m: Memory, head: nat, l: seq<nat>)
    requires Sane(m)
  {
    && NoDup(l) && (forall k: nat :: k < |l| ==> l[k] < m.objects && Slot(m, At(m, head, k)) == Some(l[k]))
    && At(m, head, |l|) == 0
  }

  /** The walked part of the list is a list again once its last pointer is NULL. */
  lemma CutIsList(m: Memory, head: nat, n: nat, objects: nat)
    requires Sane(m) && Stops(m, head, n) && n >= 1 && m.objects <= objects <= |m.words|
    ensures var l := Trail(m, head, n);
      IsList(m.(words := m.words[l[n - 1] := 0], objects := objects), head, l)
  {
    hide Slot, Cyclic;
    var l := Trail(m, head, n);
    var m' := m.(words := m.words[l[n - 1] := 0], objects := objects);
    StopsIsNotCyclic(m, head, n);
    TrailNoDup(m, head, n);
    forall k: nat | k < n ensures At(m', head, k) == At(m, head, k) && Slot(m', At(m', head, k)) == Some(l[k]) {
      CutKeeps(m, m', head, n, k);
    }
  }

  lemma {:induction false} CutKeeps(m: Memory, m': Memory, head: nat, n: nat, k: nat)
    requires Sane(m) && Sane(m') && Steps(m, head, n) && k < n && NoDup(Trail(m, head, n))
    requires m'.origin == m.origin && m'.size == m.size && m.objects <= m'.objects <= |m.words|
    requires m'.words == m.words[Trail(m, head, n)[n - 1] := 0]
    ensures At(m', head, k) == At(m, head, k) && Slot(m', At(m', head, k)) == Slot(m, At(m, head, k))
    decreases k
  {
    hide Slot, Trail;
    if k > 0 {
      CutKeeps(m, m', head, n, k - 1);
      var l := Trail(m, head, n);
      assert Slot(m, At(m, head, k - 1)) == Some(l[k - 1]) && l[k - 1] != l[n - 1];
    }
    SlotGrows(m, m', At(m, head, k));
  }

  /** A list that ends in NULL stays one when the slab is found to hold more objects. */
  lemma NullIsList(m: Memory, head: nat, n: nat, objects: nat)
    requires Sane(m) && Stops(m, head, n) && At(m, head, n) == 0 && m.objects <= objects <= |m.words|
    ensures IsList(m.(objects := objects), head, Trail(m, head, n))
  {
    var l := Trail(m, head, n);
    StopsIsNotCyclic(m, head, n);
    TrailNoDup(m, head, n);
    forall k: nat | k <= n ensures At(m.(objects := objects), head, k) == At(m, head, k) {
      GrowKeeps(m, head, n, k, objects);
    }
    forall k: nat | k < n ensures Slot(m.(objects := objects), At(m, head, k)) == Some(l[k]) {
      SlotGrows(m, m.(objects := objects), At(m, head, k));
    }
  }

  lemma {:induction false} GrowKeeps(m: Memory, head: nat, n: nat, k: nat, objects: nat)
    requires Sane(m) && Steps(m, head, n) && k <= n && m.objects <= objects <= |m.words|
    ensures At(m.(objects := objects), head, k) == At(m, head, k)
    decreases k
  {
    if k > 0 {
      GrowKeeps(m, head, n, k - 1, objects);
      SlotGrows(m, m.(objects := objects), At(m, head, k - 1));
    }
  }

  // ---- repair ----

  /** What the kernel log says. */
  datatype Report = Clean | FreechainCorrupt | FreepointerCorrupt | CycleDetected

  /** A walk of at most `objects` hops over valid pointers leads to `search`. */
  ghost predicate Met(m: Memory, head: nat, search: nat)
    requires Sane(m)
  {
    exists n: nat :: n <= m.objects && Steps(m, head, n) && At(m, head, n) == search
  }

  lemma MetAt(m: Memory, head: nat, n: nat, search: nat)
    requires Sane(m) && n <= m.objects && Steps(m, head, n) && At(m, head, n) == search
    ensures Met(m, head, search)
  {
  }

  lemma NotMet(m: Memory, head: nat, n: nat, search: nat)
    requires Sane(m) && (n > m.objects || (Stops(m, head, n) && (search != 0 ==> At(m, head, n) != search)))
    requires search != 0 ==> forall k: nat :: k < n ==> At(m, head, k) != search
    ensures search != 0 ==> !Met(m, head, search)
  {
  }

  /** From memory `m` and list `head` the repair has made `m'` and `head'`, with `inuse` objects in use: the
      list is what it was up to the first bad pointer, or empty if that was the first one or the list was
      cyclic, and the counter is right. */
  ghost predicate Repair(m: Memory, head: nat, m': Memory, head': nat, inuse: nat, report: Report)
    requires Sane(m) && Sane(m')
  {
    && (report.CycleDetected? <==> Cyclic(m, head))
    && (report.FreepointerCorrupt? <==> head != 0 && Stops(m, head, 0))
    && (report.FreechainCorrupt? <==> exists n: nat :: n >= 1 && Stops(m, head, n) && At(m, head, n) != 0)
    && (report.Clean? <==> exists n: nat :: Stops(m, head, n) && At(m, head, n) == 0)
    && (report.CycleDetected? || report.FreepointerCorrupt? ==>
          IsList(m', head', []) && inuse == m'.objects == m.objects && m'.words == m.words)
    && (report.Clean? || report.FreechainCorrupt? ==>
          && head' == head && m'.objects == |m.words|
          && exists n: nat :: Stops(m, head, n) && IsList(m', head, Trail(m, head, n)) && inuse + n == m'.objects)
  }

  lemma CleanRepair(m: Memory, head: nat, n: nat)
    requires Sane(m) && Stops(m, head, n) && At(m, head, n) == 0
    ensures n <= m.objects && Repair(m, head, m.(objects := |m.words|), head, |m.words| - n, Clean)
  {
    hide Slot;
    StopsIsNotCyclic(m, head, n);
    NullIsList(m, head, n, |m.words|);
    forall k: nat | Stops(m, head, k) ensures k == n { StopsOnce(m, head, n, k); }
  }

  lemma CutRepair(m: Memory, head: nat, n: nat)
    requires Sane(m) && Stops(m, head, n) && At(m, head, n) != 0 && n >= 1
    ensures n <= m.objects
    ensures var last := Trail(m, head, n)[n - 1];
      Repair(m, head, m.(words := m.words[last := 0], objects := |m.words|), head, |m.words| - n, FreechainCorrupt)
  {
    hide Slot;
    StopsIsNotCyclic(m, head, n);
    CutIsList(m, head, n, |m.words|);
    forall k: nat | Stops(m, head, k) ensures k == n { StopsOnce(m, head, n, k); }
  }

  lemma HeadRepair(m: Memory, head: nat)
    requires Sane(m) && head != 0 && Stops(m, head, 0)
    ensures Repair(m, head, m, 0, m.objects, FreepointerCorrupt)
  {
    hide Slot;
    StopsIsNotCyclic(m, head, 0);
    forall k: nat | Stops(m, head, k) ensures k == 0 { StopsOnce(m, head, 0, k); }
  }

  lemma CycleRepair(m: Memory, head: nat)
    requires Sane(m) && Steps(m, head, m.objects + 1)
    ensures Repair(m, head, m, 0, m.objects, CycleDetected)
  {
    hide Slot;
    CycleIsTooLong(m, head);
    forall k: nat ensures !Stops(m, head, k) {
      if Stops(m, head, k) { StopsIsNotCyclic(m, head, k); }
    }
  }

  class DebugSlab {
    const base: nat
    const redLeft: nat
    const size: nat
    const order: nat
    var freelist: nat
    var inuse: nat
    var objects: nat
    var words: seq<nat>

    /** The most objects a slab of this order and size can hold. */
    function Most(): nat
      requires size >= 1
    {
      if OrderObjects(order, size) > MAX_OBJS_PER_PAGE then MAX_OBJS_PER_PAGE else OrderObjects(order, size)
    }

    ghost predicate Valid()
      reads this
    {
      size >= 1 && base >= 1 && objects <= Most() == |words|
    }

    function Mem(): Memory
      reads this
    {
      Memory(base + redLeft, size, objects, words)
    }

    /** on_freelist.  An object that is looked for and met, before any bad pointer, leaves the slab alone;
        otherwise, and in particular for `search` NULL, the list is repaired. */
    method OnFreelist(search: nat) returns (found: bool, report: Report)
      requires Valid()
      modifies this
      ensures Valid()
      ensures search != 0 ==> (found <==> Met(old(Mem()), old(freelist), search))
      ensures search != 0 && found ==> Mem() == old(Mem()) && freelist == old(freelist) && inuse == old(inuse)
      ensures search == 0 || !found ==> Repair(old(Mem()), old(freelist), Mem(), freelist, inuse, report)
      ensures search == 0 ==> (found <==> report.Clean? || report.FreechainCorrupt?)
    {
      hide Slot, Repair, OrderObjects, Cyclic, Met, At, Steps, Stops, Trail;
      WalkBegins(Mem(), freelist);
      ghost var m, head := Mem(), freelist;
      report := Clean;
      var nr := 0;
      var last := 0;
      var fp := freelist;
      while fp != 0 && nr <= objects
        invariant Mem() == m && freelist == head && inuse == old(inuse) && report == Clean
        invariant nr <= objects + 1 && Steps(m, head, nr) && fp == At(m, head, nr)
        invariant (nr == 0 ==> last == 0) && (nr > 0 ==> last == At(m, head, nr - 1) != 0)
        invariant search != 0 ==> forall n: nat :: n < nr ==> At(m, head, n) != search
        decreases objects + 1 - nr
      {
        if fp == search {
          MetAt(m, head, nr, search);
          return true, Clean;
        }
        if Slot(Mem(), fp).None? {
          if last != 0 {
            report := FreechainCorrupt;
            WalkStops(m, head, nr);
            CutRepair(m, head, nr);
            NotMet(m, head, nr, search);
            words := words[Slot(Mem(), last).value := 0];
            break;
          } else {
            WalkStops(m, head, nr);
            HeadRepair(m, head);
            NotMet(m, head, nr, search);
            freelist := 0;
            inuse := objects;
            return false, FreepointerCorrupt;
          }
        }
        WalkGoesOn(m, head, nr);
        last := fp;
        fp := words[Slot(Mem(), fp).value];
        nr := nr + 1;
      }
      if nr > objects {
        CycleRepair(m, head);
        NotMet(m, head, nr, search);
        freelist := 0;
        inuse := objects;
        return false, CycleDetected;
      }
      if report.Clean? {
        NullStops(m, head, nr);
        CleanRepair(m, head, nr);
        NotMet(m, head, nr, search);
      }
      if objects != Most() { objects := Most(); }
      if inuse != objects - nr { inuse := objects - nr; }
      found := search == 0;
    }
  }

  lemma WalkBegins(m: Memory, head: nat)
    requires Sane(m)
    ensures Steps(m, head, 0) && At(m, head, 0) == head
  {
  }

  lemma WalkGoesOn(m: Memory, head: nat, n: nat)
    requires Sane(m) && Steps(m, head, n) && Slot(m, At(m, head, n)).Some?
    ensures Steps(m, head, n + 1) && Slot(m, At(m, head, n)).value < |m.words|
    ensures At(m, head, n + 1) == m.words[Slot(m, At(m, head, n)).value]
  {
    hide Slot;
    SlotIs(m, At(m, head, n));
  }

  lemma WalkStops(m: Memory, head: nat, n: nat)
    requires Sane(m) && Steps(m, head, n) && Slot(m, At(m, head, n)).None?
    ensures Stops(m, head, n)
    ensures n >= 1 ==>
      Slot(m, At(m, head, n - 1)) == Some(Trail(m, head, n)[n - 1]) && Trail(m, head, n)[n - 1] < m.objects
  {
    hide Slot;
  }

  lemma NullStops(m: Memory, head: nat, n: nat)
    requires Sane(m) && Steps(m, head, n) && At(m, head, n) == 0
    ensures Stops(m, head, n)
  {
  }
}
