/** How many pages a slab takes: calculate_order and the packed order/object count. */
module SlabOrder {
  import opened Powers

  const PAGE_SIZE: nat := 4096
  const WORD: nat := 0x1_0000_0000
  const MAX_PAGE_ORDER: nat := 10
  const MAX_OBJS_PER_PAGE: nat := 32767
  const ENOSYS: int := 38
  const OO_SHIFT_FACTOR: nat := 0x1_0000

  /** (unsigned int)PAGE_SIZE << order, 32 bits wide. */
  function SlabSize(order: nat): nat
  {
    (PAGE_SIZE * Pow2(order)) % WORD
  }

  /** order_objects */
  function OrderObjects(order: nat, size: nat): nat
    requires size >= 1
  {
    SlabSize(order) / size
  }

  /** get_order: the least order whose pages hold n bytes. */
  function GetOrder(n: nat): (r: nat)
    ensures n <= PAGE_SIZE * Pow2(r)
    ensures forall o: nat :: n <= PAGE_SIZE * Pow2(o) ==> r <= o
  {
    if n <= PAGE_SIZE then 0
    else
      var r := 1 + GetOrder((n + 1) / 2);
      assert forall o: nat :: n <= PAGE_SIZE * Pow2(o) ==> o > 0 && (n + 1) / 2 <= PAGE_SIZE * Pow2(o - 1);
      r
  }

  /** The number of bits. */
  function Fls(x: nat): (r: nat)
    ensures if x == 0 then r == 0 else r >= 1 && Pow2(r - 1) <= x < Pow2(r)
  {
    if x == 0 then 0 else 1 + Fls(x / 2)
  }

  /** slub_min_order, slub_max_order, slub_min_objects (0 if not set) and the number of cpus. */
  datatype Config = Config(minOrder: nat, maxOrder: nat, minObjects: nat, cpus: nat)

  /** How many objects a slab should have: as configured, or 4 (n + 1) if it takes n bits to count the cpus. */
  function MinObjects(k: Config): (r: nat)
    ensures r >= 1 && (k.minObjects != 0 ==> r == k.minObjects)
    ensures k.minObjects == 0 && k.cpus == 0 ==> r == 4
    ensures k.minObjects == 0 && k.cpus > 0 ==> r % 4 == 0 && r >= 8 && Pow2(r / 4 - 2) <= k.cpus < Pow2(r / 4 - 1)
  {
    if k.minObjects != 0 then k.minObjects else 4 * (Fls(k.cpus) + 1)
  }

  // ---- powers and sizes without wrap ----

  lemma {:induction false} PowMonotone(i: nat, j: nat)
    requires i <= j
    ensures Pow2(i) <= Pow2(j)
    decreases j
  {
    if i < j { PowMonotone(i, j - 1); }
  }

  lemma NoWrap(order: nat)
    requires order <= 19
    ensures SlabSize(order) == PAGE_SIZE * Pow2(order) <= WORD / 2
  {
    PowMonotone(order, 19);
    assert Pow2(19) == 524288 by { assert Pow2(9) == 512; assert Pow2(14) == 16384; }
  }

  lemma PowStep(o: nat)
    requires o >= 1
    ensures Pow2(o) == 2 * Pow2(o - 1)
  {
  }

  lemma PowNineteen()
    ensures Pow2(19) == 524288
  {
    assert Pow2(9) == 512;
    assert Pow2(14) == 16384;
  }

  /** 2^20 pages are 2^32 bytes: from there on the size of a slab wraps to 0. */
  lemma {:induction false} Wrapped(order: nat)
    requires order >= 20
    ensures PAGE_SIZE * Pow2(order) >= WORD && SlabSize(order) == 0
    decreases order
  {
    hide Pow2;
    PowStep(order);
    if order == 20 { PowNineteen(); } else { Wrapped(order - 1); }
  }

  /** A slab that holds nothing wastes nothing. */
  lemma WrappedFits(size: nat, order: nat, fraction: nat)
    requires size >= 1 && fraction >= 1 && order >= 20
    ensures Fits(size, order, fraction) && OrderObjects(order, size) == 0
  {
    hide Pow2, SlabSize;
    Wrapped(order);
    ModUnique(0, size, 0, 0);
    ModUnique(0, fraction, 0, 0);
  }

  /** No 32-bit size needs more than 2^20 pages. */
  lemma OrderBound(size: nat)
    requires size < WORD
    ensures GetOrder(size) <= 20
  {
    hide Pow2, SlabSize, GetOrder;
    Wrapped(20);
  }

  // ---- waste ----

  /** At most one part in `fraction` of the slab is left over. */
  predicate Fits(size: nat, order: nat, fraction: nat)
    requires size >= 1 && fraction >= 1
  {
    SlabSize(order) % size <= SlabSize(order) / fraction
  }

  /** What is left over is at most one part in `fraction` of the slab, exactly. */
  lemma FitsMeans(size: nat, order: nat, fraction: nat)
    requires size >= 1 && fraction >= 1
    ensures Fits(size, order, fraction) <==> (SlabSize(order) % size) * fraction <= SlabSize(order)
  {
    hide SlabSize;
    var s, rem := SlabSize(order), SlabSize(order) % size;
    DivBounds(s, fraction);
    Distribute(rem, s / fraction, fraction);
    Far(rem - s / fraction, fraction);
    Distribute(s / fraction, rem, fraction);
    Far(s / fraction - rem, fraction);
  }

  /** Doubling the slab never increases the fraction wasted: with slab sizes S and 2S,
      waste(2S) / 2S <= waste(S) / S. */
  lemma WasteNeverGrows(order: nat, size: nat)
    requires order < 19 && size >= 1
    ensures SlabSize(order + 1) == 2 * SlabSize(order)
    ensures SlabSize(order + 1) % size <= 2 * (SlabSize(order) % size)
  {
    NoWrap(order);
    NoWrap(order + 1);
    DoubleMod(SlabSize(order), size);
  }

  lemma DoubleMod(s: nat, m: nat)
    requires m >= 1
    ensures (2 * s) % m <= 2 * (s % m)
  {
    Split(s, m);
    var q, r := s / m, s % m;
    Reassociate(q, m);
    assert 2 * s == (2 * q) * m + 2 * r;
    if 2 * r < m {
      ModUnique(2 * s, m, 2 * q, 2 * r);
    } else {
      assert (2 * q + 1) * m == (2 * q) * m + m;
      ModUnique(2 * s, m, 2 * q + 1, 2 * r - m);
    }
  }

  /** A waste that is acceptable stays acceptable at higher orders. */
  lemma {:induction false} FitsUpward(size: nat, order: nat, higher: nat, fraction: nat)
    requires size >= 1 && fraction >= 1 && order <= higher <= 19 && Fits(size, order, fraction)
    ensures Fits(size, higher, fraction)
    decreases higher
  {
    if order < higher {
      FitsUpward(size, order, higher - 1, fraction);
      WasteNeverGrows(higher - 1, size);
      DoubleDiv(SlabSize(higher - 1), fraction);
    }
  }

  lemma DoubleDiv(s: nat, f: nat)
    requires f >= 1
    ensures (2 * s) / f >= 2 * (s / f)
  {
    Split(s, f);
    Split(2 * s, f);
    Reassociate(s / f, f);
    var d := 2 * (s / f) - (2 * s) / f;
    Distribute(2 * (s / f), (2 * s) / f, f);
    Far(d, f);
  }

  /** Half of a slab that holds an object is never wasted. */
  lemma HalfAlwaysFits(size: nat, order: nat)
    requires 1 <= size <= SlabSize(order)
    ensures Fits(size, order, 2)
  {
    var s := SlabSize(order);
    Split(s, size);
    Far(s / size, size);
    if s / size <= 0 { Far(s / size - 1, size); Distribute(s / size, 1, size); }
  }

  /** With sixteen objects or more, the waste is below a sixteenth. */
  lemma ManyFit(size: nat, order: nat, fraction: nat)
    requires size >= 1 && 16 * size <= SlabSize(order)
    requires fraction == 16 || fraction == 8 || fraction == 4 || fraction == 2
    ensures Fits(size, order, fraction)
  {
    Split(SlabSize(order), size);
  }

  // ---- calc_slab_order ----

  /** `order` is the first from `low` on that fits, or there is none up to `high`. */
  predicate FirstFit(size: nat, low: nat, high: nat, fraction: nat, order: nat)
    requires size >= 1 && fraction >= 1
  {
    && low <= order
    && (order > high ==> order == low || order == high + 1)
    && (order <= high ==> Fits(size, order, fraction))
    && (forall o :: low <= o < order && o <= high ==> !Fits(size, o, fraction))
  }

  method CalcSlabOrder(size: nat, minOrder: nat, maxOrder: nat, fraction: nat) returns (order: nat)
    requires size >= 1 && fraction >= 1
    ensures FirstFit(size, minOrder, maxOrder, fraction, order)
  {
    order := minOrder;
    while order <= maxOrder
      invariant minOrder <= order && (order > maxOrder ==> order == minOrder || order == maxOrder + 1)
      invariant forall o :: minOrder <= o < order ==> !Fits(size, o, fraction)
      decreases maxOrder + 1 - order
    {
      var slabSize := SlabSize(order);
      var rem := slabSize % size;
      if rem <= slabSize / fraction { break; }
      order := order + 1;
    }
  }

  // ---- calculate_order ----

  /** Where the search for an order begins. */
  function StartOrder(k: Config, size: nat): nat
    requires size >= 1
  {
    var fromSize := GetOrder(Wanted(k, size) * size % WORD);
    if k.minOrder > fromSize then k.minOrder else fromSize
  }

  /** The objects a slab should hold: as many as configured, but not more than fit, and one at least. */
  function Wanted(k: Config, size: nat): (r: nat)
    requires size >= 1
    ensures r >= 1
  {
    var most := if OrderObjects(k.maxOrder, size) < 1 then 1 else OrderObjects(k.maxOrder, size);
    if most < MinObjects(k) then most else MinObjects(k)
  }

  /** The smallest order between `low` and `high` that wastes at most a sixteenth; failing that at most an
      eighth, a quarter, a half. */
  predicate LeastWaste(size: nat, low: nat, high: nat, order: nat)
    requires size >= 1
  {
    || (order <= high && FirstFit(size, low, high, 16, order))
    || (NoneFits(size, low, high, 16) && order <= high && FirstFit(size, low, high, 8, order))
    || (NoneFits(size, low, high, 8) && order <= high && FirstFit(size, low, high, 4, order))
    || (NoneFits(size, low, high, 4) && order <= high && FirstFit(size, low, high, 2, order))
  }

  predicate NoneFits(size: nat, low: nat, high: nat, fraction: nat)
    requires size >= 1 && fraction >= 1
  {
    forall o :: low <= o <= high ==> !Fits(size, o, fraction)
  }

  /** When the order that is found holds an object: orders of 20 and more, whose sizes wrap to 0, are not configured;
      or the search begins below them and the largest order below them is good enough to stop it. */
  predicate Workable(k: Config, size: nat)
    requires size >= 1
  {
    k.maxOrder <= 19 || (k.minOrder <= 19 && size <= PAGE_SIZE * Pow2(19) && Fits(size, 19, 16))
  }

  /** An allowed order whose slab has as many objects as it should, or as many as any allowed slab has. */
  predicate Enough(k: Config, size: nat, order: nat)
    requires size >= 1
  {
    && k.minOrder <= order <= k.maxOrder
    && (OrderObjects(order, size) >= MinObjects(k) || OrderObjects(order, size) >= OrderObjects(k.maxOrder, size))
  }

  /** Of the orders with enough objects: the smallest that wastes one part in `fraction`, where none wastes half that. */
  ghost predicate SmallestAt(k: Config, size: nat, fraction: nat, order: nat)
    requires size >= 1 && fraction >= 1
  {
    && Enough(k, size, order) && Fits(size, order, fraction)
    && (forall o: nat :: Enough(k, size, o) && o < order ==> !Fits(size, o, fraction))
    && (fraction < 16 ==> forall o: nat :: Enough(k, size, o) ==> !Fits(size, o, 2 * fraction))
  }

  /** Some order with enough objects has no more than the counter of a slab can hold. */
  ghost predicate Countable(k: Config, size: nat)
    requires size >= 1
  {
    exists o: nat :: Enough(k, size, o) && OrderObjects(o, size) <= MAX_OBJS_PER_PAGE
  }

  /** The search begins at the least order with enough objects. */
  lemma StartIsLeast(k: Config, size: nat, o: nat)
    requires 1 <= size < WORD && k.minOrder <= k.maxOrder <= 19 && k.minObjects < WORD && o <= k.maxOrder
    requires size <= PAGE_SIZE * Pow2(k.maxOrder)
    ensures Enough(k, size, o) <==> StartOrder(k, size) <= o
  {
    hide Pow2, GetOrder, SlabSize, OrderObjects, MinObjects;
    var wanted := Wanted(k, size);
    NoWrap(k.maxOrder);
    NoWrap(o);
    HoldsMore(k.maxOrder, size, 0);
    HoldsMore(o, size, wanted - 1);
    WantedBounds(k, size);
    ModUnique(wanted * size, WORD, 0, wanted * size);
    var from := GetOrder(wanted * size);
    if from <= o { PowMonotone(from, o); }
  }

  lemma StartCounts(k: Config, size: nat)
    requires 1 <= size < WORD && k.minOrder <= k.maxOrder <= 19 && k.minObjects < WORD
    requires size <= PAGE_SIZE * Pow2(k.maxOrder)
    ensures Countable(k, size) <==> OrderObjects(StartOrder(k, size), size) <= MAX_OBJS_PER_PAGE
  {
    hide Pow2, GetOrder, SlabSize, OrderObjects, StartOrder, Enough;
    var start := StartOrder(k, size);
    StartHolds(k, size);
    StartIsLeast(k, size, start);
    forall o: nat | Enough(k, size, o) ensures OrderObjects(start, size) <= OrderObjects(o, size) {
      EnoughBound(k, size, o);
      StartIsLeast(k, size, o);
      NoWrap(start);
      NoWrap(o);
      PowMonotone(start, o);
      ObjectsMonotone(start, o, size);
    }
  }

  lemma EnoughBound(k: Config, size: nat, o: nat)
    requires size >= 1 && Enough(k, size, o)
    ensures o <= k.maxOrder
  {
  }

  lemma FirstIsSmallest(k: Config, size: nat, fraction: nat, order: nat)
    requires 1 <= size < WORD && k.minOrder <= k.maxOrder <= 19 && k.minObjects < WORD && fraction >= 1
    requires size <= PAGE_SIZE * Pow2(k.maxOrder)
    requires order <= k.maxOrder && FirstFit(size, StartOrder(k, size), k.maxOrder, fraction, order)
    requires fraction < 16 ==> NoneFits(size, StartOrder(k, size), k.maxOrder, 2 * fraction)
    ensures SmallestAt(k, size, fraction, order)
  {
    hide Pow2, GetOrder, SlabSize, OrderObjects, StartOrder, Enough, Fits;
    StartIsLeast(k, size, order);
    forall o: nat | Enough(k, size, o) ensures StartOrder(k, size) <= o <= k.maxOrder {
      EnoughBound(k, size, o);
      StartIsLeast(k, size, o);
    }
  }

  /** The answer in terms of the orders with enough objects, where slab sizes do not wrap. */
  ghost predicate Smallest(k: Config, size: nat, order: nat)
    requires size >= 1
  {
    || SmallestAt(k, size, 16, order) || SmallestAt(k, size, 8, order)
    || SmallestAt(k, size, 4, order) || SmallestAt(k, size, 2, order)
  }

  lemma LeastIsSmallest(k: Config, size: nat, order: nat)
    requires 1 <= size < WORD && k.minOrder <= k.maxOrder <= 19 && k.minObjects < WORD
    requires size <= PAGE_SIZE * Pow2(k.maxOrder) && LeastWaste(size, StartOrder(k, size), k.maxOrder, order)
    ensures Smallest(k, size, order)
  {
    hide Pow2, GetOrder, SlabSize, OrderObjects, StartOrder, Enough, Fits, FirstFit, NoneFits, SmallestAt;
    var low, high := StartOrder(k, size), k.maxOrder;
    if FirstFit(size, low, high, 16, order) {
      FirstIsSmallest(k, size, 16, order);
    } else if NoneFits(size, low, high, 16) && FirstFit(size, low, high, 8, order) {
      FirstIsSmallest(k, size, 8, order);
    } else if NoneFits(size, low, high, 8) && FirstFit(size, low, high, 4, order) {
      FirstIsSmallest(k, size, 4, order);
    } else {
      FirstIsSmallest(k, size, 2, order);
    }
  }

  /** What the answer means: an order in bounds that has enough objects and, among those, wastes least at the least size;
      for objects so small that every such order has too many, the largest order that does not. */
  lemma OrderMeans(k: Config, size: nat, r: int)
    requires 1 <= size < WORD && k.minOrder <= k.maxOrder && k.minObjects < WORD && size <= PAGE_SIZE * Pow2(k.maxOrder)
    requires r >= 0
    requires if OrderObjects(StartOrder(k, size), size) <= MAX_OBJS_PER_PAGE then LeastWaste(size, StartOrder(k, size), k.maxOrder, r)
             else OrderObjects(r, size) < MAX_OBJS_PER_PAGE <= OrderObjects(r + 1, size)
    ensures k.maxOrder <= 19 ==>
      if Countable(k, size) then Smallest(k, size, r)
      else OrderObjects(r, size) < MAX_OBJS_PER_PAGE <= OrderObjects(r + 1, size)
    ensures k.maxOrder >= 20 ==>
      var low := if k.minOrder > GetOrder(size) then k.minOrder else GetOrder(size);
      if OrderObjects(low, size) <= MAX_OBJS_PER_PAGE then LeastWaste(size, low, k.maxOrder, r)
      else OrderObjects(r, size) < MAX_OBJS_PER_PAGE <= OrderObjects(r + 1, size)
  {
    hide Pow2, GetOrder, SlabSize, OrderObjects, StartOrder, Enough, LeastWaste, Smallest, Countable;
    if k.maxOrder >= 20 {
      StartHolds(k, size);
    } else {
      StartCounts(k, size);
      if OrderObjects(StartOrder(k, size), size) <= MAX_OBJS_PER_PAGE { LeastIsSmallest(k, size, r); }
    }
  }

  /** calculate_order.  A shift by 32 or more is not defined in C. */
  method CalculateOrder(k: Config, size: nat) returns (r: int)
    requires 1 <= size < WORD && k.minOrder <= k.maxOrder <= 31 && k.minObjects < WORD
    ensures r < 0 <==> size > PAGE_SIZE * Pow2(k.maxOrder) && size > PAGE_SIZE * Pow2(MAX_PAGE_ORDER)
    ensures r < 0 ==> r == -ENOSYS
    ensures r >= 0 ==> (1 <= OrderObjects(r, size) <= MAX_OBJS_PER_PAGE <==> Workable(k, size))
    ensures r >= 0 && !Workable(k, size) ==> 20 <= r <= k.maxOrder && OrderObjects(r, size) == 0
    ensures r >= 0 && Workable(k, size) ==> r <= 19
    ensures size <= PAGE_SIZE * Pow2(k.maxOrder) ==> r <= k.maxOrder
    ensures size <= PAGE_SIZE * Pow2(k.maxOrder) && OrderObjects(StartOrder(k, size), size) <= MAX_OBJS_PER_PAGE ==>
      r >= 0 && LeastWaste(size, StartOrder(k, size), k.maxOrder, r)
    ensures OrderObjects(StartOrder(k, size), size) > MAX_OBJS_PER_PAGE ==>
      r >= 0 && OrderObjects(r, size) < MAX_OBJS_PER_PAGE <= OrderObjects(r + 1, size)
    ensures k.maxOrder <= 19 && size <= PAGE_SIZE * Pow2(k.maxOrder) ==>
      && r >= 0
      && if Countable(k, size) then Smallest(k, size, r)
         else OrderObjects(r, size) < MAX_OBJS_PER_PAGE <= OrderObjects(r + 1, size)
    ensures k.maxOrder >= 20 ==>
      var low := if k.minOrder > GetOrder(size) then k.minOrder else GetOrder(size);
      && r >= 0
      && if OrderObjects(low, size) <= MAX_OBJS_PER_PAGE then LeastWaste(size, low, k.maxOrder, r)
         else OrderObjects(r, size) < MAX_OBJS_PER_PAGE <= OrderObjects(r + 1, size)
  {
    hide Pow2, SlabSize, OrderObjects, GetOrder, MinObjects, Fits, FirstFit, Workable, Countable, Smallest;
    var minObjects := MinObjects(k);
    var maxObjects := OrderObjects(k.maxOrder, size);
    if maxObjects < 1 { maxObjects := 1; }
    if maxObjects < minObjects { minObjects := maxObjects; }
    var minOrder := GetOrder(minObjects * size % WORD);
    if minOrder < k.minOrder { minOrder := k.minOrder; }
    StartHolds(k, size);
    if OrderObjects(minOrder, size) > MAX_OBJS_PER_PAGE {
      r := GetOrder(size * MAX_OBJS_PER_PAGE % WORD) - 1;
      TooManyObjects(k, size);
      OrderMeans(k, size, r);
      return;
    }
    var fraction := 16;
    while fraction > 1
      invariant fraction == 16 || fraction == 8 || fraction == 4 || fraction == 2 || fraction == 1
      invariant fraction < 16 ==> NoneFits(size, minOrder, k.maxOrder, 2 * fraction)
    {
      var order := CalcSlabOrder(size, minOrder, k.maxOrder, fraction);
      if order <= k.maxOrder {
        FewEnough(k, size, order, fraction);
        OrderMeans(k, size, order);
        return order;
      }
      fraction := fraction / 2;
    }
    NothingFits(k, size);
    var order := GetOrder(size);
    OneObject(k, size);
    if order <= MAX_PAGE_ORDER {
      return order;
    }
    return -ENOSYS;
  }

  /** The search begins at an order that holds an object, if sizes do not wrap there, and within bounds if an object
      fits at all. */
  lemma StartHolds(k: Config, size: nat)
    requires 1 <= size < WORD && k.minOrder <= k.maxOrder && k.minObjects < WORD
    ensures var s := StartOrder(k, size);
      && (size <= PAGE_SIZE * Pow2(k.maxOrder) <==> s <= k.maxOrder)
      && size <= PAGE_SIZE * Pow2(s)
      && (k.maxOrder >= 20 ==> s == if k.minOrder > GetOrder(size) then k.minOrder else GetOrder(size))
  {
    hide Pow2, GetOrder, SlabSize, OrderObjects, Wanted;
    var top, wanted := SlabSize(k.maxOrder), Wanted(k, size);
    WantedBounds(k, size);
    OrderBound(size);
    if k.maxOrder >= 20 { Wrapped(k.maxOrder); } else { NoWrap(k.maxOrder); }
    if size <= top {
      ModUnique(wanted * size, WORD, 0, wanted * size);
      PowMonotone(GetOrder(wanted * size), StartOrder(k, size));
    } else {
      Same(wanted, size);
      PowMonotone(GetOrder(size), StartOrder(k, size));
      if StartOrder(k, size) <= k.maxOrder { PowMonotone(StartOrder(k, size), k.maxOrder); }
    }
  }

  lemma WantedBounds(k: Config, size: nat)
    requires size >= 1
    ensures if size <= SlabSize(k.maxOrder) then size <= Wanted(k, size) * size <= SlabSize(k.maxOrder) else Wanted(k, size) == 1
  {
    hide Pow2, SlabSize, MinObjects;
    var top := SlabSize(k.maxOrder);
    DivBounds(top, size);
    if size <= top { WantedFits(top, top / size, Wanted(k, size), size); }
  }

  lemma DivBounds(s: nat, m: nat)
    requires m >= 1
    ensures (s / m) * m <= s < (s / m) * m + m
    ensures s / m >= 1 <==> m <= s
  {
    Split(s, m);
    Far(s / m, m);
  }

  lemma WantedFits(top: nat, most: nat, wanted: nat, size: nat)
    requires 1 <= wanted <= most && most * size <= top
    ensures size <= wanted * size <= top
  {
    Distribute(most, wanted, size);
    Far(most - wanted, size);
    Far(wanted, size);
  }

  /** The number of objects in a slab of S bytes is above n exactly if (n + 1) * size <= S. */
  lemma Holds(s: nat, size: nat, n: nat)
    requires size >= 1
    ensures s / size > n <==> (n + 1) * size <= s
  {
    DivBounds(s, size);
    Distribute(s / size, n + 1, size);
    Far(s / size - (n + 1), size);
  }

  lemma HoldsMore(order: nat, size: nat, n: nat)
    requires size >= 1
    ensures OrderObjects(order, size) > n <==> (n + 1) * size <= SlabSize(order)
  {
    Holds(SlabSize(order), size, n);
  }

  /** The special case for very small objects. */
  lemma TooManyObjects(k: Config, size: nat)
    requires 1 <= size < WORD && k.minOrder <= k.maxOrder && k.minObjects < WORD
    requires OrderObjects(StartOrder(k, size), size) > MAX_OBJS_PER_PAGE
    ensures var r := GetOrder(size * MAX_OBJS_PER_PAGE % WORD) - 1;
      && 0 <= r <= k.maxOrder && r <= 19 && 1 <= OrderObjects(r, size)
      && size <= PAGE_SIZE * Pow2(k.maxOrder) && Workable(k, size)
      && OrderObjects(r, size) < MAX_OBJS_PER_PAGE <= OrderObjects(r + 1, size)
  {
    hide Pow2, GetOrder, SlabSize, OrderObjects, StartOrder, Fits;
    var start := StartOrder(k, size);
    StartHolds(k, size);
    StartsLow(k, size);
    HoldsMore(start, size, MAX_OBJS_PER_PAGE);
    NoWrap(start);
    var n := size * MAX_OBJS_PER_PAGE;
    ModUnique(n, WORD, 0, n);
    var o := LargestCountable(size, start);
    NoWrap(19);
    PowMonotone(start, 19);
    ManyFit(size, 19, 16);
  }

  /** The least order with MAX_OBJS_PER_PAGE objects or more is not 0, and the one below has fewer. */
  lemma LargestCountable(size: nat, start: nat) returns (o: nat)
    requires size >= 1 && start <= 19 && size * MAX_OBJS_PER_PAGE <= PAGE_SIZE * Pow2(start)
    ensures o == GetOrder(size * MAX_OBJS_PER_PAGE) && 1 <= o <= start
    ensures 1 <= OrderObjects(o - 1, size) < MAX_OBJS_PER_PAGE <= OrderObjects(o, size)
  {
    hide Pow2, GetOrder, SlabSize, OrderObjects;
    var n := size * MAX_OBJS_PER_PAGE;
    o := GetOrder(n);
    assert PAGE_SIZE * Pow2(0) < n by { PowZero(); }
    assert 1 <= o <= start;
    PowStep(o);
    NoWrap(o - 1);
    HoldsMore(o - 1, size, 0);
    HoldsMore(o - 1, size, MAX_OBJS_PER_PAGE - 1);
    NoWrap(o);
    HoldsMore(o, size, MAX_OBJS_PER_PAGE - 1);
  }

  /** A search that begins with two objects or more begins within bounds and where sizes do not wrap. */
  lemma StartsLow(k: Config, size: nat)
    requires 1 <= size < WORD && k.minOrder <= k.maxOrder && k.minObjects < WORD
    requires OrderObjects(StartOrder(k, size), size) > 1
    ensures k.minOrder <= StartOrder(k, size) <= k.maxOrder && StartOrder(k, size) <= 19
  {
    hide Pow2, GetOrder, SlabSize, OrderObjects, StartOrder, Fits;
    var start := StartOrder(k, size);
    StartHolds(k, size);
    StartMin(k, size);
    if start >= 20 { WrappedFits(size, start, 16); }
    if start > k.maxOrder { LateStart(k, size); }
  }

  lemma StartMin(k: Config, size: nat)
    requires size >= 1
    ensures StartOrder(k, size) >= k.minOrder
  {
  }

  lemma PowZero()
    ensures Pow2(0) == 1
  {
  }

  /** If one object does not fit the largest configured slab, the start is the least order that holds it,
      and that order does not hold two. */
  lemma LateStart(k: Config, size: nat)
    requires 1 <= size < WORD && k.minOrder <= k.maxOrder && size > PAGE_SIZE * Pow2(k.maxOrder)
    ensures k.maxOrder <= 19 && OrderObjects(StartOrder(k, size), size) <= 1 && StartOrder(k, size) == GetOrder(size)
    ensures GetOrder(size) <= 19 ==> OrderObjects(GetOrder(size), size) == 1
  {
    hide Pow2, GetOrder, SlabSize, OrderObjects, StartOrder;
    LateStartOrder(k, size);
    var o := GetOrder(size);
    PowStep(o);
    HoldsMore(o, size, 1);
    HoldsMore(o, size, 0);
    if o <= 19 { NoWrap(o); } else { Wrapped(o); }
  }

  lemma LateStartOrder(k: Config, size: nat)
    requires 1 <= size < WORD && k.minOrder <= k.maxOrder && size > PAGE_SIZE * Pow2(k.maxOrder)
    ensures StartOrder(k, size) == GetOrder(size) > k.maxOrder && k.maxOrder <= 19
  {
    hide Pow2, GetOrder, SlabSize, OrderObjects, Wanted;
    if k.maxOrder >= 20 { Wrapped(k.maxOrder); }
    NoWrap(k.maxOrder);
    WantedBounds(k, size);
    Same(Wanted(k, size), size);
    if GetOrder(size) <= k.maxOrder { PowMonotone(GetOrder(size), k.maxOrder); }
  }

  lemma Same(wanted: nat, size: nat)
    requires wanted == 1 && size < WORD
    ensures wanted * size % WORD == size
  {
  }

  /** An order that the search finds holds at least one object and not too many, unless its size wraps. */
  lemma FewEnough(k: Config, size: nat, order: nat, fraction: nat)
    requires 1 <= size < WORD && k.minOrder <= k.maxOrder && k.minObjects < WORD
    requires fraction == 16 || fraction == 8 || fraction == 4 || fraction == 2
    requires order <= k.maxOrder && FirstFit(size, StartOrder(k, size), k.maxOrder, fraction, order)
    requires fraction < 16 ==> NoneFits(size, StartOrder(k, size), k.maxOrder, 2 * fraction)
    requires OrderObjects(StartOrder(k, size), size) <= MAX_OBJS_PER_PAGE
    ensures order <= 19 ==> 1 <= OrderObjects(order, size) <= MAX_OBJS_PER_PAGE
    ensures order >= 20 ==> OrderObjects(order, size) == 0
    ensures order <= 19 <==> Workable(k, size)
    ensures size <= PAGE_SIZE * Pow2(k.maxOrder)
  {
    hide Pow2, GetOrder, SlabSize, OrderObjects, StartOrder, Fits;
    StartHolds(k, size);
    if order <= 19 { FoundHolds(k, size, order, fraction); } else { WrappedFits(size, order, fraction); }
    if k.maxOrder >= 20 { StopsAt(k, size, order, fraction); }
  }

  lemma FoundHolds(k: Config, size: nat, order: nat, fraction: nat)
    requires 1 <= size < WORD && k.minOrder <= k.maxOrder && k.minObjects < WORD
    requires fraction == 16 || fraction == 8 || fraction == 4 || fraction == 2
    requires order <= 19 && order <= k.maxOrder && FirstFit(size, StartOrder(k, size), k.maxOrder, fraction, order)
    requires OrderObjects(StartOrder(k, size), size) <= MAX_OBJS_PER_PAGE
    ensures 1 <= OrderObjects(order, size) <= MAX_OBJS_PER_PAGE
  {
    hide Pow2, GetOrder, SlabSize, OrderObjects, StartOrder, Fits;
    var start := StartOrder(k, size);
    StartHolds(k, size);
    NoWrap(order);
    PowMonotone(start, order);
    HoldsMore(order, size, 0);
    HoldsMore(order, size, MAX_OBJS_PER_PAGE);
    if order > start && OrderObjects(order, size) > MAX_OBJS_PER_PAGE {
      NoWrap(order - 1);
      PowStep(order);
      ManyFit(size, order - 1, fraction);
    }
  }

  /** Where sizes may wrap, the first search succeeds, at order 20 at the latest if it begins below. */
  lemma StopsAt(k: Config, size: nat, order: nat, fraction: nat)
    requires 1 <= size < WORD && k.minOrder <= k.maxOrder && k.minObjects < WORD && k.maxOrder >= 20
    requires fraction == 16 || fraction == 8 || fraction == 4 || fraction == 2
    requires order <= k.maxOrder && FirstFit(size, StartOrder(k, size), k.maxOrder, fraction, order)
    requires fraction < 16 ==> NoneFits(size, StartOrder(k, size), k.maxOrder, 2 * fraction)
    ensures order <= 19 <==> Workable(k, size)
  {
    hide Pow2, GetOrder, SlabSize, OrderObjects, StartOrder, Fits;
    var start := StartOrder(k, size);
    StartHolds(k, size);
    Wrapped(k.maxOrder);
    WrappedFits(size, k.maxOrder, 2 * fraction);
    assert start <= k.maxOrder && fraction == 16;
    if order <= 19 {
      PowMonotone(start, 19);
      FitsUpward(size, order, 19, 16);
    } else if start <= 19 {
      assert !Fits(size, 19, 16);
    } else {
      NoWrap(19);
      assert k.minOrder >= 20 || size > PAGE_SIZE * Pow2(19);
    }
  }

  lemma NothingFits(k: Config, size: nat)
    requires 1 <= size < WORD && k.minOrder <= k.maxOrder && k.minObjects < WORD
    requires NoneFits(size, StartOrder(k, size), k.maxOrder, 2)
    ensures size > PAGE_SIZE * Pow2(k.maxOrder) && k.maxOrder <= 19
  {
    hide Pow2, GetOrder, SlabSize, StartOrder, Fits;
    StartHolds(k, size);
    if k.maxOrder >= 20 {
      Wrapped(k.maxOrder);
      WrappedFits(size, k.maxOrder, 2);
    } else if size <= PAGE_SIZE * Pow2(k.maxOrder) {
      NoWrap(StartOrder(k, size));
      HalfAlwaysFits(size, StartOrder(k, size));
    }
  }

  lemma OneObject(k: Config, size: nat)
    requires 1 <= size < WORD && k.minOrder <= k.maxOrder && size > PAGE_SIZE * Pow2(k.maxOrder)
    ensures GetOrder(size) <= MAX_PAGE_ORDER <==> size <= PAGE_SIZE * Pow2(MAX_PAGE_ORDER)
    ensures GetOrder(size) <= MAX_PAGE_ORDER ==> OrderObjects(GetOrder(size), size) == 1
    ensures Workable(k, size)
  {
    LateStart(k, size);
    if GetOrder(size) <= MAX_PAGE_ORDER { PowMonotone(GetOrder(size), MAX_PAGE_ORDER); }
  }

  /** What calculate_order answers with orders from 20 on configured: an order whose slab holds no object, if the search
      begins there, or if nothing below is good enough; a good one, if something is. */
  method OrderTwentyIsEmpty(minObjects: nat, cpus: nat) returns (forced: int, reached: int, avoided: int)
    requires minObjects < WORD
    ensures forced == 20 && OrderObjects(20, 8) == 0
    ensures reached == 20 && OrderObjects(20, 1000000007) == 0
    ensures avoided == 0 && OrderObjects(0, 8) == 512
  {
    hide Pow2, SlabSize, GetOrder, StartOrder, LeastWaste, Fits;
    AtNineteen();
    AtZero();
    BeginsAtZero(minObjects, cpus);
    Wrapped(20);
    WrappedFits(8, 20, 16);
    WrappedFits(1000000007, 20, 16);
    forced := CalculateOrder(Config(20, 20, minObjects, cpus), 8);
    reached := CalculateOrder(Config(0, 20, minObjects, cpus), 1000000007);
    avoided := CalculateOrder(Config(0, 20, minObjects, cpus), 8);
    FirstIsBest(8, 0, 20, avoided);
  }

  lemma AtNineteen()
    ensures SlabSize(19) == 0x8000_0000 && Fits(8, 19, 16) && !Fits(1000000007, 19, 16)
  {
    NoWrap(19);
    PowNineteen();
  }

  lemma AtZero()
    ensures SlabSize(0) == PAGE_SIZE && OrderObjects(0, 8) == 512 && Fits(8, 0, 16)
  {
  }

  lemma BeginsAtZero(minObjects: nat, cpus: nat)
    requires minObjects < WORD
    ensures StartOrder(Config(0, 20, minObjects, cpus), 8) == 0
  {
    hide Pow2, SlabSize, StartOrder;
    StartHolds(Config(0, 20, minObjects, cpus), 8);
    assert GetOrder(8) == 0;
  }

  /** If the first order of the search wastes at most a sixteenth, that is the answer. */
  lemma FirstIsBest(size: nat, low: nat, high: nat, order: nat)
    requires size >= 1 && low <= high && Fits(size, low, 16) && LeastWaste(size, low, high, order)
    ensures order == low
  {
    hide Fits;
    FractionGrows(size, low, 16, 8);
    FractionGrows(size, low, 16, 4);
  }

  lemma FractionGrows(size: nat, order: nat, f: nat, g: nat)
    requires size >= 1 && f >= g >= 1 && Fits(size, order, f)
    ensures Fits(size, order, g)
  {
    hide SlabSize;
    var s := SlabSize(order);
    DivBounds(s, f);
    DivBounds(s, g);
    Distribute(f, g, s / f);
    Far(f - g, s / f);
    Swapped(f, s / f);
    Swapped(g, s / f);
    Distribute(s / f, s / g, g);
    Far(s / f - s / g, g);
  }

  lemma Swapped(a: int, b: int)
    ensures a * b == b * a
  {
  }

  // ---- packed order and object count ----

  /** oo_make */
  function OoMake(order: nat, size: nat): nat
    requires size >= 1
  {
    (order * OO_SHIFT_FACTOR + OrderObjects(order, size)) % WORD
  }

  function OoOrder(x: nat): nat
  {
    x / OO_SHIFT_FACTOR
  }

  function OoObjects(x: nat): nat
  {
    x % OO_SHIFT_FACTOR
  }

  /** Whatever calculate_order returns can be packed and unpacked, and the fallback cache->min never
      holds more objects than cache->oo. */
  lemma OoRoundTrip(order: nat, size: nat)
    requires 1 <= size && order <= 19 && 1 <= OrderObjects(order, size) <= MAX_OBJS_PER_PAGE
    ensures OoOrder(OoMake(order, size)) == order && OoObjects(OoMake(order, size)) == OrderObjects(order, size)
    ensures GetOrder(size) <= order
    ensures OoOrder(OoMake(GetOrder(size), size)) == GetOrder(size)
    ensures 1 <= OoObjects(OoMake(GetOrder(size), size)) <= OoObjects(OoMake(order, size))
  {
    hide Pow2, SlabSize, OrderObjects, GetOrder, OoMake, OoOrder, OoObjects;
    var o := GetOrder(size);
    NoWrap(order);
    HoldsMore(order, size, 0);
    assert o <= order;
    NoWrap(o);
    PowMonotone(o, order);
    HoldsMore(o, size, 0);
    ObjectsMonotone(o, order, size);
    Packed(order, size);
    Packed(o, size);
  }

  lemma ObjectsMonotone(o: nat, order: nat, size: nat)
    requires size >= 1 && SlabSize(o) <= SlabSize(order)
    ensures OrderObjects(o, size) <= OrderObjects(order, size)
  {
    hide SlabSize;
    DivMonotone(SlabSize(o), SlabSize(order), size);
  }

  lemma Packed(order: nat, size: nat)
    requires size >= 1 && order <= 31 && OrderObjects(order, size) < OO_SHIFT_FACTOR
    ensures OoOrder(OoMake(order, size)) == order && OoObjects(OoMake(order, size)) == OrderObjects(order, size)
  {
    hide OrderObjects;
  }

  lemma DivMonotone(a: nat, b: nat, m: nat)
    requires m >= 1 && a <= b
    ensures a / m <= b / m
  {
    DivBounds(a, m);
    Holds(b, m, a / m - 1 + (if a / m == 0 then 1 else 0));
  }
}
