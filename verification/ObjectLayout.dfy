/** calculate_sizes: where an object's free pointer, red zones and debug records lie.  KASAN is off and no free
    pointer offset is prescribed. */
module ObjectLayout {
  import opened Powers
  import opened SlabOrder

  const PTR_BYTES: nat := 8
  const UINT: nat := 4

  /** ALIGN */
  function AlignUp(x: nat, a: nat): (r: nat)
    requires a >= 1
    ensures x <= r < x + a && r % a == 0
  {
    var q := (x + a - 1) / a;
    Split(x + a - 1, a);
    ModUnique(q * a, a, q, 0);
    q * a
  }

  /** ALIGN_DOWN */
  function AlignDown(x: nat, a: nat): (r: nat)
    requires a >= 1
    ensures r <= x < r + a && r % a == 0
  {
    var q := x / a;
    Split(x, a);
    ModUnique(q * a, a, q, 0);
    q * a
  }

  /** SLAB_RED_ZONE, SLAB_POISON, SLAB_STORE_USER, SLAB_TYPESAFE_BY_RCU, SLAB_KMALLOC, and a constructor. */
  datatype Flags = Flags(redZone: bool, poison: bool, storeUser: bool, rcu: bool, kmalloc: bool, ctor: bool)

  /** Bytes from `start` up to but not including `end`, relative to the object. */
  datatype Region = Region(start: nat, end: nat)

  predicate Disjoint(a: Region, b: Region)
  {
    a.end <= b.start || b.end <= a.start || a.start >= a.end || b.start >= b.end
  }

  predicate Within(a: Region, b: Region)
  {
    b.start <= a.start && a.end <= b.end
  }

  /** What a cache is created with. */
  datatype Spec = Spec(objectSize: nat, align: nat, flags: Flags, trackSize: nat)

  /** What calculate_sizes finds out. */
  datatype Layout = Layout(inuse: nat, offset: nat, size: nat, redLeftPad: nat)

  /** slub_debug_orig_size */
  predicate KeepsOrigSize(c: Spec)
  {
    c.flags.storeUser && c.flags.kmalloc
  }

  /** The free pointer may not be inside the object. */
  predicate Relocated(c: Spec)
  {
    c.flags.rcu || c.flags.poison || c.flags.ctor || (c.flags.redZone && (c.objectSize < PTR_BYTES || KeepsOrigSize(c)))
  }

  /** freeptr_outside_object */
  predicate FreeptrOutside(l: Layout)
  {
    l.offset >= l.inuse
  }

  /** get_info_end */
  function InfoEnd(l: Layout): nat
  {
    if FreeptrOutside(l) then l.inuse + PTR_BYTES else l.inuse
  }

  function Object(c: Spec): Region
  {
    Region(0, c.objectSize)
  }

  function RightRedZone(c: Spec, l: Layout): Region
  {
    if c.flags.redZone then Region(c.objectSize, l.inuse) else Region(l.inuse, l.inuse)
  }

  function FreePointer(l: Layout): Region
  {
    Region(l.offset, l.offset + PTR_BYTES)
  }

  function Tracks(c: Spec, l: Layout): Region
  {
    Region(InfoEnd(l), if c.flags.storeUser then InfoEnd(l) + 2 * c.trackSize else InfoEnd(l))
  }

  function OrigSize(c: Spec, l: Layout): Region
  {
    Region(Tracks(c, l).end, if KeepsOrigSize(c) then Tracks(c, l).end + UINT else Tracks(c, l).end)
  }

  /** What is left of the slot after the left red zone of the next object: size_from_object. */
  function Slot(l: Layout): Region
  {
    Region(0, if l.redLeftPad <= l.size then l.size - l.redLeftPad else 0)
  }

  /** The padding that a red-zoned slot has at its end. */
  function Pad(c: Spec): nat
  {
    if c.flags.redZone then PTR_BYTES else 0
  }

  /** Everything is inside the slot. */
  ghost predicate Inside(c: Spec, l: Layout)
  {
    && Within(Object(c), Slot(l)) && Within(RightRedZone(c, l), Slot(l)) && Within(FreePointer(l), Slot(l))
    && Within(Tracks(c, l), Slot(l)) && Within(OrigSize(c, l), Slot(l))
  }

  /** Nothing lies on what it must not overwrite; only a free pointer that need not be relocated is inside the object. */
  ghost predicate Apart(c: Spec, l: Layout)
  {
    && Disjoint(Object(c), RightRedZone(c, l)) && Disjoint(FreePointer(l), RightRedZone(c, l))
    && Disjoint(Tracks(c, l), Object(c)) && Disjoint(Tracks(c, l), RightRedZone(c, l)) && Disjoint(Tracks(c, l), FreePointer(l))
    && Disjoint(OrigSize(c, l), Object(c)) && Disjoint(OrigSize(c, l), RightRedZone(c, l)) && Disjoint(OrigSize(c, l), FreePointer(l))
    && Disjoint(OrigSize(c, l), Tracks(c, l))
    && (Relocated(c) ==> Disjoint(FreePointer(l), Object(c)))
    && (c.flags.redZone ==> RightRedZone(c, l).start < RightRedZone(c, l).end)
  }

  /** Slots follow each other without breaking the alignment. */
  ghost predicate Aligned(c: Spec, l: Layout)
    requires c.align >= 1
  {
    && l.size % c.align == 0 && l.redLeftPad % c.align == 0 && l.offset % PTR_BYTES == 0
    && (if c.flags.redZone then PTR_BYTES <= l.redLeftPad < PTR_BYTES + c.align else l.redLeftPad == 0)
  }

  /** They are no larger than they need be. */
  ghost predicate Snug(c: Spec, l: Layout)
  {
    OrigSize(c, l).end + l.redLeftPad + Pad(c) <= l.size < OrigSize(c, l).end + l.redLeftPad + Pad(c) + c.align
  }

  /** An object of no bytes whose free pointer would be inside it: there is no inside, so the offset is not below
      `inuse`, and the free pointer passes for relocated although no room was made for it. */
  predicate Misjudged(c: Spec)
  {
    c.objectSize == 0 && !c.flags.redZone && !Relocated(c)
  }

  /** The bytes of the debug records. */
  function RecordBytes(c: Spec): nat
  {
    (if c.flags.storeUser then 2 * c.trackSize else 0) + (if KeepsOrigSize(c) then UINT else 0)
  }

  /** Nothing at all is to be stored. */
  predicate Void(c: Spec)
  {
    Misjudged(c) && RecordBytes(c) == 0
  }

  /** What the choice of `inuse` and free pointer offset comes to. */
  predicate Placed(c: Spec, inuse: nat, offset: nat)
  {
    && c.objectSize <= inuse <= c.objectSize + PTR_BYTES && inuse % PTR_BYTES == 0 && offset % PTR_BYTES == 0
    && (if c.flags.redZone then c.objectSize < inuse else inuse < c.objectSize + PTR_BYTES)
    && (if Relocated(c) then offset == inuse else offset <= c.objectSize / 2 < offset + PTR_BYTES)
  }

  /** freeptr_outside_object tells whether the free pointer was relocated, exactly if the object is not misjudged. */
  lemma OutsideTest(c: Spec, l: Layout)
    requires Placed(c, l.inuse, l.offset)
    ensures (FreeptrOutside(l) <==> Relocated(c)) <==> !Misjudged(c)
  {
    if Misjudged(c) {
      assert l.inuse == 0;
    }
  }

  /** The free pointer follows the object and its right red zone and overwrites neither. */
  predicate PointerBehind(c: Spec, l: Layout)
  {
    c.objectSize <= l.inuse == l.offset && Disjoint(FreePointer(l), Object(c)) && Disjoint(FreePointer(l), RightRedZone(c, l))
  }

  /** The free pointer is the word around the middle of the object; if the object has a byte, the word is in use. */
  predicate PointerInMiddle(c: Spec, l: Layout)
  {
    && l.offset % 8 == 0 && l.offset <= c.objectSize / 2 < l.offset + 8
    && (c.objectSize > 0 ==> l.offset + 8 <= l.inuse)
  }

  /** The flags and the size alone decide where the free pointer is. */
  lemma PointerFollowsFlags(c: Spec, l: Layout)
    requires Placed(c, l.inuse, l.offset)
    ensures c.flags.rcu || c.flags.poison || c.flags.ctor ==> PointerBehind(c, l)
    ensures c.flags.redZone && c.flags.storeUser && c.flags.kmalloc ==> PointerBehind(c, l)
    ensures c.flags.redZone && c.objectSize < 8 ==> PointerBehind(c, l)
    ensures !c.flags.rcu && !c.flags.poison && !c.flags.ctor && !c.flags.redZone ==> PointerInMiddle(c, l)
    ensures !c.flags.rcu && !c.flags.poison && !c.flags.ctor && c.objectSize >= 8 && !(c.flags.storeUser && c.flags.kmalloc) ==>
      PointerInMiddle(c, l)
  {
    OutsideTest(c, l);
  }

  /** The first part of calculate_sizes: the distribution of data within a slot, for every object size. */
  method LayOut(c: Spec) returns (l: Layout)
    requires c.align >= 1
    ensures Placed(c, l.inuse, l.offset) && Aligned(c, l)
    ensures (FreeptrOutside(l) <==> Relocated(c)) <==> !Misjudged(c)
    ensures Inside(c, l) && Apart(c, l) && Snug(c, l) && (FreeptrOutside(l) <==> Relocated(c)) <==> !Misjudged(c)
    ensures Misjudged(c) ==>
      RecordBytes(c) <= l.size < RecordBytes(c) + c.align && (Inside(c, l) <==> PTR_BYTES + RecordBytes(c) <= l.size)
    ensures c.flags.rcu || c.flags.poison || c.flags.ctor ==> PointerBehind(c, l)
    ensures c.flags.redZone && c.flags.storeUser && c.flags.kmalloc ==> PointerBehind(c, l)
    ensures c.flags.redZone && c.objectSize < 8 ==> PointerBehind(c, l)
    ensures !c.flags.rcu && !c.flags.poison && !c.flags.ctor && !c.flags.redZone ==> PointerInMiddle(c, l)
    ensures !c.flags.rcu && !c.flags.poison && !c.flags.ctor && c.objectSize >= 8 && !(c.flags.storeUser && c.flags.kmalloc) ==>
      PointerInMiddle(c, l)
    ensures c.flags.redZone ==> c.objectSize < l.inuse && l.redLeftPad >= 8 && OrigSize(c, l).end + 8 + l.redLeftPad <= l.size
    ensures l.size == 0 <==> Void(c)
    ensures l.size <= c.objectSize + 2 * c.trackSize + 2 * c.align + 48
  {
    hide AlignUp, Inside, Apart, Relocated, KeepsOrigSize, PointerBehind, PointerInMiddle;
    var inuse, offset, size := PlaceRecords(c);
    var redLeftPad := 0;
    if c.flags.redZone {
      size := size + PTR_BYTES;
      redLeftPad := AlignUp(PTR_BYTES, c.align);
      size := size + redLeftPad;
    } else {
      ModUnique(0, c.align, 0, 0);
    }
    l := Layout(inuse, offset, AlignUp(size, c.align), redLeftPad);
    OutsideTest(c, l);
    PointerFollowsFlags(c, l);
    if Misjudged(c) {
      NoInside(c, l);
    } else {
      LaidOut(c, l);
    }
    if size == 0 { NothingAligned(c.align); }
  }

  lemma NothingAligned(a: nat)
    requires a >= 1
    ensures AlignUp(0, a) == 0
  {
    ModUnique(a - 1, a, 0, a - 1);
  }

  /** The object, the free pointer and the debug records; `size` is where they end. */
  method PlaceRecords(c: Spec) returns (inuse: nat, offset: nat, size: nat)
    ensures Placed(c, inuse, offset)
    ensures size == inuse + (if Relocated(c) then PTR_BYTES else 0) + RecordBytes(c)
  {
    hide AlignUp, AlignDown;
    size := AlignUp(c.objectSize, PTR_BYTES);
    if c.flags.redZone && size == c.objectSize { size := size + PTR_BYTES; }
    inuse := size;
    if c.flags.rcu || c.flags.poison || c.flags.ctor || (c.flags.redZone && (c.objectSize < PTR_BYTES || KeepsOrigSize(c))) {
      offset := size;
      size := size + PTR_BYTES;
    } else {
      offset := AlignDown(c.objectSize / 2, PTR_BYTES);
    }
    if c.flags.storeUser {
      size := size + 2 * c.trackSize;
      if c.flags.kmalloc { size := size + UINT; }
    }
  }

  /** Where the records end. */
  lemma RecordsEnd(c: Spec, l: Layout)
    ensures OrigSize(c, l).end == InfoEnd(l) + RecordBytes(c)
  {
  }

  lemma LaidOut(c: Spec, l: Layout)
    requires c.align >= 1 && Placed(c, l.inuse, l.offset) && Aligned(c, l) && !Misjudged(c)
    requires var end := l.inuse + (if Relocated(c) then PTR_BYTES else 0) + RecordBytes(c) + l.redLeftPad + Pad(c);
      end <= l.size < end + c.align
    ensures Inside(c, l) && Apart(c, l) && Snug(c, l)
  {
    hide Relocated, KeepsOrigSize, RecordBytes, OrigSize, Placed, Inside, Apart, Misjudged;
    OutsideTest(c, l);
    RecordsEnd(c, l);
    PlacedInside(c, l);
    PlacedApart(c, l);
  }

  /** Where the free pointer lies: behind what is in use, or inside the object and before any red zone. */
  lemma PointerPlace(c: Spec, l: Layout)
    requires Placed(c, l.inuse, l.offset) && !Misjudged(c)
    ensures c.objectSize <= l.inuse && (c.flags.redZone ==> c.objectSize < l.inuse)
    ensures if Relocated(c) then l.offset == l.inuse && InfoEnd(l) == l.inuse + PTR_BYTES
            else l.offset + PTR_BYTES <= l.inuse == InfoEnd(l) && (c.flags.redZone ==> l.offset + PTR_BYTES <= c.objectSize)
  {
    OutsideTest(c, l);
  }

  lemma PlacedInside(c: Spec, l: Layout)
    requires Placed(c, l.inuse, l.offset) && !Misjudged(c) && OrigSize(c, l).end + l.redLeftPad <= l.size
    ensures Inside(c, l)
  {
    hide Relocated, KeepsOrigSize, Placed, Misjudged;
    PointerPlace(c, l);
    RecordsFollow(c, l);
  }

  lemma PlacedApart(c: Spec, l: Layout)
    requires Placed(c, l.inuse, l.offset) && !Misjudged(c)
    ensures Apart(c, l)
  {
    hide Relocated, KeepsOrigSize, Placed, Misjudged, Tracks, OrigSize, InfoEnd;
    PointerPlace(c, l);
    RecordsFollow(c, l);
  }

  /** The records follow one another from the end of the object and its free pointer on. */
  lemma RecordsFollow(c: Spec, l: Layout)
    ensures Tracks(c, l).start == InfoEnd(l) <= Tracks(c, l).end == OrigSize(c, l).start <= OrigSize(c, l).end
  {
  }

  /** A misjudged free pointer pushes the records up by its own size. */
  lemma NoInside(c: Spec, l: Layout)
    requires c.align >= 1 && Placed(c, l.inuse, l.offset) && Aligned(c, l) && Misjudged(c)
    ensures l.inuse == 0 && (Inside(c, l) <==> PTR_BYTES + RecordBytes(c) <= l.size)
  {
    OutsideTest(c, l);
    RecordsEnd(c, l);
  }

  /** An object of size 0: without flags its slot is empty and has no room for the free pointer, although the test says
      it was relocated; with a constructor, which does relocate the free pointer, everything is in place. */
  method SizeZero() returns (plain: Layout, constructed: Layout)
    ensures var c := Spec(0, 8, Flags(false, false, false, false, false, false), 24);
      FreeptrOutside(plain) && !Relocated(c) && plain.size == 0 && !Inside(c, plain)
    ensures var c := Spec(0, 8, Flags(false, false, false, false, false, true), 24);
      FreeptrOutside(constructed) && Relocated(c) && constructed.size == 8 && Inside(c, constructed) && Apart(c, constructed)
  {
    hide Inside, Apart;
    plain := LayOut(Spec(0, 8, Flags(false, false, false, false, false, false), 24));
    constructed := LayOut(Spec(0, 8, Flags(false, false, false, false, false, true), 24));
  }

  /** The fields of struct kmem_cache that calculate_sizes sets. */
  class KmemCache {
    const spec: Spec
    var layout: Layout
    var oo: nat
    var min: nat

    /** calculate_sizes; false if no slab order will do, or if the one found holds no object.  A slot of size 0 would be
        divided by. */
    method CalculateSizes(k: Config) returns (ok: bool)
      requires spec.align >= 1 && !Void(spec) && spec.objectSize + 2 * spec.trackSize + 4 * spec.align + 64 < WORD
      requires k.minOrder <= k.maxOrder <= 31 && k.minObjects < WORD
      modifies this
      ensures Placed(spec, layout.inuse, layout.offset) && Aligned(spec, layout) && 1 <= layout.size < WORD
      ensures (FreeptrOutside(layout) <==> Relocated(spec)) <==> !Misjudged(spec)
      ensures !Misjudged(spec) ==> Inside(spec, layout) && Apart(spec, layout) && Snug(spec, layout)
      ensures spec.flags.rcu || spec.flags.poison || spec.flags.ctor ==> PointerBehind(spec, layout)
      ensures spec.flags.redZone && spec.flags.storeUser && spec.flags.kmalloc ==> PointerBehind(spec, layout)
      ensures spec.flags.redZone && spec.objectSize < 8 ==> PointerBehind(spec, layout)
      ensures !spec.flags.rcu && !spec.flags.poison && !spec.flags.ctor && !spec.flags.redZone ==> PointerInMiddle(spec, layout)
      ensures !spec.flags.rcu && !spec.flags.poison && !spec.flags.ctor && spec.objectSize >= 8 && !KeepsOrigSize(spec) ==>
        PointerInMiddle(spec, layout)
      ensures ok <==>
        && (layout.size <= PAGE_SIZE * Pow2(k.maxOrder) || layout.size <= PAGE_SIZE * Pow2(MAX_PAGE_ORDER))
        && Workable(k, layout.size)
      ensures ok ==> 1 <= OoObjects(min) <= OoObjects(oo) <= MAX_OBJS_PER_PAGE && OoOrder(min) <= OoOrder(oo) <= 19
      ensures ok ==> OoObjects(oo) == OrderObjects(OoOrder(oo), layout.size)
      ensures ok && k.maxOrder <= 19 && layout.size <= PAGE_SIZE * Pow2(k.maxOrder) && Countable(k, layout.size) ==>
        Smallest(k, layout.size, OoOrder(oo))
    {
      hide Inside, Apart, OrderObjects, Pow2, OoMake, OoOrder, OoObjects, GetOrder, LeastWaste, StartOrder, Workable, Snug, Void, Misjudged,
           PointerBehind, PointerInMiddle, Smallest, Countable;
      layout := LayOut(spec);
      var order := CalculateOrder(k, layout.size);
      if order < 0 {
        return false;
      }
      Packed(order, layout.size);
      if Workable(k, layout.size) { OoRoundTrip(order, layout.size); }
      oo := OoMake(order, layout.size);
      min := OoMake(GetOrder(layout.size), layout.size);
      ok := OoObjects(oo) != 0;
    }
  }
}
