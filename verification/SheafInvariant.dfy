/** What every step of the sheaf protocol keeps: one owner for every sheaf, one holder for every
    object, and a size that fits the role of every sheaf. */
module SheafInvariant {
  import opened Freelist
  import opened SheafMachine

  /** The owners of sheaves. */
  datatype Place = MainOf(cpu: Cpu) | SpareOf(cpu: Cpu) | RcuOf(cpu: Cpu) | BarnFull | BarnEmpty | InAct(act: ActId)

  /** The holders of objects. */
  datatype Holder = Below | Callers | Delayed | InSheaf(sheaf: SheafId) | Carried(act: ActId)

  /** Where every sheaf and every object is. */
  datatype Witness = Witness(place: map<SheafId, Place>, loc: map<Obj, Holder>)

  /** No object has appeared or disappeared. */
  predicate SameObjs(w: Witness, w': Witness)
  {
    w'.loc.Keys == w.loc.Keys
  }

  lemma SameObjsTrans(w: Witness, u: Witness, w': Witness)
    requires SameObjs(w, u) && SameObjs(u, w')
    ensures SameObjs(w, w')
  {
  }

  /** The sheaf an activation has in hand. */
  function Hand(a: Act): Option<SheafId>
  {
    match a
    case Refill(e, _, _) => Some(e)
    case HaveFull(e) => Some(e)
    case FlushSpare(e, _) => Some(e)
    case HaveEmpty(e, _) => Some(e)
    case RcuHave(e, _) => Some(e)
    case RcuSheaf(e, _) => Some(e)
    case RcuReady(e, _) => Some(e)
    case FlushFree(e) => Some(e)
    case ToEmpty(e) => Some(e)
    case FreeEmpty(e) => Some(e)
    case PutFull(e) => Some(e)
    case PrefillHave(e, _) => Some(e)
    case Prefilled(e) => Some(e)
    case _ => None
  }

  /** The objects an activation has in hand, besides those in its sheaf. */
  function Load(a: Act): seq<Obj>
  {
    match a
    case Refill(_, got, _) => got
    case FullMain(_, o) => [o]
    case NeedEmpty(o) => [o]
    case FlushSpare(_, o) => [o]
    case HaveEmpty(_, o) => [o]
    case Push(_, o) => [o]
    case FlushMain(batch, _, _, cont) => batch + (if cont.Some? then [cont.value] else [])
    case RcuNeed(o) => [o]
    case RcuHave(_, o) => [o]
    case RcuPush(_, o) => [o]
    case BulkAlloc(_, got) => got
    case BulkSlab(_, got) => got
    case BulkFree(rest) => rest
    case _ => []
  }

  /** The cpu whose lock an activation holds. */
  function LockOf(a: Act): Option<Cpu>
  {
    match a
    case Hunt(c) => Some(c)
    case Pop(c) => Some(c)
    case FullMain(c, _) => Some(c)
    case Push(c, _) => Some(c)
    case RcuPush(c, _) => Some(c)
    case _ => None
  }

  /** Membership in a list of the barn. */
  predicate Among(l: seq<SheafId>, e: SheafId)
  {
    e in l
  }

  predicate Owns(st: State, p: Place, e: SheafId)
  {
    match p
    case MainOf(c) => c in st.pcs && st.pcs[c].main == e
    case SpareOf(c) => c in st.pcs && st.pcs[c].spare == Some(e)
    case RcuOf(c) => c in st.pcs && st.pcs[c].rcuFree == Some(e)
    case BarnFull => Among(st.barn.full, e)
    case BarnEmpty => Among(st.barn.empty, e)
    case InAct(t) => t in st.acts && Hand(st.acts[t]) == Some(e)
  }

  predicate Has(st: State, h: Holder, o: Obj)
  {
    match h
    case Below => o in st.below
    case Callers => o in st.callers
    case Delayed => o in st.delayed
    case InSheaf(e) => e in st.sheaves && o in st.sheaves[e]
    case Carried(t) => t in st.acts && o in Load(st.acts[t])
  }

  predicate BarnInv(b: Barn)
  {
    NoDup(b.full) && NoDup(b.empty) && b.nrFull == |b.full| && b.nrEmpty == |b.empty|
  }

  /** Exactly the sheaves have owners, and each has exactly the one recorded. */
  ghost predicate OwnInv(st: State, place: map<SheafId, Place>)
  {
    && BarnInv(st.barn)
    && place.Keys == st.sheaves.Keys
    && (forall p, e :: Owns(st, p, e) <==> e in place && place[e] == p)
  }

  /** Every object has exactly the holder recorded, and is there once. */
  ghost predicate ObjInv(st: State, loc: map<Obj, Holder>)
  {
    && (forall h, o :: Has(st, h, o) <==> o in loc && loc[o] == h)
    && (forall e :: e in st.sheaves ==> NoDup(st.sheaves[e]))
    && (forall t :: t in st.acts ==> NoDup(Load(st.acts[t])))
  }

  /** The local lock is held by the activation that believes it holds it. */
  ghost predicate LockInv(st: State)
  {
    && (forall c :: c in st.pcs && st.pcs[c].lock.Some? ==>
          st.pcs[c].lock.value in st.acts && LockOf(st.acts[st.pcs[c].lock.value]) == Some(c))
    && (forall t :: t in st.acts && LockOf(st.acts[t]).Some? ==>
          LockOf(st.acts[t]).value in st.pcs && st.pcs[LockOf(st.acts[t]).value].lock == Some(t))
  }

  predicate SizeFits(cap: nat, p: Place, n: nat)
  {
    && n <= cap
    && match p
       case RcuOf(_) => n < cap
       case BarnFull => n >= 1
       case BarnEmpty => n == 0
       case _ => true
  }

  /** What an activation knows about the sheaf in its hand, or about the cpu whose lock it holds. */
  predicate ActInv(cap: nat, st: State, a: Act)
  {
    match a
    case Hunt(c) =>
      c in st.pcs && Size(st, st.pcs[c].main) == 0 && (st.pcs[c].spare.Some? ==> Size(st, st.pcs[c].spare.value) == 0)
    case Pop(c) => c in st.pcs && Size(st, st.pcs[c].main) > 0
    case FullMain(c, _) => c in st.pcs && Size(st, st.pcs[c].main) == cap
    case Push(c, _) => c in st.pcs && Size(st, st.pcs[c].main) < cap
    case RcuPush(c, _) => c in st.pcs && st.pcs[c].rcuFree.Some?
    case Refill(e, got, purpose) => Size(st, e) + |got| <= cap && (purpose.ForAlloc? ==> Size(st, e) == 0)
    case HaveFull(e) => Size(st, e) == cap
    case HaveEmpty(e, _) => Size(st, e) == 0
    case RcuHave(e, _) => Size(st, e) == 0
    case ToEmpty(e) => Size(st, e) == 0
    case FreeEmpty(e) => Size(st, e) == 0
    case PutFull(e) => Size(st, e) == cap
    case RcuSheaf(e, barn) => barn ==> Size(st, e) == cap
    case FlushMain(batch, _, _, _) => |batch| <= PCS_BATCH_MAX
    case BulkAlloc(want, got) => |got| <= want
    case BulkSlab(want, got) => |got| <= want
    case _ => true
  }

  ghost predicate SizeInv(cap: nat, st: State, place: map<SheafId, Place>)
  {
    && cap >= 1
    && (forall e :: e in st.sheaves && e in place ==> SizeFits(cap, place[e], |st.sheaves[e]|))
    && (forall t :: t in st.acts ==> ActInv(cap, st, st.acts[t]))
  }

  ghost predicate Inv(cap: nat, st: State, w: Witness)
  {
    OwnInv(st, w.place) && ObjInv(st, w.loc) && LockInv(st) && SizeInv(cap, st, w.place)
  }

  // ---- the barn's lists ----

  lemma FullTaken(b: Barn)
    requires BarnInv(b) && HasFull(b)
    ensures BarnInv(TakeFull(b)) && TakeFull(b).empty == b.empty
    ensures Among(b.full, b.full[0]) && forall e :: Among(TakeFull(b).full, e) <==> Among(b.full, e) && e != b.full[0]
  {
  }

  lemma EmptyTaken(b: Barn)
    requires BarnInv(b) && HasEmpty(b)
    ensures BarnInv(TakeEmpty(b)) && TakeEmpty(b).full == b.full
    ensures Among(b.empty, b.empty[0]) && forall e :: Among(TakeEmpty(b).empty, e) <==> Among(b.empty, e) && e != b.empty[0]
  {
  }

  lemma FullPut(b: Barn, x: SheafId)
    requires BarnInv(b) && !Among(b.full, x)
    ensures BarnInv(PutFullTo(b, x)) && PutFullTo(b, x).empty == b.empty
    ensures forall e :: Among(PutFullTo(b, x).full, e) <==> Among(b.full, e) || e == x
  {
  }

  lemma EmptyPut(b: Barn, x: SheafId)
    requires BarnInv(b) && !Among(b.empty, x)
    ensures BarnInv(PutEmpty(b, x)) && PutEmpty(b, x).full == b.full
    ensures forall e :: Among(PutEmpty(b, x).empty, e) <==> Among(b.empty, e) || e == x
  {
  }

  // ---- what the invariant says about the parties of a step ----

  predicate At(st: State, w: Witness, e: SheafId, p: Place)
  {
    e in st.sheaves && e in w.place && w.place[e] == p
  }

  lemma CpuFacts(cap: nat, st: State, w: Witness, c: Cpu)
    requires Inv(cap, st, w) && c in st.pcs
    ensures At(st, w, st.pcs[c].main, MainOf(c)) && |st.sheaves[st.pcs[c].main]| <= cap
    ensures st.pcs[c].spare.Some? ==> At(st, w, st.pcs[c].spare.value, SpareOf(c)) && |st.sheaves[st.pcs[c].spare.value]| <= cap
    ensures st.pcs[c].rcuFree.Some? ==> At(st, w, st.pcs[c].rcuFree.value, RcuOf(c)) && |st.sheaves[st.pcs[c].rcuFree.value]| < cap
    ensures st.pcs[c].lock.Some? ==> st.pcs[c].lock.value in st.acts && LockOf(st.acts[st.pcs[c].lock.value]) == Some(c)
  {
    hide ObjInv;
    assert Owns(st, MainOf(c), st.pcs[c].main);
    if st.pcs[c].spare.Some? { assert Owns(st, SpareOf(c), st.pcs[c].spare.value); }
    if st.pcs[c].rcuFree.Some? { assert Owns(st, RcuOf(c), st.pcs[c].rcuFree.value); }
  }

  lemma ActFacts(cap: nat, st: State, w: Witness, t: ActId)
    requires Inv(cap, st, w) && t in st.acts
    ensures Hand(st.acts[t]).Some? ==> At(st, w, Hand(st.acts[t]).value, InAct(t)) && |st.sheaves[Hand(st.acts[t]).value]| <= cap
    ensures ActInv(cap, st, st.acts[t])
    ensures NoDup(Load(st.acts[t])) && forall o :: o in Load(st.acts[t]) ==> o in w.loc && w.loc[o] == Carried(t)
    ensures LockOf(st.acts[t]).Some? ==> LockOf(st.acts[t]).value in st.pcs && st.pcs[LockOf(st.acts[t]).value].lock == Some(t)
  {
    if Hand(st.acts[t]).Some? { assert Owns(st, InAct(t), Hand(st.acts[t]).value); }
    forall o | o in Load(st.acts[t]) ensures o in w.loc && w.loc[o] == Carried(t) {
      assert Has(st, Carried(t), o);
    }
  }

  lemma BarnFacts(cap: nat, st: State, w: Witness)
    requires Inv(cap, st, w)
    ensures cap >= 1 && BarnInv(st.barn) && w.place.Keys == st.sheaves.Keys
    ensures forall e :: Among(st.barn.full, e) ==> At(st, w, e, BarnFull) && 1 <= |st.sheaves[e]| <= cap
    ensures forall e :: Among(st.barn.empty, e) ==> At(st, w, e, BarnEmpty) && |st.sheaves[e]| == 0
  {
    hide ObjInv;
    forall e | Among(st.barn.full, e) ensures At(st, w, e, BarnFull) && 1 <= |st.sheaves[e]| <= cap {
      assert Owns(st, BarnFull, e);
    }
    forall e | Among(st.barn.empty, e) ensures At(st, w, e, BarnEmpty) && |st.sheaves[e]| == 0 {
      assert Owns(st, BarnEmpty, e);
    }
  }

  lemma SheafFacts(cap: nat, st: State, w: Witness, e: SheafId)
    requires Inv(cap, st, w) && e in st.sheaves
    ensures NoDup(st.sheaves[e]) && forall o :: o in st.sheaves[e] ==> o in w.loc && w.loc[o] == InSheaf(e)
  {
    forall o | o in st.sheaves[e] ensures o in w.loc && w.loc[o] == InSheaf(e) {
      assert Has(st, InSheaf(e), o);
    }
  }

  lemma ObjFacts(cap: nat, st: State, w: Witness)
    requires Inv(cap, st, w)
    ensures forall o :: o in st.below ==> o in w.loc && w.loc[o] == Below
    ensures forall o :: o in st.callers ==> o in w.loc && w.loc[o] == Callers
    ensures forall o :: o in st.delayed ==> o in w.loc && w.loc[o] == Delayed
  {
    forall o | o in st.below ensures o in w.loc && w.loc[o] == Below { assert Has(st, Below, o); }
    forall o | o in st.callers ensures o in w.loc && w.loc[o] == Callers { assert Has(st, Callers, o); }
    forall o | o in st.delayed ensures o in w.loc && w.loc[o] == Delayed { assert Has(st, Delayed, o); }
  }
}
