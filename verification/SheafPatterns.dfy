/** How sheaves change owners and objects change holders, for the changes that several steps share. */
module SheafPatterns {
  import opened Freelist
  import opened SheafMachine
  import opened SheafInvariant
  import opened SheafDelta

  /** No object changes hands. */
  lemma NothingCarried(cap: nat, st: State, w: Witness, st': State, d: Delta)
    requires Inv(cap, st, w) && d.objs == {}
    requires st'.below == st.below && st'.callers == st.callers && st'.delayed == st.delayed
    requires Contents(st', d.a) == Contents(st, d.a) && Contents(st', d.b) == Contents(st, d.b)
    requires LoadOf(st', d.act) == LoadOf(st, d.act)
    ensures Carries(st, w.loc, st', d)
  {
    hide OwnInv, LockInv, SizeInv;
  }

  /** What the objects `l`, going from one holder to another, do to a list and to a set. */
  predicate SeqChange(was: seq<Obj>, now: seq<Obj>, h: Holder, from: Holder, to: Holder, l: seq<Obj>)
  {
    if h == from then multiset(was) == multiset(now) + multiset(l)
    else if h == to then multiset(now) == multiset(was) + multiset(l)
    else now == was
  }

  predicate SetChange(was: set<Obj>, now: set<Obj>, h: Holder, from: Holder, to: Holder, l: seq<Obj>)
  {
    now == if h == from then was - Elems(l) else if h == to then was + Elems(l) else was
  }

  lemma SeqChanged(was: seq<Obj>, now: seq<Obj>, h: Holder, from: Holder, l: seq<Obj>, d: Delta, loc: map<Obj, Holder>)
    requires NoDup(was) && NoDup(l) && d.objs == Elems(l) && from != d.to
    requires forall o :: o in was ==> o in loc && loc[o] == h
    requires forall o :: o in l ==> o in loc && loc[o] == from
    requires SeqChange(was, now, h, from, d.to, l)
    ensures SeqHolder(was, now, h, d)
  {
    forall o: Obj ensures multiset(now)[o] <= 1 && (o in now <==> if o in d.objs then d.to == h else o in was) {
      NoDupCount(was, o);
      NoDupCount(l, o);
      assert o in now <==> multiset(now)[o] > 0;
      assert o in was <==> multiset(was)[o] > 0;
      assert o in l <==> multiset(l)[o] > 0;
    }
    CountNoDup(now);
  }

  lemma SetChanged(was: set<Obj>, now: set<Obj>, h: Holder, from: Holder, l: seq<Obj>, d: Delta, loc: map<Obj, Holder>)
    requires d.objs == Elems(l) && from != d.to && SetChange(was, now, h, from, d.to, l)
    requires forall o :: o in was ==> o in loc && loc[o] == h
    requires forall o :: o in l ==> o in loc && loc[o] == from
    ensures SetHolder(was, now, h, d)
  {
  }

  lemma ContentsFacts(cap: nat, st: State, w: Witness, e: SheafId)
    requires Inv(cap, st, w)
    ensures NoDup(Contents(st, e)) && forall o :: o in Contents(st, e) ==> o in w.loc && w.loc[o] == InSheaf(e)
  {
    if e in st.sheaves { SheafFacts(cap, st, w, e); }
  }

  lemma LoadFacts(cap: nat, st: State, w: Witness, t: ActId)
    requires Inv(cap, st, w)
    ensures NoDup(LoadOf(st, t)) && forall o :: o in LoadOf(st, t) ==> o in w.loc && w.loc[o] == Carried(t)
  {
    hide Inv;
    if t in st.acts { ActFacts(cap, st, w, t); }
  }

  /** The objects `l` go from one holder to another. */
  lemma ObjsCarried(cap: nat, st: State, w: Witness, st': State, d: Delta, from: Holder, l: seq<Obj>)
    requires Inv(cap, st, w) && NoDup(l) && d.objs == Elems(l) && from != d.to && CloseBy(from, d) && CloseBy(d.to, d)
    requires forall o :: o in l ==> o in w.loc && w.loc[o] == from
    requires SetChange(st.below, st'.below, Below, from, d.to, l)
    requires SetChange(st.callers, st'.callers, Callers, from, d.to, l)
    requires SetChange(st.delayed, st'.delayed, Delayed, from, d.to, l)
    requires SeqChange(Contents(st, d.a), Contents(st', d.a), InSheaf(d.a), from, d.to, l)
    requires SeqChange(Contents(st, d.b), Contents(st', d.b), InSheaf(d.b), from, d.to, l)
    requires SeqChange(LoadOf(st, d.act), LoadOf(st', d.act), Carried(d.act), from, d.to, l)
    ensures Carries(st, w.loc, st', d)
  {
    hide Inv, SeqHolder, SeqChange, SetHolder, SetChange, Contents, LoadOf, NoDup, Elems;
    ObjFacts(cap, st, w);
    SetChanged(st.below, st'.below, Below, from, l, d, w.loc);
    SetChanged(st.callers, st'.callers, Callers, from, l, d, w.loc);
    SetChanged(st.delayed, st'.delayed, Delayed, from, l, d, w.loc);
    ContentsFacts(cap, st, w, d.a);
    ContentsFacts(cap, st, w, d.b);
    LoadFacts(cap, st, w, d.act);
    SeqChanged(Contents(st, d.a), Contents(st', d.a), InSheaf(d.a), from, l, d, w.loc);
    SeqChanged(Contents(st, d.b), Contents(st', d.b), InSheaf(d.b), from, l, d, w.loc);
    SeqChanged(LoadOf(st, d.act), LoadOf(st', d.act), Carried(d.act), from, l, d, w.loc);
  }

  lemma Single(o: Obj)
    ensures NoDup([o]) && Elems([o]) == {o}
  {
  }

  /** The delta of a step that concerns no sheaf and no cpu. */
  lemma Idle(st: State, t: ActId) returns (d: Delta)
    ensures d.cpu !in st.pcs && d.act == t && d.a != d.b && d.a !in st.sheaves && d.b !in st.sheaves
    ensures d.objs == {} && d.to == Below
  {
    var c := Fresh(st.pcs.Keys);
    var a := Fresh(st.sheaves.Keys);
    var b := Fresh(st.sheaves.Keys + {a});
    d := Delta(c, t, a, BarnEmpty, b, BarnEmpty, {}, Below);
  }

  function SlotsOf(st: State, c: Cpu): Option<(SheafId, Option<SheafId>, Option<SheafId>)>
  {
    if c in st.pcs then Some((st.pcs[c].main, st.pcs[c].spare, st.pcs[c].rcuFree)) else None
  }

  /** No sheaf changes owner. */
  lemma NothingMoved(cap: nat, st: State, w: Witness, st': State, d: Delta)
    requires Inv(cap, st, w) && st'.barn == st.barn && st'.sheaves.Keys == st.sheaves.Keys && d.a != d.b
    requires SlotsOf(st', d.cpu) == SlotsOf(st, d.cpu) && HandOf(st', d.act) == HandOf(st, d.act)
    requires d.a in st.sheaves ==> At(st, w, d.a, d.pa) && Near(d.pa, d)
    requires d.b in st.sheaves ==> At(st, w, d.b, d.pb) && Near(d.pb, d)
    ensures Moves(st, st', d)
  {
    hide ObjInv, LockInv, SizeInv, BarnInv, Among, Hand;
    if d.a in st.sheaves { assert Owns(st, d.pa, d.a); }
    if d.b in st.sheaves { assert Owns(st, d.pb, d.b); }
    if d.cpu in st.pcs {
      assert Owns(st, MainOf(d.cpu), st.pcs[d.cpu].main);
      if st.pcs[d.cpu].spare.Some? { assert Owns(st, SpareOf(d.cpu), st.pcs[d.cpu].spare.value); }
      if st.pcs[d.cpu].rcuFree.Some? { assert Owns(st, RcuOf(d.cpu), st.pcs[d.cpu].rcuFree.value); }
    }
    if HandOf(st, d.act).Some? { assert Owns(st, InAct(d.act), HandOf(st, d.act).value); }
    forall e ensures Among(st.barn.full, e) <==> Owns(st, BarnFull, e) {}
    forall e ensures Among(st.barn.empty, e) <==> Owns(st, BarnEmpty, e) {}
  }

  /** swap(pcs->main, pcs->spare) */
  lemma Swapped(cap: nat, st: State, w: Witness, st': State, d: Delta)
    requires Inv(cap, st, w) && d.cpu in st.pcs && d.cpu in st'.pcs && st.pcs[d.cpu].spare.Some?
    requires SlotsOf(st', d.cpu) == Some((st.pcs[d.cpu].spare.value, Some(st.pcs[d.cpu].main), st.pcs[d.cpu].rcuFree))
    requires st'.barn == st.barn && st'.sheaves.Keys == st.sheaves.Keys && HandOf(st', d.act) == HandOf(st, d.act) == None
    requires d.a == st.pcs[d.cpu].main && d.pa == SpareOf(d.cpu) && d.b == st.pcs[d.cpu].spare.value && d.pb == MainOf(d.cpu)
    ensures Moves(st, st', d)
  {
    hide Inv, Among, BarnInv, HandOf;
    CpuFacts(cap, st, w, d.cpu);
    BarnFacts(cap, st, w);
  }

  /** barn_replace_empty_sheaf on the main sheaf */
  lemma FullForMain(cap: nat, st: State, w: Witness, st': State, d: Delta)
    requires Inv(cap, st, w) && d.cpu in st.pcs && d.cpu in st'.pcs && HasFull(st.barn)
    requires SlotsOf(st', d.cpu) == Some((st.barn.full[0], st.pcs[d.cpu].spare, st.pcs[d.cpu].rcuFree))
    requires st'.barn == PutEmpty(TakeFull(st.barn), st.pcs[d.cpu].main) && HandOf(st', d.act) == HandOf(st, d.act) == None
    requires st'.sheaves.Keys == st.sheaves.Keys
    requires d.a == st.pcs[d.cpu].main && d.pa == BarnEmpty && d.b == st.barn.full[0] && d.pb == MainOf(d.cpu)
    ensures Moves(st, st', d) && At(st, w, d.b, BarnFull) && 1 <= |st.sheaves[d.b]| <= cap
  {
    hide Inv, Among, BarnInv, HandOf, PutEmpty, TakeFull;
    CpuFacts(cap, st, w, d.cpu);
    BarnFacts(cap, st, w);
    FullTaken(st.barn);
    EmptyPut(TakeFull(st.barn), d.a);
  }

  /** barn_replace_full_sheaf on the main sheaf */
  lemma EmptyForMain(cap: nat, st: State, w: Witness, st': State, d: Delta)
    requires Inv(cap, st, w) && d.cpu in st.pcs && d.cpu in st'.pcs && HasEmpty(st.barn)
    requires SlotsOf(st', d.cpu) == Some((st.barn.empty[0], st.pcs[d.cpu].spare, st.pcs[d.cpu].rcuFree))
    requires st'.barn == PutFullTo(TakeEmpty(st.barn), st.pcs[d.cpu].main) && HandOf(st', d.act) == HandOf(st, d.act) == None
    requires st'.sheaves.Keys == st.sheaves.Keys
    requires d.a == st.pcs[d.cpu].main && d.pa == BarnFull && d.b == st.barn.empty[0] && d.pb == MainOf(d.cpu)
    ensures Moves(st, st', d) && At(st, w, d.b, BarnEmpty) && |st.sheaves[d.b]| == 0
  {
    hide Inv, Among, BarnInv, HandOf, PutFullTo, TakeEmpty;
    CpuFacts(cap, st, w, d.cpu);
    BarnFacts(cap, st, w);
    EmptyTaken(st.barn);
    FullPut(TakeEmpty(st.barn), d.a);
  }

  /** The main sheaf becomes the spare and an empty sheaf of the barn the main. */
  lemma MainToSpare(cap: nat, st: State, w: Witness, st': State, d: Delta)
    requires Inv(cap, st, w) && d.cpu in st.pcs && d.cpu in st'.pcs && HasEmpty(st.barn) && st.pcs[d.cpu].spare.None?
    requires SlotsOf(st', d.cpu) == Some((st.barn.empty[0], Some(st.pcs[d.cpu].main), st.pcs[d.cpu].rcuFree))
    requires st'.barn == TakeEmpty(st.barn) && HandOf(st', d.act) == HandOf(st, d.act) == None
    requires st'.sheaves.Keys == st.sheaves.Keys
    requires d.a == st.pcs[d.cpu].main && d.pa == SpareOf(d.cpu) && d.b == st.barn.empty[0] && d.pb == MainOf(d.cpu)
    ensures Moves(st, st', d) && At(st, w, d.b, BarnEmpty) && |st.sheaves[d.b]| == 0
  {
    hide Inv, Among, BarnInv, HandOf, TakeEmpty;
    CpuFacts(cap, st, w, d.cpu);
    BarnFacts(cap, st, w);
    EmptyTaken(st.barn);
  }

  /** The sheaf in hand becomes the main sheaf, and the empty main sheaf goes to the barn. */
  lemma HandForMain(cap: nat, st: State, w: Witness, st': State, d: Delta)
    requires Inv(cap, st, w) && d.cpu in st.pcs && d.cpu in st'.pcs && HandOf(st, d.act).Some? && HandOf(st', d.act).None?
    requires SlotsOf(st', d.cpu) == Some((HandOf(st, d.act).value, st.pcs[d.cpu].spare, st.pcs[d.cpu].rcuFree))
    requires st'.sheaves.Keys == st.sheaves.Keys
    requires d.a == HandOf(st, d.act).value && d.pa == MainOf(d.cpu) && d.b == st.pcs[d.cpu].main
    requires if d.pb == BarnFull then st'.barn == PutFullTo(st.barn, d.b) else d.pb == BarnEmpty && st'.barn == PutEmpty(st.barn, d.b)
    ensures Moves(st, st', d)
  {
    hide Inv, Among, BarnInv, PutEmpty, PutFullTo;
    CpuFacts(cap, st, w, d.cpu);
    BarnFacts(cap, st, w);
    ActFacts(cap, st, w, d.act);
    if d.pb == BarnFull { FullPut(st.barn, d.b); } else { EmptyPut(st.barn, d.b); }
  }

  /** The sheaf in hand goes to the barn; slots and other lists stay. */
  lemma HandToBarn(cap: nat, st: State, w: Witness, st': State, d: Delta)
    requires Inv(cap, st, w) && HandOf(st, d.act).Some? && HandOf(st', d.act).None?
    requires SlotsOf(st', d.cpu) == SlotsOf(st, d.cpu) && st'.sheaves.Keys == st.sheaves.Keys
    requires d.a == HandOf(st, d.act).value && d.b != d.a && (d.b in st.sheaves ==> At(st, w, d.b, d.pb) && d.cpu in st.pcs && d.pb == MainOf(d.cpu) && d.b == st.pcs[d.cpu].main)
    requires if d.pa == BarnFull then st'.barn == PutFullTo(st.barn, d.a) else d.pa == BarnEmpty && st'.barn == PutEmpty(st.barn, d.a)
    ensures Moves(st, st', d)
  {
    hide Inv, Among, BarnInv, PutEmpty, PutFullTo;
    if d.cpu in st.pcs { CpuFacts(cap, st, w, d.cpu); }
    BarnFacts(cap, st, w);
    ActFacts(cap, st, w, d.act);
    if d.pa == BarnFull { FullPut(st.barn, d.a); } else { EmptyPut(st.barn, d.a); }
  }

  lemma NoDupParts(l: seq<Obj>, n: nat)
    requires NoDup(l) && n <= |l|
    ensures NoDup(l[..n]) && NoDup(l[n..])
  {
  }

  /** The spare sheaf is taken along. */
  lemma SpareToHand(cap: nat, st: State, w: Witness, st': State, d: Delta)
    requires Inv(cap, st, w) && d.cpu in st.pcs && d.cpu in st'.pcs && st.pcs[d.cpu].spare.Some? && HandOf(st, d.act).None?
    requires SlotsOf(st', d.cpu) == Some((st.pcs[d.cpu].main, None, st.pcs[d.cpu].rcuFree))
    requires st'.barn == st.barn && st'.sheaves.Keys == st.sheaves.Keys && HandOf(st', d.act) == st.pcs[d.cpu].spare
    requires d.a == st.pcs[d.cpu].main && d.pa == MainOf(d.cpu) && d.b == st.pcs[d.cpu].spare.value && d.pb == InAct(d.act)
    ensures Moves(st, st', d)
  {
    hide Inv, Among, BarnInv;
    CpuFacts(cap, st, w, d.cpu);
    BarnFacts(cap, st, w);
  }

  /** The last objects `l` of sheaf `a` go into the activation's hand. */
  lemma SheafToHand(cap: nat, st: State, w: Witness, st': State, d: Delta, l: seq<Obj>)
    requires Inv(cap, st, w) && d.objs == Elems(l) && d.to == Carried(d.act)
    requires st'.below == st.below && st'.callers == st.callers && st'.delayed == st.delayed
    requires Contents(st, d.a) == Contents(st', d.a) + l && Contents(st', d.b) == Contents(st, d.b) && d.a != d.b
    requires LoadOf(st', d.act) == l + LoadOf(st, d.act) || LoadOf(st', d.act) == LoadOf(st, d.act) + l
    ensures Carries(st, w.loc, st', d)
  {
    hide Inv, Carries, NoDup, Elems, Contents, LoadOf;
    ContentsFacts(cap, st, w, d.a);
    NoDupParts(Contents(st, d.a), |Contents(st', d.a)|);
    assert Contents(st, d.a)[|Contents(st', d.a)|..] == l;
    ObjsCarried(cap, st, w, st', d, InSheaf(d.a), l);
  }

  /** The first objects `l` in the activation's hand go to `d.to`, a set. */
  lemma HandToSet(cap: nat, st: State, w: Witness, st': State, d: Delta, l: seq<Obj>)
    requires Inv(cap, st, w) && d.objs == Elems(l) && (d.to == Below || d.to == Callers)
    requires st'.below == st.below + (if d.to == Below then Elems(l) else {})
    requires st'.callers == st.callers + (if d.to == Callers then Elems(l) else {}) && st'.delayed == st.delayed
    requires Contents(st', d.a) == Contents(st, d.a) && Contents(st', d.b) == Contents(st, d.b)
    requires LoadOf(st, d.act) == l + LoadOf(st', d.act)
    ensures Carries(st, w.loc, st', d)
  {
    hide Inv, Carries, NoDup, Elems, Contents, LoadOf;
    LoadFacts(cap, st, w, d.act);
    NoDupParts(LoadOf(st, d.act), |l|);
    assert LoadOf(st, d.act)[..|l|] == l;
    ObjsCarried(cap, st, w, st', d, Carried(d.act), l);
  }

  /** The contents of sheaf `a` go to the slab layer. */
  lemma SheafToBelow(cap: nat, st: State, w: Witness, st': State, d: Delta)
    requires Inv(cap, st, w) && d.objs == Elems(Contents(st, d.a)) && d.to == Below
    requires st'.below == st.below + d.objs && st'.callers == st.callers && st'.delayed == st.delayed
    requires Contents(st', d.a) == [] && Contents(st', d.b) == Contents(st, d.b) && d.a != d.b
    requires LoadOf(st', d.act) == LoadOf(st, d.act)
    ensures Carries(st, w.loc, st', d)
  {
    hide Inv, Carries, NoDup, Elems, Contents, LoadOf;
    ContentsFacts(cap, st, w, d.a);
    ObjsCarried(cap, st, w, st', d, InSheaf(d.a), Contents(st, d.a));
  }

  /** The first objects `l` in the activation's hand are appended to sheaf `a`. */
  lemma HandToSheaf(cap: nat, st: State, w: Witness, st': State, d: Delta, l: seq<Obj>)
    requires Inv(cap, st, w) && d.objs == Elems(l) && d.to == InSheaf(d.a)
    requires st'.below == st.below && st'.callers == st.callers && st'.delayed == st.delayed
    requires Contents(st', d.a) == Contents(st, d.a) + l && Contents(st', d.b) == Contents(st, d.b) && d.a != d.b
    requires LoadOf(st, d.act) == l + LoadOf(st', d.act)
    ensures Carries(st, w.loc, st', d)
  {
    hide Inv, Carries, NoDup, Elems, Contents, LoadOf;
    LoadFacts(cap, st, w, d.act);
    NoDupParts(LoadOf(st, d.act), |l|);
    assert LoadOf(st, d.act)[..|l|] == l;
    ObjsCarried(cap, st, w, st', d, Carried(d.act), l);
  }

  /** Callers, or the slab layer, give the objects `l`. */
  lemma SetToHand(cap: nat, st: State, w: Witness, st': State, d: Delta, from: Holder, l: seq<Obj>)
    requires Inv(cap, st, w) && d.objs == Elems(l) && NoDup(l) && d.to == Carried(d.act) && st'.delayed == st.delayed
    requires from == Below || from == Callers
    requires forall o :: o in l ==> o in (if from == Below then st.below else st.callers)
    requires st'.below == st.below - (if from == Below then Elems(l) else {})
    requires st'.callers == st.callers - (if from == Callers then Elems(l) else {})
    requires Contents(st', d.a) == Contents(st, d.a) && Contents(st', d.b) == Contents(st, d.b)
    requires LoadOf(st', d.act) == LoadOf(st, d.act) + l
    ensures Carries(st, w.loc, st', d)
  {
    hide Inv, Carries, NoDup, Elems, Contents, LoadOf;
    ObjFacts(cap, st, w);
    ObjsCarried(cap, st, w, st', d, from, l);
  }

  /** The last object of sheaf `a` goes to a caller. */
  lemma SheafToCaller(cap: nat, st: State, w: Witness, st': State, d: Delta)
    requires Inv(cap, st, w) && Contents(st, d.a) != [] && d.objs == {Last(Contents(st, d.a))} && d.to == Callers
    requires st'.below == st.below && st'.callers == st.callers + d.objs && st'.delayed == st.delayed
    requires Contents(st, d.a) == Contents(st', d.a) + [Last(Contents(st, d.a))] && Contents(st', d.b) == Contents(st, d.b) && d.a != d.b
    requires LoadOf(st', d.act) == LoadOf(st, d.act)
    ensures Carries(st, w.loc, st', d)
  {
    hide Inv, Carries, NoDup, Elems, Contents, LoadOf;
    ContentsFacts(cap, st, w, d.a);
    Single(Last(Contents(st, d.a)));
    ObjsCarried(cap, st, w, st', d, InSheaf(d.a), [Last(Contents(st, d.a))]);
  }
}
