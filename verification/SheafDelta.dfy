/** A step touches one cpu, one activation, the barn and at most two sheaves.  `Delta` names them;
    what a step with a given delta must respect is local to it, and then the invariant is kept. */
module SheafDelta {
  import opened Freelist
  import opened SheafMachine
  import opened SheafInvariant

  /** What a step may touch: one cpu's slots, one activation, the barn, and two sheaves `a` and `b`,
      which go to `pa` and `pb`; the objects `objs` go to `to`. */
  datatype Delta = Delta(
    cpu: Cpu, act: ActId, a: SheafId, pa: Place, b: SheafId, pb: Place, objs: set<Obj>, to: Holder)

  function Replaced(place: map<SheafId, Place>, st': State, e: SheafId, p: Place): map<SheafId, Place>
  {
    if e in st'.sheaves then place[e := p] else place - {e}
  }

  function NewPlace(place: map<SheafId, Place>, st': State, d: Delta): map<SheafId, Place>
  {
    Replaced(Replaced(place, st', d.a, d.pa), st', d.b, d.pb)
  }

  /** A slot `p` that held `was` and holds `now`. */
  predicate Slot(st': State, was: Option<SheafId>, now: Option<SheafId>, p: Place, d: Delta)
  {
    && (now.Some? ==>
          if now.value == d.a then d.pa == p && d.a in st'.sheaves
          else if now.value == d.b then d.pb == p && d.b in st'.sheaves
          else now == was)
    && (was.Some? && was != now ==> was.value == d.a || was.value == d.b)
  }

  /** A list `p` of the barn that was `was` and is `now`. */
  ghost predicate ListSlot(st': State, was: seq<SheafId>, now: seq<SheafId>, p: Place, d: Delta)
  {
    forall e :: Among(now, e) <==>
      if e == d.a then d.pa == p && d.a in st'.sheaves
      else if e == d.b then d.pb == p && d.b in st'.sheaves
      else Among(was, e)
  }

  function HandOf(st: State, t: ActId): Option<SheafId>
  {
    if t in st.acts then Hand(st.acts[t]) else None
  }

  /** The owner is one of those the step may touch. */
  predicate Near(p: Place, d: Delta)
  {
    match p
    case MainOf(c) => c == d.cpu
    case SpareOf(c) => c == d.cpu
    case RcuOf(c) => c == d.cpu
    case InAct(t) => t == d.act
    case _ => true
  }

  /** Sheaves `a` and `b` go to their new owners and the owners know it. */
  ghost predicate Moves(st: State, st': State, d: Delta)
  {
    && d.a != d.b && BarnInv(st'.barn)
    && (d.cpu in st.pcs && d.cpu in st'.pcs ==>
          && Slot(st', Some(st.pcs[d.cpu].main), Some(st'.pcs[d.cpu].main), MainOf(d.cpu), d)
          && Slot(st', st.pcs[d.cpu].spare, st'.pcs[d.cpu].spare, SpareOf(d.cpu), d)
          && Slot(st', st.pcs[d.cpu].rcuFree, st'.pcs[d.cpu].rcuFree, RcuOf(d.cpu), d))
    && Slot(st', HandOf(st, d.act), HandOf(st', d.act), InAct(d.act), d)
    && ListSlot(st', st.barn.full, st'.barn.full, BarnFull, d)
    && ListSlot(st', st.barn.empty, st'.barn.empty, BarnEmpty, d)
    && (d.a in st'.sheaves ==> Near(d.pa, d) && Owns(st', d.pa, d.a))
    && (d.b in st'.sheaves ==> Near(d.pb, d) && Owns(st', d.pb, d.b))
  }

  function LoadOf(st: State, t: ActId): seq<Obj>
  {
    if t in st.acts then Load(st.acts[t]) else []
  }

  function Contents(st: State, e: SheafId): seq<Obj>
  {
    if e in st.sheaves then st.sheaves[e] else []
  }

  /** A holder `h` that had `was` and has `now`. */
  ghost predicate SeqHolder(was: seq<Obj>, now: seq<Obj>, h: Holder, d: Delta)
  {
    NoDup(now) && forall o :: o in now <==> if o in d.objs then d.to == h else o in was
  }

  ghost predicate SetHolder(was: set<Obj>, now: set<Obj>, h: Holder, d: Delta)
  {
    forall o :: o in now <==> if o in d.objs then d.to == h else o in was
  }

  /** The holder is one of those the step may touch. */
  predicate CloseBy(h: Holder, d: Delta)
  {
    match h
    case InSheaf(e) => e == d.a || e == d.b
    case Carried(t) => t == d.act
    case _ => true
  }

  /** The objects of `d` go to their new holder. */
  ghost predicate Carries(st: State, loc: map<Obj, Holder>, st': State, d: Delta)
  {
    && SetHolder(st.below, st'.below, Below, d)
    && SetHolder(st.callers, st'.callers, Callers, d)
    && SetHolder(st.delayed, st'.delayed, Delayed, d)
    && SeqHolder(Contents(st, d.a), Contents(st', d.a), InSheaf(d.a), d)
    && SeqHolder(Contents(st, d.b), Contents(st', d.b), InSheaf(d.b), d)
    && SeqHolder(LoadOf(st, d.act), LoadOf(st', d.act), Carried(d.act), d)
    && (d.objs != {} ==> CloseBy(d.to, d))
    && (forall o :: o in d.objs ==> o in loc && CloseBy(loc[o], d))
  }

  /** Nothing but what `d` names differs. */
  ghost predicate Only(st: State, st': State, d: Delta)
  {
    && st'.pcs.Keys == st.pcs.Keys && Same(st.pcs, st'.pcs, d.cpu)
    && Same(st.acts, st'.acts, d.act)
    && (forall e :: e in st'.sheaves && e != d.a && e != d.b ==> e in st.sheaves)
    && (forall e :: e in st.sheaves && e != d.a && e != d.b ==> e in st'.sheaves && st'.sheaves[e] == st.sheaves[e])
  }

  /** The step finds sheaves `a` and `b` where it may take them, and the cpu's lock free or its own. */
  ghost predicate Reaches(st: State, place: map<SheafId, Place>, d: Delta)
  {
    && (d.a in place ==> Near(place[d.a], d))
    && (d.b in place ==> Near(place[d.b], d))
    && (d.cpu in st.pcs ==> st.pcs[d.cpu].lock.None? || st.pcs[d.cpu].lock == Some(d.act))
  }

  /** Lock and activation agree. */
  ghost predicate Locks(st: State, st': State, d: Delta)
  {
    && (d.cpu in st'.pcs && st'.pcs[d.cpu].lock.Some? ==>
          st'.pcs[d.cpu].lock == Some(d.act) && d.act in st'.acts && LockOf(st'.acts[d.act]) == Some(d.cpu))
    && (d.act in st'.acts && LockOf(st'.acts[d.act]).Some? ==>
          LockOf(st'.acts[d.act]) == Some(d.cpu) && d.cpu in st'.pcs && st'.pcs[d.cpu].lock == Some(d.act))
    && (d.act in st.acts && LockOf(st.acts[d.act]).Some? ==> LockOf(st.acts[d.act]) == Some(d.cpu))
  }

  predicate Fits(cap: nat, st': State, d: Delta)
  {
    && (d.a in st'.sheaves ==> SizeFits(cap, d.pa, |st'.sheaves[d.a]|))
    && (d.b in st'.sheaves ==> SizeFits(cap, d.pb, |st'.sheaves[d.b]|))
    && (d.act in st'.acts ==> ActInv(cap, st', st'.acts[d.act]))
  }

  lemma OwnersMove(st: State, place: map<SheafId, Place>, st': State, d: Delta, p: Place, e: SheafId)
    requires OwnInv(st, place) && Only(st, st', d) && Reaches(st, place, d) && Moves(st, st', d)
    ensures Owns(st', p, e) <==> e in NewPlace(place, st', d) && NewPlace(place, st', d)[e] == p
  {
    hide Among, BarnInv, Hand, NoDup;
    assert Owns(st, p, e) <==> e in place && place[e] == p;
  }

  lemma MovesOwn(st: State, place: map<SheafId, Place>, st': State, d: Delta)
    requires OwnInv(st, place) && Only(st, st', d) && Reaches(st, place, d) && Moves(st, st', d)
    ensures OwnInv(st', NewPlace(place, st', d))
  {
    hide Owns, Moves, Reaches;
    assert BarnInv(st'.barn) by { MovesBarn(st, st', d); }
    forall p, e ensures Owns(st', p, e) <==> e in NewPlace(place, st', d) && NewPlace(place, st', d)[e] == p {
      OwnersMove(st, place, st', d, p, e);
    }
  }

  lemma MovesBarn(st: State, st': State, d: Delta)
    requires Moves(st, st', d)
    ensures BarnInv(st'.barn)
  {
  }

  lemma HoldersMove(st: State, loc: map<Obj, Holder>, st': State, d: Delta, h: Holder, o: Obj)
    requires ObjInv(st, loc) && Only(st, st', d) && Carries(st, loc, st', d)
    ensures Has(st', h, o) <==> if o in d.objs then h == d.to else o in loc && loc[o] == h
  {
    assert Has(st, h, o) <==> o in loc && loc[o] == h;
  }

  lemma CarriesObj(st: State, loc: map<Obj, Holder>, st': State, d: Delta)
    requires ObjInv(st, loc) && Only(st, st', d) && Carries(st, loc, st', d)
    ensures ObjInv(st', loc + map o | o in d.objs :: d.to)
  {
    hide Has;
    forall h, o ensures Has(st', h, o) <==> if o in d.objs then h == d.to else o in loc && loc[o] == h {
      HoldersMove(st, loc, st', d, h, o);
    }
    forall e | e in st'.sheaves ensures NoDup(st'.sheaves[e]) {
      assert e == d.a || e == d.b ==> st'.sheaves[e] == Contents(st', e);
    }
    forall t | t in st'.acts ensures NoDup(Load(st'.acts[t])) {
      assert t == d.act ==> Load(st'.acts[t]) == LoadOf(st', t);
    }
  }

  lemma CarriesKeys(st: State, loc: map<Obj, Holder>, st': State, d: Delta)
    requires Carries(st, loc, st', d)
    ensures (loc + map o | o in d.objs :: d.to).Keys == loc.Keys
  {
  }

  lemma LocksKept(st: State, place: map<SheafId, Place>, st': State, d: Delta)
    requires LockInv(st) && Only(st, st', d) && Reaches(st, place, d) && Locks(st, st', d)
    ensures LockInv(st')
  {
  }

  /** Another activation finds its sheaf and its cpu as they were. */
  lemma OtherAct(cap: nat, st: State, place: map<SheafId, Place>, st': State, d: Delta, u: ActId)
    requires OwnInv(st, place) && LockInv(st) && Only(st, st', d) && Reaches(st, place, d)
    requires u in st.acts && u != d.act && ActInv(cap, st, st.acts[u])
    ensures ActInv(cap, st', st.acts[u])
  {
    var x := st.acts[u];
    if Hand(x).Some? {
      assert Owns(st, InAct(u), Hand(x).value);
    }
    if LockOf(x).Some? {
      var c := LockOf(x).value;
      assert Owns(st, MainOf(c), st.pcs[c].main);
      if st.pcs[c].spare.Some? { assert Owns(st, SpareOf(c), st.pcs[c].spare.value); }
    }
  }

  lemma SizesKept(cap: nat, st: State, place: map<SheafId, Place>, st': State, d: Delta)
    requires OwnInv(st, place) && LockInv(st) && SizeInv(cap, st, place)
    requires Only(st, st', d) && Reaches(st, place, d) && Fits(cap, st', d)
    ensures SizeInv(cap, st', NewPlace(place, st', d))
  {
    hide ActInv, Reaches, LockInv, SizeFits, Owns;
    forall t | t in st'.acts ensures ActInv(cap, st', st'.acts[t]) {
      if t != d.act { OtherAct(cap, st, place, st', d, t); }
    }
  }

  /** A step with such a delta keeps the invariant. */
  lemma DeltaInv(cap: nat, st: State, w: Witness, st': State, d: Delta) returns (w': Witness)
    requires Inv(cap, st, w) && Moves(st, st', d) && Carries(st, w.loc, st', d)
    requires Only(st, st', d) && Reaches(st, w.place, d) && Locks(st, st', d) && Fits(cap, st', d)
    ensures Inv(cap, st', w')
    ensures SameObjs(w, w')
  {
    hide OwnInv, ObjInv, LockInv, SizeInv, Moves, Carries, Only, Reaches, Locks, Fits;
    w' := Witness(NewPlace(w.place, st', d), w.loc + map o | o in d.objs :: d.to);
    MovesOwn(st, w.place, st', d);
    CarriesObj(st, w.loc, st', d);
    CarriesKeys(st, w.loc, st', d);
    LocksKept(st, w.place, st', d);
    SizesKept(cap, st, w.place, st', d);
  }
}
