/** The steps of __kfree_rcu_sheaf and rcu_free_sheaf, and those that end the life of a sheaf, keep the invariant. */
module SheafRcu {
  import opened Freelist
  import opened SheafMachine
  import opened SheafInvariant
  import opened SheafDelta
  import opened SheafPatterns

  lemma PreserveRcuEnter(cap: nat, st: State, w: Witness, st': State, t: ActId, c: Cpu, o: Obj, miss: bool) returns (w': Witness)
    requires Inv(cap, st, w) && StepRcuEnter(st, st', t, c, o, miss)
    ensures Inv(cap, st', w') && SameObjs(w, w')
  {
    hide SameObjs, Inv;
    var p := st.pcs[c];
    if p.rcuFree.None? && p.spare.Some? && Size(st, p.spare.value) == 0 {
      w' := RcuEnterFilled(cap, st, w, st', t, c, o, p.(rcuFree := p.spare, spare := None), st.barn, p.spare.value);
    } else if p.rcuFree.None? && HasEmpty(st.barn) && !miss {
      w' := RcuEnterFilled(cap, st, w, st', t, c, o, p.(rcuFree := Some(st.barn.empty[0])), TakeEmpty(st.barn), st.barn.empty[0]);
    } else {
      w' := RcuEnterStay(cap, st, w, st', t, c, o);
    }
  }

  lemma RcuEnterStay(cap: nat, st: State, w: Witness, st': State, t: ActId, c: Cpu, o: Obj) returns (w': Witness)
    requires Inv(cap, st, w) && t !in st.acts && Unlocked(st, c) && o in st.callers
    requires
      || (&& st.pcs[c].rcuFree.Some?
          && st' == st.(callers := st.callers - {o}, pcs := st.pcs[c := st.pcs[c].(lock := Some(t))], acts := st.acts[t := RcuPush(c, o)]))
      || st' == st.(callers := st.callers - {o}, acts := st.acts[t := RcuNeed(o)])
    ensures Inv(cap, st', w') && SameObjs(w, w')
  {
    hide SameObjs, Inv, Carries, Moves, NoDup, Among, BarnInv, Elems;
    CpuFacts(cap, st, w, c);
    BarnFacts(cap, st, w);
    Single(o);
    var f := Fresh(st.sheaves.Keys);
    var d := Delta(c, t, st.pcs[c].main, MainOf(c), f, BarnEmpty, {o}, Carried(t));
    NothingMoved(cap, st, w, st', d);
    SetToHand(cap, st, w, st', d, Callers, [o]);
    w' := DeltaInv(cap, st, w, st', d);
  }

  lemma RcuEnterFilled(cap: nat, st: State, w: Witness, st': State, t: ActId, c: Cpu, o: Obj, p: Pcs, barn: Barn, e: SheafId) returns (w': Witness)
    requires Inv(cap, st, w) && t !in st.acts && Unlocked(st, c) && o in st.callers && st.pcs[c].rcuFree.None?
    requires
      || (&& st.pcs[c].spare == Some(e) && Size(st, e) == 0 && barn == st.barn
          && p == st.pcs[c].(rcuFree := Some(e), spare := None))
      || (&& HasEmpty(st.barn) && e == st.barn.empty[0] && barn == TakeEmpty(st.barn)
          && p == st.pcs[c].(rcuFree := Some(e)))
    requires st' == st.(callers := st.callers - {o}, pcs := st.pcs[c := p.(lock := Some(t))], barn := barn, acts := st.acts[t := RcuPush(c, o)])
    ensures Inv(cap, st', w') && SameObjs(w, w')
  {
    hide SameObjs, Inv, Carries, Moves, NoDup, Among, BarnInv, Elems, TakeEmpty;
    CpuFacts(cap, st, w, c);
    BarnFacts(cap, st, w);
    if HasEmpty(st.barn) { EmptyTaken(st.barn); }
    Single(o);
    var d := Delta(c, t, st.pcs[c].main, MainOf(c), e, RcuOf(c), {o}, Carried(t));
    RcuSlotFilled(cap, st, w, st', d);
    SetToHand(cap, st, w, st', d, Callers, [o]);
    w' := DeltaInv(cap, st, w, st', d);
  }

  /** The spare sheaf, or the barn's first empty one, is now for kfree_rcu. */
  lemma RcuSlotFilled(cap: nat, st: State, w: Witness, st': State, d: Delta)
    requires Inv(cap, st, w) && d.cpu in st.pcs && d.cpu in st'.pcs && st.pcs[d.cpu].rcuFree.None?
    requires d.a == st.pcs[d.cpu].main && d.pa == MainOf(d.cpu) && d.pb == RcuOf(d.cpu)
    requires st'.sheaves == st.sheaves && HandOf(st, d.act) == HandOf(st', d.act) == None
    requires
      || (&& st.pcs[d.cpu].spare == Some(d.b) && st'.barn == st.barn
          && SlotsOf(st', d.cpu) == Some((d.a, None, Some(d.b))))
      || (&& HasEmpty(st.barn) && d.b == st.barn.empty[0] && st'.barn == TakeEmpty(st.barn)
          && SlotsOf(st', d.cpu) == Some((d.a, st.pcs[d.cpu].spare, Some(d.b))))
    ensures Moves(st, st', d)
  {
    hide SameObjs, Inv, Among, BarnInv, TakeEmpty;
    CpuFacts(cap, st, w, d.cpu);
    BarnFacts(cap, st, w);
    if HasEmpty(st.barn) { EmptyTaken(st.barn); }
  }

  lemma PreserveRcuFails(cap: nat, st: State, w: Witness, st': State, t: ActId) returns (w': Witness)
    requires Inv(cap, st, w) && StepRcuFails(st, st', t)
    ensures Inv(cap, st', w') && SameObjs(w, w')
  {
    hide SameObjs, Inv, Carries, Moves, NoDup, Among, BarnInv, Elems, PutEmpty;
    var o := st.acts[t].obj;
    ActFacts(cap, st, w, t);
    BarnFacts(cap, st, w);
    Single(o);
    var d := Idle(st, t);
    d := d.(objs := {o}, to := Callers);
    if st.acts[t].RcuHave? {
      d := d.(a := st.acts[t].sheaf, pa := BarnEmpty);
      HandToBarn(cap, st, w, st', d);
    } else {
      NothingMoved(cap, st, w, st', d);
    }
    HandToSet(cap, st, w, st', d, [o]);
    w' := DeltaInv(cap, st, w, st', d);
  }

  lemma PreserveRcuInstall(cap: nat, st: State, w: Witness, st': State, t: ActId, c: Cpu) returns (w': Witness)
    requires Inv(cap, st, w) && StepRcuInstall(st, st', t, c)
    ensures Inv(cap, st', w') && SameObjs(w, w')
  {
    hide SameObjs, Inv, Carries, Moves, NoDup, Among, BarnInv, PutEmpty;
    CpuFacts(cap, st, w, c);
    ActFacts(cap, st, w, t);
    BarnFacts(cap, st, w);
    var f := Fresh(st.sheaves.Keys);
    var d := Delta(c, t, st.acts[t].sheaf, BarnEmpty, f, BarnEmpty, {}, Below);
    if st.pcs[c].rcuFree.Some? {
      HandToBarn(cap, st, w, st', d);
    } else {
      d := d.(pa := RcuOf(c));
      HandToSlot(cap, st, w, st', d);
    }
    NothingCarried(cap, st, w, st', d);
    w' := DeltaInv(cap, st, w, st', d);
  }

  /** The sheaf in hand goes to a free slot of the cpu. */
  lemma HandToSlot(cap: nat, st: State, w: Witness, st': State, d: Delta)
    requires Inv(cap, st, w) && d.cpu in st.pcs && d.cpu in st'.pcs && HandOf(st, d.act) == Some(d.a) && HandOf(st', d.act).None?
    requires st'.barn == st.barn && st'.sheaves == st.sheaves && d.b !in st.sheaves
    requires
      || (d.pa == RcuOf(d.cpu) && st.pcs[d.cpu].rcuFree.None?
          && SlotsOf(st', d.cpu) == Some((st.pcs[d.cpu].main, st.pcs[d.cpu].spare, Some(d.a))))
      || (d.pa == SpareOf(d.cpu) && st.pcs[d.cpu].spare.None?
          && SlotsOf(st', d.cpu) == Some((st.pcs[d.cpu].main, Some(d.a), st.pcs[d.cpu].rcuFree)))
    ensures Moves(st, st', d)
  {
    hide SameObjs, Inv, Among, BarnInv;
    CpuFacts(cap, st, w, d.cpu);
    ActFacts(cap, st, w, d.act);
    BarnFacts(cap, st, w);
  }

  lemma PreserveRcuPushObject(cap: nat, st: State, w: Witness, st': State, t: ActId) returns (w': Witness)
    requires Inv(cap, st, w) && StepRcuPushObject(cap, st, st', t)
    ensures Inv(cap, st', w') && SameObjs(w, w')
  {
    hide SameObjs, Inv, Carries, Moves, NoDup, Among, BarnInv, Elems;
    var c, o := st.acts[t].cpu, st.acts[t].obj;
    var e := st.pcs[c].rcuFree.value;
    CpuFacts(cap, st, w, c);
    ActFacts(cap, st, w, t);
    BarnFacts(cap, st, w);
    Single(o);
    var f := Fresh(st.sheaves.Keys);
    var d := Delta(c, t, e, RcuOf(c), f, BarnEmpty, {o}, InSheaf(e));
    if |st.sheaves[e]| + 1 < cap {
      NothingMoved(cap, st, w, st', d);
    } else {
      d := d.(pa := InAct(t));
      RcuToHand(cap, st, w, st', d);
    }
    HandToSheaf(cap, st, w, st', d, [o]);
    w' := DeltaInv(cap, st, w, st', d);
  }

  /** The sheaf for kfree_rcu is taken away. */
  lemma RcuToHand(cap: nat, st: State, w: Witness, st': State, d: Delta)
    requires Inv(cap, st, w) && d.cpu in st.pcs && d.cpu in st'.pcs && st.pcs[d.cpu].rcuFree == Some(d.a) && HandOf(st, d.act).None?
    requires SlotsOf(st', d.cpu) == Some((st.pcs[d.cpu].main, st.pcs[d.cpu].spare, None)) && HandOf(st', d.act) == Some(d.a)
    requires st'.barn == st.barn && st'.sheaves.Keys == st.sheaves.Keys && d.pa == InAct(d.act) && d.b !in st.sheaves
    ensures Moves(st, st', d)
  {
    hide SameObjs, Inv, Among, BarnInv;
    CpuFacts(cap, st, w, d.cpu);
    BarnFacts(cap, st, w);
  }

  lemma PreserveRcuFilter(cap: nat, st: State, w: Witness, st': State, t: ActId, kept: seq<Obj>, rejected: seq<Obj>) returns (w': Witness)
    requires Inv(cap, st, w) && StepRcuFilter(st, st', t, kept, rejected)
    ensures Inv(cap, st', w') && SameObjs(w, w')
  {
    hide SameObjs, Inv, Carries, Moves, NoDup, Among, BarnInv, Elems;
    var e := st.acts[t].sheaf;
    ActFacts(cap, st, w, t);
    BarnFacts(cap, st, w);
    SheafFacts(cap, st, w, e);
    NoDupSub(kept, rejected, st.sheaves[e]);
    var d := Idle(st, t);
    d := d.(a := e, pa := InAct(t), objs := Elems(rejected), to := Delayed);
    assert Contents(st, e) == st.sheaves[e] && Contents(st', e) == kept;
    ObjsCarried(cap, st, w, st', d, InSheaf(e), rejected);
    NothingMoved(cap, st, w, st', d);
    w' := DeltaInv(cap, st, w, st', d);
  }

  lemma NoDupSub(a: seq<Obj>, b: seq<Obj>, l: seq<Obj>)
    requires NoDup(l) && multiset(a) + multiset(b) == multiset(l)
    ensures NoDup(b) && |a| <= |l| && forall o :: o in b ==> o in l
  {
    forall o ensures multiset(b)[o] <= 1 {
      NoDupCount(l, o);
      assert (multiset(a) + multiset(b))[o] == multiset(l)[o];
    }
    CountNoDup(b);
    assert |multiset(a) + multiset(b)| == |multiset(l)|;
    forall o | o in b ensures o in l {
      assert o in multiset(a) + multiset(b);
    }
  }

  lemma PreserveRcuFinish(cap: nat, st: State, w: Witness, st': State, t: ActId, tooMany: bool) returns (w': Witness)
    requires Inv(cap, st, w) && StepRcuFinish(st, st', t, tooMany)
    ensures Inv(cap, st', w') && SameObjs(w, w')
  {
    hide SameObjs, Inv, Carries, Moves, NoDup, Among, BarnInv, Elems, PutFullTo;
    var e := st.acts[t].sheaf;
    ActFacts(cap, st, w, t);
    BarnFacts(cap, st, w);
    var d := Idle(st, t);
    d := d.(a := e, pa := InAct(t));
    if st.acts[t].barn && Size(st, e) == 0 {
      NothingCarried(cap, st, w, st', d);
      NothingMoved(cap, st, w, st', d);
    } else if st.acts[t].barn && !tooMany {
      d := d.(pa := BarnFull);
      NothingCarried(cap, st, w, st', d);
      HandToBarn(cap, st, w, st', d);
    } else {
      w' := RcuFlush(cap, st, w, st', t, tooMany);
      return;
    }
    w' := DeltaInv(cap, st, w, st', d);
  }

  lemma RcuFlush(cap: nat, st: State, w: Witness, st': State, t: ActId, tooMany: bool) returns (w': Witness)
    requires Inv(cap, st, w) && StepRcuFinish(st, st', t, tooMany)
    requires !st.acts[t].barn || (tooMany && Size(st, st.acts[t].sheaf) > 0)
    ensures Inv(cap, st', w') && SameObjs(w, w')
  {
    hide SameObjs, Inv, Carries, Moves, NoDup, Among, BarnInv, Elems, PutFullTo;
    var e := st.acts[t].sheaf;
    ActFacts(cap, st, w, t);
    BarnFacts(cap, st, w);
    var d := Idle(st, t);
    d := d.(a := e, pa := InAct(t), objs := Elems(Contents(st, e)));
    SheafToBelow(cap, st, w, st', d);
    NothingMoved(cap, st, w, st', d);
    w' := DeltaInv(cap, st, w, st', d);
  }

  lemma PreserveEmptyDone(cap: nat, st: State, w: Witness, st': State, t: ActId, tooMany: bool) returns (w': Witness)
    requires Inv(cap, st, w) && StepEmptyDone(st, st', t, tooMany)
    ensures Inv(cap, st', w') && SameObjs(w, w')
  {
    hide SameObjs, Inv, Carries, Moves, NoDup, Among, BarnInv, PutEmpty;
    ActFacts(cap, st, w, t);
    BarnFacts(cap, st, w);
    var d := Idle(st, t);
    d := d.(a := st.acts[t].sheaf, pa := if tooMany then InAct(t) else BarnEmpty);
    if tooMany { NothingMoved(cap, st, w, st', d); } else { HandToBarn(cap, st, w, st', d); }
    NothingCarried(cap, st, w, st', d);
    w' := DeltaInv(cap, st, w, st', d);
  }

  lemma PreserveFlushAndFree(cap: nat, st: State, w: Witness, st': State, t: ActId) returns (w': Witness)
    requires Inv(cap, st, w) && StepFlushAndFree(st, st', t)
    ensures Inv(cap, st', w') && SameObjs(w, w')
  {
    hide SameObjs, Inv, Carries, Moves, NoDup, Among, BarnInv, Elems;
    var e := st.acts[t].sheaf;
    ActFacts(cap, st, w, t);
    BarnFacts(cap, st, w);
    var d := Idle(st, t);
    d := d.(a := e, pa := InAct(t), objs := Elems(Contents(st, e)));
    SheafToBelow(cap, st, w, st', d);
    NothingMoved(cap, st, w, st', d);
    w' := DeltaInv(cap, st, w, st', d);
  }

  lemma PreserveFreeSheaf(cap: nat, st: State, w: Witness, st': State, t: ActId) returns (w': Witness)
    requires Inv(cap, st, w) && StepFreeSheaf(st, st', t)
    ensures Inv(cap, st', w') && SameObjs(w, w')
  {
    hide SameObjs, Inv, Carries, NoDup, Among, BarnInv;
    ActFacts(cap, st, w, t);
    BarnFacts(cap, st, w);
    var d := Idle(st, t);
    d := d.(a := st.acts[t].sheaf);
    NothingCarried(cap, st, w, st', d);
    w' := DeltaInv(cap, st, w, st', d);
  }

  lemma PreserveFullDone(cap: nat, st: State, w: Witness, st': State, t: ActId) returns (w': Witness)
    requires Inv(cap, st, w) && StepFullDone(st, st', t)
    ensures Inv(cap, st', w') && SameObjs(w, w')
  {
    hide SameObjs, Inv, Carries, Moves, NoDup, Among, BarnInv, PutFullTo;
    ActFacts(cap, st, w, t);
    BarnFacts(cap, st, w);
    var d := Idle(st, t);
    d := d.(a := st.acts[t].sheaf, pa := BarnFull);
    HandToBarn(cap, st, w, st', d);
    NothingCarried(cap, st, w, st', d);
    w' := DeltaInv(cap, st, w, st', d);
  }

  lemma PreserveDetachSpare(cap: nat, st: State, w: Witness, st': State, t: ActId, c: Cpu) returns (w': Witness)
    requires Inv(cap, st, w) && StepDetachSpare(st, st', t, c)
    ensures Inv(cap, st', w') && SameObjs(w, w')
  {
    hide SameObjs, Inv, Carries, Moves, NoDup, Among, BarnInv;
    CpuFacts(cap, st, w, c);
    BarnFacts(cap, st, w);
    var d := Delta(c, t, st.pcs[c].main, MainOf(c), st.pcs[c].spare.value, InAct(t), {}, Below);
    SpareToHand(cap, st, w, st', d);
    NothingCarried(cap, st, w, st', d);
    w' := DeltaInv(cap, st, w, st', d);
  }

  lemma PreserveDetachRcu(cap: nat, st: State, w: Witness, st': State, t: ActId, c: Cpu) returns (w': Witness)
    requires Inv(cap, st, w) && StepDetachRcu(st, st', t, c)
    ensures Inv(cap, st', w') && SameObjs(w, w')
  {
    hide SameObjs, Inv, Carries, Moves, NoDup, Among, BarnInv;
    CpuFacts(cap, st, w, c);
    BarnFacts(cap, st, w);
    var f := Fresh(st.sheaves.Keys);
    var d := Delta(c, t, st.pcs[c].rcuFree.value, InAct(t), f, BarnEmpty, {}, Below);
    RcuToHand(cap, st, w, st', d);
    NothingCarried(cap, st, w, st', d);
    w' := DeltaInv(cap, st, w, st', d);
  }

  /** The barn's first full or first empty sheaf is taken into the hand. */
  lemma BarnToHand(cap: nat, st: State, w: Witness, st': State, d: Delta)
    requires Inv(cap, st, w) && HandOf(st, d.act).None? && HandOf(st', d.act) == Some(d.a) && d.pa == InAct(d.act)
    requires SlotsOf(st', d.cpu) == SlotsOf(st, d.cpu) && st'.sheaves == st.sheaves && d.b !in st.sheaves
    requires
      || (HasFull(st.barn) && d.a == st.barn.full[0] && st'.barn == TakeFull(st.barn))
      || (HasEmpty(st.barn) && d.a == st.barn.empty[0] && st'.barn == TakeEmpty(st.barn))
    ensures Moves(st, st', d) && d.a in st.sheaves && d.a in w.place && |st.sheaves[d.a]| <= cap
    ensures w.place[d.a] == BarnFull || (w.place[d.a] == BarnEmpty && |st.sheaves[d.a]| == 0)
  {
    hide SameObjs, Inv, Among, BarnInv, TakeFull, TakeEmpty;
    if d.cpu in st.pcs { CpuFacts(cap, st, w, d.cpu); }
    BarnFacts(cap, st, w);
    if HasFull(st.barn) { FullTaken(st.barn); }
    if HasEmpty(st.barn) { EmptyTaken(st.barn); }
  }

  lemma PreserveShrinkFull(cap: nat, st: State, w: Witness, st': State, t: ActId) returns (w': Witness)
    requires Inv(cap, st, w) && StepShrinkFull(st, st', t)
    ensures Inv(cap, st', w') && SameObjs(w, w')
  {
    hide SameObjs, Inv, Carries, Moves, NoDup, Among, BarnInv, TakeFull;
    BarnFacts(cap, st, w);
    var d := Idle(st, t);
    d := d.(a := st.barn.full[0], pa := InAct(t));
    FullTaken(st.barn);
    BarnToHand(cap, st, w, st', d);
    NothingCarried(cap, st, w, st', d);
    w' := DeltaInv(cap, st, w, st', d);
  }

  lemma PreserveShrinkEmpty(cap: nat, st: State, w: Witness, st': State, t: ActId) returns (w': Witness)
    requires Inv(cap, st, w) && StepShrinkEmpty(st, st', t)
    ensures Inv(cap, st', w') && SameObjs(w, w')
  {
    hide SameObjs, Inv, Carries, Moves, NoDup, Among, BarnInv, TakeEmpty;
    BarnFacts(cap, st, w);
    var d := Idle(st, t);
    d := d.(a := st.barn.empty[0], pa := InAct(t));
    EmptyTaken(st.barn);
    BarnToHand(cap, st, w, st', d);
    NothingCarried(cap, st, w, st', d);
    w' := DeltaInv(cap, st, w, st', d);
  }
}
