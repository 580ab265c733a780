/** The steps of alloc_from_pcs keep the invariant. */
module SheafAlloc {
  import opened Freelist
  import opened SheafMachine
  import opened SheafInvariant
  import opened SheafDelta
  import opened SheafPatterns

  lemma PreserveAllocEnter(cap: nat, st: State, w: Witness, st': State, t: ActId, c: Cpu, miss: bool) returns (w': Witness)
    requires Inv(cap, st, w) && StepAllocEnter(st, st', t, c, miss)
    ensures Inv(cap, st', w') && SameObjs(w, w')
  {
    hide SameObjs, Inv, Moves, Carries, NoDup, Among, PutEmpty, TakeFull, BarnInv;
    CpuFacts(cap, st, w, c);
    BarnFacts(cap, st, w);
    var p := st.pcs[c];
    var f := Fresh(st.sheaves.Keys);
    var d := Delta(c, t, p.main, MainOf(c), f, BarnEmpty, {}, Below);
    if Size(st, p.main) == 0 && p.spare.Some? && Size(st, p.spare.value) > 0 {
      d := d.(pa := SpareOf(c), b := p.spare.value, pb := MainOf(c));
      Swapped(cap, st, w, st', d);
    } else if Size(st, p.main) == 0 && HasFull(st.barn) && !miss {
      d := d.(pa := BarnEmpty, b := st.barn.full[0], pb := MainOf(c));
      FullForMain(cap, st, w, st', d);
    } else {
      NothingMoved(cap, st, w, st', d);
    }
    NothingCarried(cap, st, w, st', d);
    w' := DeltaInv(cap, st, w, st', d);
  }

  lemma PreserveHuntGiveUp(cap: nat, st: State, w: Witness, st': State, t: ActId) returns (w': Witness)
    requires Inv(cap, st, w) && StepHuntGiveUp(st, st', t)
    ensures Inv(cap, st', w') && SameObjs(w, w')
  {
    hide SameObjs, Inv, Carries, Moves, NoDup, Among, BarnInv, Elems;
    var c := st.acts[t].cpu;
    var f := Fresh(st.sheaves.Keys);
    CpuFacts(cap, st, w, c);
    BarnFacts(cap, st, w);
    var d := Delta(c, t, st.pcs[c].main, MainOf(c), f, BarnEmpty, {}, Below);
    NothingCarried(cap, st, w, st', d);
    NothingMoved(cap, st, w, st', d);
    w' := DeltaInv(cap, st, w, st', d);
  }

  lemma PreserveHuntTake(cap: nat, st: State, w: Witness, st': State, t: ActId, miss: bool) returns (w': Witness)
    requires Inv(cap, st, w) && StepHuntTake(st, st', t, miss)
    ensures Inv(cap, st', w') && SameObjs(w, w')
  {
    hide SameObjs, Inv, Carries, NoDup, Among, TakeEmpty, BarnInv;
    var c := st.acts[t].cpu;
    var f := Fresh(st.sheaves.Keys);
    CpuFacts(cap, st, w, c);
    ActFacts(cap, st, w, t);
    BarnFacts(cap, st, w);
    var p := st.pcs[c];
    var d := Delta(c, t, p.main, MainOf(c), f, BarnEmpty, {}, Below);
    if p.spare.Some? {
      d := d.(b := p.spare.value, pb := InAct(t));
    } else if HasEmpty(st.barn) && !miss {
      d := d.(b := st.barn.empty[0], pb := InAct(t));
      EmptyTaken(st.barn);
    }
    NothingCarried(cap, st, w, st', d);
    w' := DeltaInv(cap, st, w, st', d);
  }

  lemma PreserveNewSheaf(cap: nat, st: State, w: Witness, st': State, t: ActId, e: SheafId) returns (w': Witness)
    requires Inv(cap, st, w) && StepNewSheaf(st, st', t, e)
    ensures Inv(cap, st', w') && SameObjs(w, w')
  {
    hide SameObjs, Inv, Carries, NoDup, Among, BarnInv;
    var c := Fresh(st.pcs.Keys);
    var f := Fresh(st.sheaves.Keys + {e});
    ActFacts(cap, st, w, t);
    BarnFacts(cap, st, w);
    var d := Delta(c, t, e, InAct(t), f, BarnEmpty, {}, Below);
    NothingCarried(cap, st, w, st', d);
    w' := DeltaInv(cap, st, w, st', d);
  }

  lemma PreserveNewSheafFails(cap: nat, st: State, w: Witness, st': State, t: ActId) returns (w': Witness)
    requires Inv(cap, st, w) && StepNewSheafFails(st, st', t)
    ensures Inv(cap, st', w') && SameObjs(w, w')
  {
    hide SameObjs, Inv, Carries, Moves, NoDup, Among, BarnInv, Elems;
    var d := Idle(st, t);
    ActFacts(cap, st, w, t);
    BarnFacts(cap, st, w);
    NothingCarried(cap, st, w, st', d);
    NothingMoved(cap, st, w, st', d);
    w' := DeltaInv(cap, st, w, st', d);
  }

  lemma PreserveRefillOne(cap: nat, st: State, w: Witness, st': State, t: ActId, o: Obj) returns (w': Witness)
    requires Inv(cap, st, w) && StepRefillOne(cap, st, st', t, o)
    ensures Inv(cap, st', w') && SameObjs(w, w')
  {
    hide SameObjs, Inv, Carries, Moves, NoDup, Among, BarnInv, Elems;
    var c := Fresh(st.pcs.Keys);
    var f := Fresh(st.sheaves.Keys);
    ActFacts(cap, st, w, t);
    BarnFacts(cap, st, w);
    var d := Delta(c, t, st.acts[t].sheaf, InAct(t), f, BarnEmpty, {o}, Carried(t));
    Single(o);
    SetToHand(cap, st, w, st', d, Below, [o]);
    NothingMoved(cap, st, w, st', d);
    w' := DeltaInv(cap, st, w, st', d);
  }

  lemma PreserveRefillDone(cap: nat, st: State, w: Witness, st': State, t: ActId) returns (w': Witness)
    requires Inv(cap, st, w) && StepRefillDone(cap, st, st', t)
    ensures Inv(cap, st', w') && SameObjs(w, w')
  {
    hide SameObjs, Inv, Carries, Moves, NoDup, Among, BarnInv, Elems;
    var c := Fresh(st.pcs.Keys);
    var f := Fresh(st.sheaves.Keys);
    ActFacts(cap, st, w, t);
    BarnFacts(cap, st, w);
    var e, got := st.acts[t].sheaf, st.acts[t].got;
    var d := Delta(c, t, e, InAct(t), f, BarnEmpty, Elems(got), InSheaf(e));
    HandToSheaf(cap, st, w, st', d, got);
    NothingMoved(cap, st, w, st', d);
    w' := DeltaInv(cap, st, w, st', d);
  }

  lemma PreserveRefillFails(cap: nat, st: State, w: Witness, st': State, t: ActId) returns (w': Witness)
    requires Inv(cap, st, w) && StepRefillFails(st, st', t)
    ensures Inv(cap, st', w') && SameObjs(w, w')
  {
    hide SameObjs, Inv, Carries, Moves, NoDup, Among, BarnInv, Elems;
    var c := Fresh(st.pcs.Keys);
    var f := Fresh(st.sheaves.Keys);
    ActFacts(cap, st, w, t);
    BarnFacts(cap, st, w);
    var e, got := st.acts[t].sheaf, st.acts[t].got;
    var d := Delta(c, t, e, InAct(t), f, BarnEmpty, Elems(got), Below);
    HandToSet(cap, st, w, st', d, got);
    NothingMoved(cap, st, w, st', d);
    w' := DeltaInv(cap, st, w, st', d);
  }

  lemma PreserveRelock(cap: nat, st: State, w: Witness, st': State, t: ActId, c: Cpu) returns (w': Witness)
    requires Inv(cap, st, w) && StepRelock(st, st', t, c)
    ensures Inv(cap, st', w') && SameObjs(w, w')
  {
    hide SameObjs, Inv, Moves, Carries, NoDup, Among, PutEmpty, PutFullTo, BarnInv;
    CpuFacts(cap, st, w, c);
    ActFacts(cap, st, w, t);
    BarnFacts(cap, st, w);
    var p, e := st.pcs[c], st.acts[t].sheaf;
    var d := Delta(c, t, e, MainOf(c), p.main, MainOf(c), {}, Below);
    if Size(st, p.main) == 0 {
      d := d.(pb := BarnEmpty);
      HandForMain(cap, st, w, st', d);
    } else if p.spare.None? || Size(st, p.spare.value) == 0 {
      var f := Fresh(st.sheaves.Keys);
      d := Delta(c, t, e, SpareOf(c), if p.spare.Some? then p.spare.value else f, BarnEmpty, {}, Below);
      RelockSpare(cap, st, w, st', d);
    } else {
      d := d.(pa := BarnFull);
      HandToBarn(cap, st, w, st', d);
    }
    NothingCarried(cap, st, w, st', d);
    w' := DeltaInv(cap, st, w, st', d);
  }

  /** The full sheaf becomes the spare; an empty spare goes to the barn. */
  lemma RelockSpare(cap: nat, st: State, w: Witness, st': State, d: Delta)
    requires Inv(cap, st, w) && StepRelock(st, st', d.act, d.cpu) && Size(st, st.pcs[d.cpu].main) > 0
    requires d.a == st.acts[d.act].sheaf && d.pa == SpareOf(d.cpu) && d.pb == BarnEmpty
    requires if st.pcs[d.cpu].spare.None? then d.b !in st.sheaves
             else d.b == st.pcs[d.cpu].spare.value && Size(st, d.b) == 0
    ensures Moves(st, st', d)
  {
    hide SameObjs, Inv, Among, BarnInv, PutEmpty, PutFullTo;
    CpuFacts(cap, st, w, d.cpu);
    BarnFacts(cap, st, w);
    ActFacts(cap, st, w, d.act);
    if st.pcs[d.cpu].spare.Some? { EmptyPut(st.barn, d.b); }
  }

  lemma PreservePopObject(cap: nat, st: State, w: Witness, st': State, t: ActId) returns (w': Witness)
    requires Inv(cap, st, w) && StepPopObject(st, st', t)
    ensures Inv(cap, st', w') && SameObjs(w, w')
  {
    hide SameObjs, Inv, Carries, Moves, NoDup, Among, BarnInv, Elems;
    var c := st.acts[t].cpu;
    var f := Fresh(st.sheaves.Keys);
    CpuFacts(cap, st, w, c);
    BarnFacts(cap, st, w);
    var m := st.pcs[c].main;
    var l := st.sheaves[m];
    var d := Delta(c, t, m, MainOf(c), f, BarnEmpty, {Last(l)}, Callers);
    SheafToCaller(cap, st, w, st', d);
    NothingMoved(cap, st, w, st', d);
    w' := DeltaInv(cap, st, w, st', d);
  }
}
