/** The steps of free_to_pcs and sheaf_flush_main keep the invariant. */
module SheafFree {
  import opened Freelist
  import opened SheafMachine
  import opened SheafInvariant
  import opened SheafDelta
  import opened SheafPatterns

  lemma PreserveFreeDirect(cap: nat, st: State, w: Witness, st': State, o: Obj) returns (w': Witness)
    requires Inv(cap, st, w) && StepFreeDirect(st, st', o)
    ensures Inv(cap, st', w') && SameObjs(w, w')
  {
    hide SameObjs, Inv, Carries, Moves, NoDup, Among, BarnInv, Elems;
    var t := Fresh(st.acts.Keys);
    var d := Idle(st, t);
    d := d.(objs := {o}, to := Below);
    BarnFacts(cap, st, w);
    ObjFacts(cap, st, w);
    Single(o);
    ObjsCarried(cap, st, w, st', d, Callers, [o]);
    NothingMoved(cap, st, w, st', d);
    w' := DeltaInv(cap, st, w, st', d);
  }

  lemma PreserveFreeEnter(cap: nat, st: State, w: Witness, st': State, t: ActId, c: Cpu, o: Obj) returns (w': Witness)
    requires Inv(cap, st, w) && StepFreeEnter(cap, st, st', t, c, o)
    ensures Inv(cap, st', w') && SameObjs(w, w')
  {
    hide SameObjs, Inv, Carries, Moves, NoDup, Among, BarnInv, Elems;
    CpuFacts(cap, st, w, c);
    BarnFacts(cap, st, w);
    var f := Fresh(st.sheaves.Keys);
    var d := Delta(c, t, st.pcs[c].main, MainOf(c), f, BarnEmpty, {o}, Carried(t));
    Single(o);
    SetToHand(cap, st, w, st', d, Callers, [o]);
    NothingMoved(cap, st, w, st', d);
    w' := DeltaInv(cap, st, w, st', d);
  }

  lemma PreserveReplaceFull(cap: nat, st: State, w: Witness, st': State, t: ActId, r: Outcome) returns (w': Witness)
    requires Inv(cap, st, w) && StepReplaceFull(cap, st, st', t, r)
    ensures Inv(cap, st', w') && SameObjs(w, w')
  {
    hide SameObjs, Inv, Carries, Moves, NoDup, Among, BarnInv, PutFullTo, TakeEmpty;
    var c := st.acts[t].cpu;
    var p := st.pcs[c];
    CpuFacts(cap, st, w, c);
    ActFacts(cap, st, w, t);
    BarnFacts(cap, st, w);
    var f := Fresh(st.sheaves.Keys);
    var d := Delta(c, t, p.main, MainOf(c), f, BarnEmpty, {}, Below);
    if p.spare.None? && r.Got? && HasEmpty(st.barn) {
      d := d.(pa := SpareOf(c), b := st.barn.empty[0], pb := MainOf(c));
      MainToSpare(cap, st, w, st', d);
    } else if p.spare.Some? && Size(st, p.spare.value) < cap {
      d := d.(pa := SpareOf(c), b := p.spare.value, pb := MainOf(c));
      Swapped(cap, st, w, st', d);
    } else if p.spare.Some? && r.Got? && HasEmpty(st.barn) {
      d := d.(pa := BarnFull, b := st.barn.empty[0], pb := MainOf(c));
      EmptyForMain(cap, st, w, st', d);
    } else {
      w' := ReplaceFullLater(cap, st, w, st', t);
      return;
    }
    NothingCarried(cap, st, w, st', d);
    w' := DeltaInv(cap, st, w, st', d);
  }

  /** Unlock, perhaps with the spare in hand. */
  lemma ReplaceFullLater(cap: nat, st: State, w: Witness, st': State, t: ActId) returns (w': Witness)
    requires Inv(cap, st, w) && t in st.acts && st.acts[t].FullMain? && Locked(st, st.acts[t].cpu, t)
    requires var c, o := st.acts[t].cpu, st.acts[t].obj;
      var p := st.pcs[c];
      || (&& p.spare.Some?
          && st' == st.(pcs := st.pcs[c := p.(spare := None, lock := None)], acts := st.acts[t := FlushSpare(p.spare.value, o)]))
      || st' == st.(pcs := st.pcs[c := p.(lock := None)], acts := st.acts[t := NeedEmpty(o)])
    ensures Inv(cap, st', w') && SameObjs(w, w')
  {
    hide SameObjs, Inv, Carries, Moves, NoDup, Among, BarnInv;
    var c := st.acts[t].cpu;
    var p := st.pcs[c];
    CpuFacts(cap, st, w, c);
    BarnFacts(cap, st, w);
    var f := Fresh(st.sheaves.Keys);
    var d := Delta(c, t, p.main, MainOf(c), f, BarnEmpty, {}, Below);
    if st'.acts[t].FlushSpare? {
      d := d.(b := p.spare.value, pb := InAct(t));
      SpareToHand(cap, st, w, st', d);
    } else {
      NothingMoved(cap, st, w, st', d);
    }
    NothingCarried(cap, st, w, st', d);
    w' := DeltaInv(cap, st, w, st', d);
  }

  lemma PreserveSpareFlushed(cap: nat, st: State, w: Witness, st': State, t: ActId) returns (w': Witness)
    requires Inv(cap, st, w) && StepSpareFlushed(st, st', t)
    ensures Inv(cap, st', w') && SameObjs(w, w')
  {
    hide SameObjs, Inv, Carries, Moves, NoDup, Among, BarnInv, Elems;
    var e := st.acts[t].sheaf;
    ActFacts(cap, st, w, t);
    BarnFacts(cap, st, w);
    var d := Idle(st, t);
    d := d.(a := e, pa := InAct(t), objs := Elems(st.sheaves[e]), to := Below);
    SheafToBelow(cap, st, w, st', d);
    NothingMoved(cap, st, w, st', d);
    w' := DeltaInv(cap, st, w, st', d);
  }

  lemma PreserveNewEmptyFails(cap: nat, st: State, w: Witness, st': State, t: ActId) returns (w': Witness)
    requires Inv(cap, st, w) && StepNewEmptyFails(st, st', t)
    ensures Inv(cap, st', w') && SameObjs(w, w')
  {
    hide SameObjs, Inv, Carries, Moves, NoDup, Among, BarnInv;
    var d := Idle(st, t);
    BarnFacts(cap, st, w);
    assert LoadOf(st', t) == LoadOf(st, t);
    NothingCarried(cap, st, w, st', d);
    NothingMoved(cap, st, w, st', d);
    w' := DeltaInv(cap, st, w, st', d);
  }

  lemma PreserveInstall(cap: nat, st: State, w: Witness, st': State, t: ActId, c: Cpu) returns (w': Witness)
    requires Inv(cap, st, w) && StepInstall(cap, st, st', t, c)
    ensures Inv(cap, st', w') && SameObjs(w, w')
  {
    hide SameObjs, Inv, Carries, Moves, NoDup, Among, BarnInv, PutEmpty, PutFullTo;
    CpuFacts(cap, st, w, c);
    ActFacts(cap, st, w, t);
    BarnFacts(cap, st, w);
    var p, e := st.pcs[c], st.acts[t].sheaf;
    var d := Delta(c, t, e, BarnEmpty, p.main, MainOf(c), {}, Below);
    if p.spare.None? {
      d := d.(pa := MainOf(c), pb := SpareOf(c));
      InstallSpare(cap, st, w, st', d);
    } else if Size(st, p.main) < cap {
      HandToBarn(cap, st, w, st', d);
    } else if Size(st, p.spare.value) < cap {
      w' := InstallSwap(cap, st, w, st', t, c);
      return;
    } else {
      d := d.(pa := MainOf(c), pb := BarnFull);
      HandForMain(cap, st, w, st', d);
    }
    NothingCarried(cap, st, w, st', d);
    w' := DeltaInv(cap, st, w, st', d);
  }

  /** The main sheaf becomes the spare, the sheaf in hand the main. */
  lemma InstallSpare(cap: nat, st: State, w: Witness, st': State, d: Delta)
    requires Inv(cap, st, w) && StepInstall(cap, st, st', d.act, d.cpu) && st.pcs[d.cpu].spare.None?
    requires d.a == st.acts[d.act].sheaf && d.pa == MainOf(d.cpu) && d.b == st.pcs[d.cpu].main && d.pb == SpareOf(d.cpu)
    ensures Moves(st, st', d)
  {
    hide SameObjs, Inv, Among, BarnInv;
    CpuFacts(cap, st, w, d.cpu);
    BarnFacts(cap, st, w);
    ActFacts(cap, st, w, d.act);
  }

  /** Three sheaves change owner: first the sheaf in hand goes to the barn, then main and spare change places. */
  lemma InstallSwap(cap: nat, st: State, w: Witness, st': State, t: ActId, c: Cpu) returns (w': Witness)
    requires Inv(cap, st, w) && StepInstall(cap, st, st', t, c) && st.pcs[c].spare.Some?
    requires Size(st, st.pcs[c].main) >= cap && Size(st, st.pcs[c].spare.value) < cap
    ensures Inv(cap, st', w') && SameObjs(w, w')
  {
    hide SameObjs, Inv, Carries, Moves, NoDup, Among, BarnInv, PutEmpty;
    CpuFacts(cap, st, w, c);
    ActFacts(cap, st, w, t);
    BarnFacts(cap, st, w);
    var e, o := st.acts[t].sheaf, st.acts[t].obj;
    var mid := st.(barn := PutEmpty(st.barn, e), pcs := st.pcs[c := st.pcs[c].(lock := Some(t))], acts := st.acts[t := FullMain(c, o)]);
    var d := Delta(c, t, e, BarnEmpty, st.pcs[c].main, MainOf(c), {}, Below);
    HandToBarn(cap, st, w, mid, d);
    NothingCarried(cap, st, w, mid, d);
    var u := DeltaInv(cap, st, w, mid, d);
    assert StepReplaceFull(cap, mid, st', t, NoSheaf);
    w' := PreserveReplaceFull(cap, mid, u, st', t, NoSheaf);
    SameObjsTrans(w, u, w');
  }

  lemma PreserveInstallFails(cap: nat, st: State, w: Witness, st': State, t: ActId) returns (w': Witness)
    requires Inv(cap, st, w) && StepInstallFails(st, st', t)
    ensures Inv(cap, st', w') && SameObjs(w, w')
  {
    hide SameObjs, Inv, Carries, Moves, NoDup, Among, BarnInv, Elems, PutEmpty;
    var e, o := st.acts[t].sheaf, st.acts[t].obj;
    ActFacts(cap, st, w, t);
    BarnFacts(cap, st, w);
    var d := Idle(st, t);
    d := d.(a := e, pa := BarnEmpty, objs := {o}, to := Below);
    Single(o);
    HandToSet(cap, st, w, st', d, [o]);
    HandToBarn(cap, st, w, st', d);
    w' := DeltaInv(cap, st, w, st', d);
  }

  lemma PreservePushObject(cap: nat, st: State, w: Witness, st': State, t: ActId) returns (w': Witness)
    requires Inv(cap, st, w) && StepPushObject(st, st', t)
    ensures Inv(cap, st', w') && SameObjs(w, w')
  {
    hide SameObjs, Inv, Carries, Moves, NoDup, Among, BarnInv, Elems;
    var c, o := st.acts[t].cpu, st.acts[t].obj;
    var f := Fresh(st.sheaves.Keys);
    CpuFacts(cap, st, w, c);
    ActFacts(cap, st, w, t);
    BarnFacts(cap, st, w);
    var m := st.pcs[c].main;
    var d := Delta(c, t, m, MainOf(c), f, BarnEmpty, {o}, InSheaf(m));
    Single(o);
    HandToSheaf(cap, st, w, st', d, [o]);
    NothingMoved(cap, st, w, st', d);
    w' := DeltaInv(cap, st, w, st', d);
  }

  lemma PreserveFlushStart(cap: nat, st: State, w: Witness, st': State, t: ActId) returns (w': Witness)
    requires Inv(cap, st, w) && StepFlushStart(st, st', t)
    ensures Inv(cap, st', w') && SameObjs(w, w')
  {
    hide SameObjs, Inv, Carries, Moves, NoDup, Among, BarnInv;
    var d := Idle(st, t);
    BarnFacts(cap, st, w);
    NothingCarried(cap, st, w, st', d);
    NothingMoved(cap, st, w, st', d);
    w' := DeltaInv(cap, st, w, st', d);
  }

  lemma PreserveFlushTake(cap: nat, st: State, w: Witness, st': State, t: ActId, c: Cpu) returns (w': Witness)
    requires Inv(cap, st, w) && StepFlushTake(st, st', t, c)
    ensures Inv(cap, st', w') && SameObjs(w, w')
  {
    hide SameObjs, Inv, Carries, Moves, NoDup, Among, BarnInv, Elems;
    var m := st.pcs[c].main;
    var l := st.sheaves[m];
    var n := if |l| < PCS_BATCH_MAX then |l| else PCS_BATCH_MAX;
    var f := Fresh(st.sheaves.Keys);
    CpuFacts(cap, st, w, c);
    BarnFacts(cap, st, w);
    var d := Delta(c, t, m, MainOf(c), f, BarnEmpty, Elems(l[|l| - n..]), Carried(t));
    SheafToHand(cap, st, w, st', d, l[|l| - n..]);
    NothingMoved(cap, st, w, st', d);
    w' := DeltaInv(cap, st, w, st', d);
  }

  lemma PreserveFlushBatch(cap: nat, st: State, w: Witness, st': State, t: ActId) returns (w': Witness)
    requires Inv(cap, st, w) && StepFlushBatch(st, st', t)
    ensures Inv(cap, st', w') && SameObjs(w, w')
  {
    hide SameObjs, Inv, Carries, Moves, NoDup, Among, BarnInv, Elems;
    var l := st.acts[t].batch;
    ActFacts(cap, st, w, t);
    BarnFacts(cap, st, w);
    var d := Idle(st, t);
    d := d.(objs := Elems(l), to := Below);
    HandToSet(cap, st, w, st', d, l);
    NothingMoved(cap, st, w, st', d);
    w' := DeltaInv(cap, st, w, st', d);
  }

  lemma PreserveFlushStop(cap: nat, st: State, w: Witness, st': State, t: ActId) returns (w': Witness)
    requires Inv(cap, st, w) && StepFlushStop(st, st', t)
    ensures Inv(cap, st', w') && SameObjs(w, w')
  {
    hide SameObjs, Inv, Carries, Moves, NoDup, Among, BarnInv, Elems;
    ActFacts(cap, st, w, t);
    BarnFacts(cap, st, w);
    var d := Idle(st, t);
    var l := LoadOf(st, t);
    d := d.(objs := Elems(l), to := Below);
    HandToSet(cap, st, w, st', d, l);
    NothingMoved(cap, st, w, st', d);
    w' := DeltaInv(cap, st, w, st', d);
  }

  lemma PreserveFlushResume(cap: nat, st: State, w: Witness, st': State, t: ActId, c: Cpu) returns (w': Witness)
    requires Inv(cap, st, w) && StepFlushResume(cap, st, st', t, c)
    ensures Inv(cap, st', w') && SameObjs(w, w')
  {
    hide SameObjs, Inv, Carries, Moves, NoDup, Among, BarnInv;
    CpuFacts(cap, st, w, c);
    BarnFacts(cap, st, w);
    var f := Fresh(st.sheaves.Keys);
    var d := Delta(c, t, st.pcs[c].main, MainOf(c), f, BarnEmpty, {}, Below);
    assert LoadOf(st', t) == LoadOf(st, t);
    NothingCarried(cap, st, w, st', d);
    NothingMoved(cap, st, w, st', d);
    w' := DeltaInv(cap, st, w, st', d);
  }
}
