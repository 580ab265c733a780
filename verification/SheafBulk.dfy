/** Prefilled sheaves, bulk allocation and bulk free keep the invariant. */
module SheafBulk {
  import opened Freelist
  import opened SheafMachine
  import opened SheafInvariant
  import opened SheafDelta
  import opened SheafPatterns
  import opened SheafRcu

  lemma PreservePrefillEnter(cap: nat, st: State, w: Witness, st': State, t: ActId, c: Cpu, size: nat, miss: bool) returns (w': Witness)
    requires Inv(cap, st, w) && StepPrefillEnter(cap, st, st', t, c, size, miss)
    ensures Inv(cap, st', w') && SameObjs(w, w')
  {
    hide SameObjs, Inv, Carries, Moves, NoDup, Among, BarnInv, TakeFull, TakeEmpty;
    CpuFacts(cap, st, w, c);
    BarnFacts(cap, st, w);
    var d := Idle(st, t);
    if st.pcs[c].spare.Some? {
      d := Delta(c, t, st.pcs[c].main, MainOf(c), st.pcs[c].spare.value, InAct(t), {}, Below);
      SpareToHand(cap, st, w, st', d);
    } else if HasFull(st.barn) && !miss {
      w' := PrefillBarn(cap, st, w, st', t, st.barn.full[0], size);
      return;
    } else if HasEmpty(st.barn) && !miss {
      w' := PrefillBarn(cap, st, w, st', t, st.barn.empty[0], size);
      return;
    } else {
      NothingMoved(cap, st, w, st', d);
    }
    NothingCarried(cap, st, w, st', d);
    w' := DeltaInv(cap, st, w, st', d);
  }

  lemma PrefillBarn(cap: nat, st: State, w: Witness, st': State, t: ActId, e: SheafId, size: nat) returns (w': Witness)
    requires Inv(cap, st, w) && t !in st.acts
    requires
      || (HasFull(st.barn) && e == st.barn.full[0] && st' == st.(barn := TakeFull(st.barn), acts := st.acts[t := PrefillHave(e, size)]))
      || (HasEmpty(st.barn) && e == st.barn.empty[0] && st' == st.(barn := TakeEmpty(st.barn), acts := st.acts[t := PrefillHave(e, size)]))
    ensures Inv(cap, st', w') && SameObjs(w, w')
  {
    hide SameObjs, Inv, Carries, Moves, NoDup, Among, BarnInv, TakeFull, TakeEmpty;
    BarnFacts(cap, st, w);
    if HasFull(st.barn) { FullTaken(st.barn); }
    if HasEmpty(st.barn) { EmptyTaken(st.barn); }
    var d := Idle(st, t);
    d := d.(a := e, pa := InAct(t));
    BarnToHand(cap, st, w, st', d);
    NothingCarried(cap, st, w, st', d);
    w' := DeltaInv(cap, st, w, st', d);
  }

  lemma PreservePrefillCheck(cap: nat, st: State, w: Witness, st': State, t: ActId) returns (w': Witness)
    requires Inv(cap, st, w) && StepPrefillCheck(st, st', t)
    ensures Inv(cap, st', w') && SameObjs(w, w')
  {
    hide SameObjs, Inv, Carries, Moves, NoDup, Among, BarnInv;
    ActFacts(cap, st, w, t);
    BarnFacts(cap, st, w);
    var d := Idle(st, t);
    d := d.(a := st.acts[t].sheaf, pa := InAct(t));
    NothingMoved(cap, st, w, st', d);
    NothingCarried(cap, st, w, st', d);
    w' := DeltaInv(cap, st, w, st', d);
  }

  lemma PreserveSheafAlloc(cap: nat, st: State, w: Witness, st': State, t: ActId) returns (w': Witness)
    requires Inv(cap, st, w) && StepSheafAlloc(st, st', t)
    ensures Inv(cap, st', w') && SameObjs(w, w')
  {
    hide SameObjs, Inv, Carries, Moves, NoDup, Among, BarnInv, Elems;
    var e := st.acts[t].sheaf;
    var l := st.sheaves[e];
    ActFacts(cap, st, w, t);
    BarnFacts(cap, st, w);
    var d := Idle(st, t);
    d := d.(a := e, pa := InAct(t), objs := {Last(l)}, to := Callers);
    SheafToCaller(cap, st, w, st', d);
    NothingMoved(cap, st, w, st', d);
    w' := DeltaInv(cap, st, w, st', d);
  }

  lemma PreserveReturnSheaf(cap: nat, st: State, w: Witness, st': State, t: ActId, c: Cpu, tooMany: bool) returns (w': Witness)
    requires Inv(cap, st, w) && StepReturnSheaf(st, st', t, c, tooMany)
    ensures Inv(cap, st', w') && SameObjs(w, w')
  {
    hide SameObjs, Inv, Carries, Moves, NoDup, Among, BarnInv;
    CpuFacts(cap, st, w, c);
    ActFacts(cap, st, w, t);
    BarnFacts(cap, st, w);
    var f := Fresh(st.sheaves.Keys);
    var d := Delta(c, t, st.acts[t].sheaf, SpareOf(c), f, BarnEmpty, {}, Below);
    if st.pcs[c].spare.None? {
      HandToSlot(cap, st, w, st', d);
    } else {
      d := d.(pa := InAct(t));
      NothingMoved(cap, st, w, st', d);
    }
    NothingCarried(cap, st, w, st', d);
    w' := DeltaInv(cap, st, w, st', d);
  }

  lemma PreserveBulkAllocEnter(cap: nat, st: State, w: Witness, st': State, t: ActId, want: nat) returns (w': Witness)
    requires Inv(cap, st, w) && StepBulkAllocEnter(st, st', t, want)
    ensures Inv(cap, st', w') && SameObjs(w, w')
  {
    hide SameObjs, Inv, Carries, Moves, NoDup, Among, BarnInv;
    BarnFacts(cap, st, w);
    var d := Idle(st, t);
    NothingMoved(cap, st, w, st', d);
    NothingCarried(cap, st, w, st', d);
    w' := DeltaInv(cap, st, w, st', d);
  }

  /** Main and spare, or main and a sheaf of the barn, change places; nothing else happens. */
  lemma Rearranged(cap: nat, st: State, w: Witness, mid: State, p: Pcs, barn: Barn, d: Delta) returns (w': Witness)
    requires Inv(cap, st, w) && Unlocked(st, d.cpu) && d.act in st.acts && (st.acts[d.act].BulkAlloc? || st.acts[d.act].BulkFree?)
    requires d.objs == {} && d.a == st.pcs[d.cpu].main && d.pb == MainOf(d.cpu) && Moves(st, mid, d)
    requires d.b in st.sheaves && d.b in w.place && Near(w.place[d.b], d)
    requires SizeFits(cap, d.pa, Size(st, d.a)) && SizeFits(cap, d.pb, Size(st, d.b))
    requires mid == st.(pcs := st.pcs[d.cpu := p], barn := barn) && p.lock.None?
    ensures Inv(cap, mid, w') && SameObjs(w, w')
  {
    hide SameObjs, Inv, Carries, Moves, NoDup, Among, BarnInv;
    CpuFacts(cap, st, w, d.cpu);
    ActFacts(cap, st, w, d.act);
    NothingCarried(cap, st, w, mid, d);
    w' := DeltaInv(cap, st, w, mid, d);
  }

  /** A batch from the end of the main sheaf. */
  lemma BatchTaken(cap: nat, st: State, w: Witness, st': State, t: ActId, c: Cpu) returns (w': Witness)
    requires Inv(cap, st, w) && Unlocked(st, c) && t in st.acts && st.acts[t].BulkAlloc? && |st.acts[t].got| < st.acts[t].want
    requires BatchOut(st, st', t, c, st.pcs[c], st.barn)
    ensures Inv(cap, st', w') && SameObjs(w, w')
  {
    hide SameObjs, Inv, NoDup, BatchOut;
    CpuFacts(cap, st, w, c);
    var keep, batch := BatchShape(st, st', t, c);
    w' := BatchMoved(cap, st, w, st', t, c, keep, batch);
  }

  lemma BatchShape(st: State, st': State, t: ActId, c: Cpu) returns (keep: seq<Obj>, batch: seq<Obj>)
    requires c in st.pcs && st.pcs[c].main in st.sheaves && t in st.acts && st.acts[t].BulkAlloc? && |st.acts[t].got| < st.acts[t].want
    requires BatchOut(st, st', t, c, st.pcs[c], st.barn)
    ensures st.sheaves[st.pcs[c].main] == keep + batch && |st.acts[t].got| + |batch| <= st.acts[t].want
    ensures st' == st.(sheaves := st.sheaves[st.pcs[c].main := keep],
                       acts := st.acts[t := BulkAlloc(st.acts[t].want, st.acts[t].got + batch)])
  {
    var l := st.sheaves[st.pcs[c].main];
    var left := st.acts[t].want - |st.acts[t].got|;
    var n := if |l| < left then |l| else left;
    keep, batch := l[..|l| - n], l[|l| - n..];
    assert st.pcs[c := st.pcs[c]] == st.pcs;
  }

  lemma BatchMoved(cap: nat, st: State, w: Witness, st': State, t: ActId, c: Cpu, keep: seq<Obj>, batch: seq<Obj>) returns (w': Witness)
    requires Inv(cap, st, w) && Unlocked(st, c) && t in st.acts && st.acts[t].BulkAlloc? && st.sheaves[st.pcs[c].main] == keep + batch
    requires |st.acts[t].got| + |batch| <= st.acts[t].want
    requires st' == st.(sheaves := st.sheaves[st.pcs[c].main := keep],
                        acts := st.acts[t := BulkAlloc(st.acts[t].want, st.acts[t].got + batch)])
    ensures Inv(cap, st', w') && SameObjs(w, w')
  {
    hide SameObjs, Inv, Carries, Moves, NoDup, Among, BarnInv, Elems;
    CpuFacts(cap, st, w, c);
    BarnFacts(cap, st, w);
    var f := Fresh(st.sheaves.Keys);
    var d := Delta(c, t, st.pcs[c].main, MainOf(c), f, BarnEmpty, Elems(batch), Carried(t));
    SheafToHand(cap, st, w, st', d, batch);
    NothingMoved(cap, st, w, st', d);
    w' := DeltaInv(cap, st, w, st', d);
  }

  lemma PreserveBulkAllocSheaf(cap: nat, st: State, w: Witness, st': State, t: ActId, c: Cpu, miss: bool) returns (w': Witness)
    requires Inv(cap, st, w) && StepBulkAllocSheaf(st, st', t, c, miss)
    ensures Inv(cap, st', w') && SameObjs(w, w')
  {
    hide SameObjs, Inv, Carries, Moves, NoDup, Among, BarnInv, PutEmpty, TakeFull;
    CpuFacts(cap, st, w, c);
    BarnFacts(cap, st, w);
    var p := st.pcs[c];
    if Size(st, p.main) > 0 {
      w' := BatchTaken(cap, st, w, st', t, c);
    } else if p.spare.Some? && Size(st, p.spare.value) > 0 {
      var mid := st.(pcs := st.pcs[c := Swap(p)]);
      var d := Delta(c, t, p.main, SpareOf(c), p.spare.value, MainOf(c), {}, Below);
      Swapped(cap, st, w, mid, d);
      var u := Rearranged(cap, st, w, mid, mid.pcs[c], mid.barn, d);
      assert BatchOut(mid, st', t, c, mid.pcs[c], mid.barn);
      w' := BatchTaken(cap, mid, u, st', t, c);
      SameObjsTrans(w, u, w');
    } else if HasFull(st.barn) && !miss {
      FullTaken(st.barn);
      var mid := st.(pcs := st.pcs[c := p.(main := st.barn.full[0])], barn := PutEmpty(TakeFull(st.barn), p.main));
      var d := Delta(c, t, p.main, BarnEmpty, st.barn.full[0], MainOf(c), {}, Below);
      FullForMain(cap, st, w, mid, d);
      var u := Rearranged(cap, st, w, mid, mid.pcs[c], mid.barn, d);
      assert BatchOut(mid, st', t, c, mid.pcs[c], mid.barn);
      w' := BatchTaken(cap, mid, u, st', t, c);
      SameObjsTrans(w, u, w');
    } else {
      w' := PreserveBulkAllocNoLock(cap, st, w, st', t);
    }
  }

  lemma PreserveBulkAllocNoLock(cap: nat, st: State, w: Witness, st': State, t: ActId) returns (w': Witness)
    requires Inv(cap, st, w) && StepBulkAllocNoLock(st, st', t)
    ensures Inv(cap, st', w') && SameObjs(w, w')
  {
    hide SameObjs, Inv, Carries, Moves, NoDup, Among, BarnInv;
    BarnFacts(cap, st, w);
    var d := Idle(st, t);
    NothingMoved(cap, st, w, st', d);
    NothingCarried(cap, st, w, st', d);
    w' := DeltaInv(cap, st, w, st', d);
  }

  lemma PreserveBulkAllocOne(cap: nat, st: State, w: Witness, st': State, t: ActId, o: Obj) returns (w': Witness)
    requires Inv(cap, st, w) && StepBulkAllocOne(st, st', t, o)
    ensures Inv(cap, st', w') && SameObjs(w, w')
  {
    hide SameObjs, Inv, Carries, Moves, NoDup, Among, BarnInv, Elems;
    BarnFacts(cap, st, w);
    Single(o);
    var d := Idle(st, t);
    d := d.(objs := {o}, to := Carried(t));
    SetToHand(cap, st, w, st', d, Below, [o]);
    NothingMoved(cap, st, w, st', d);
    w' := DeltaInv(cap, st, w, st', d);
  }

  lemma PreserveBulkAllocDone(cap: nat, st: State, w: Witness, st': State, t: ActId) returns (w': Witness)
    requires Inv(cap, st, w) && StepBulkAllocDone(st, st', t)
    ensures Inv(cap, st', w') && SameObjs(w, w')
  {
    hide SameObjs, Inv, Carries, Moves, NoDup, Among, BarnInv, Elems;
    w' := HandedOver(cap, st, w, st', t, st.acts[t].got, Callers);
  }

  lemma PreserveBulkAllocFails(cap: nat, st: State, w: Witness, st': State, t: ActId) returns (w': Witness)
    requires Inv(cap, st, w) && StepBulkAllocFails(st, st', t)
    ensures Inv(cap, st', w') && SameObjs(w, w')
  {
    hide SameObjs, Inv, Carries, Moves, NoDup, Among, BarnInv, Elems;
    w' := HandedOver(cap, st, w, st', t, st.acts[t].got, Below);
  }

  lemma PreserveBulkFreeSlabs(cap: nat, st: State, w: Witness, st': State, t: ActId) returns (w': Witness)
    requires Inv(cap, st, w) && StepBulkFreeSlabs(st, st', t)
    ensures Inv(cap, st', w') && SameObjs(w, w')
  {
    hide SameObjs, Inv, Carries, Moves, NoDup, Among, BarnInv, Elems;
    w' := HandedOver(cap, st, w, st', t, st.acts[t].rest, Below);
  }

  /** An activation without a sheaf hands over all its objects, and ends or frees on with none. */
  lemma HandedOver(cap: nat, st: State, w: Witness, st': State, t: ActId, l: seq<Obj>, to: Holder) returns (w': Witness)
    requires Inv(cap, st, w) && t in st.acts && Load(st.acts[t]) == l && Hand(st.acts[t]).None? && LockOf(st.acts[t]).None?
    requires to == Below || to == Callers
    requires var s := if to == Below then st.(below := st.below + Elems(l)) else st.(callers := st.callers + Elems(l));
      st' == s.(acts := st.acts - {t}) || st' == s.(acts := st.acts[t := BulkFree([])])
    ensures Inv(cap, st', w') && SameObjs(w, w')
  {
    hide SameObjs, Inv, Carries, Moves, NoDup, Among, BarnInv, Elems;
    BarnFacts(cap, st, w);
    var d := Idle(st, t);
    d := d.(objs := Elems(l), to := to);
    HandToSet(cap, st, w, st', d, l);
    NothingMoved(cap, st, w, st', d);
    w' := DeltaInv(cap, st, w, st', d);
  }

  lemma PreserveBulkFreeEnter(cap: nat, st: State, w: Witness, st': State, t: ActId, objs: seq<Obj>, rejected: seq<Obj>) returns (w': Witness)
    requires Inv(cap, st, w) && StepBulkFreeEnter(st, st', t, objs, rejected)
    ensures Inv(cap, st', w') && SameObjs(w, w')
  {
    hide SameObjs, Inv, Carries, Moves, NoDup, Among, BarnInv, Elems;
    BarnFacts(cap, st, w);
    ObjFacts(cap, st, w);
    NoDupParts(objs + rejected, |objs|);
    Apart(objs, rejected);
    assert (objs + rejected)[..|objs|] == objs && (objs + rejected)[|objs|..] == rejected;
    var mid := st.(callers := st.callers - Elems(rejected), delayed := st.delayed + Elems(rejected));
    var d := Idle(st, t);
    d := d.(objs := Elems(rejected), to := Delayed);
    ObjsCarried(cap, st, w, mid, d, Callers, rejected);
    NothingMoved(cap, st, w, mid, d);
    var u := DeltaInv(cap, st, w, mid, d);
    w' := BulkFreeBegun(cap, mid, u, st', t, objs);
    SameObjsTrans(w, u, w');
  }

  lemma Apart(a: seq<Obj>, b: seq<Obj>)
    requires NoDup(a + b)
    ensures forall o :: o in a ==> o !in b
    ensures Elems(a + b) == Elems(a) + Elems(b)
  {
    forall o | o in a ensures o !in b {
      var i :| 0 <= i < |a| && a[i] == o;
      assert (a + b)[i] == o;
      forall j | 0 <= j < |b| ensures b[j] != o { assert (a + b)[|a| + j] == b[j]; }
    }
  }

  lemma BulkFreeBegun(cap: nat, st: State, w: Witness, st': State, t: ActId, objs: seq<Obj>) returns (w': Witness)
    requires Inv(cap, st, w) && t !in st.acts && NoDup(objs) && forall o :: o in objs ==> o in st.callers
    requires st' == st.(callers := st.callers - Elems(objs), acts := st.acts[t := BulkFree(objs)])
    ensures Inv(cap, st', w') && SameObjs(w, w')
  {
    hide SameObjs, Inv, Carries, Moves, NoDup, Among, BarnInv, Elems;
    BarnFacts(cap, st, w);
    var d := Idle(st, t);
    d := d.(objs := Elems(objs), to := Carried(t));
    SetToHand(cap, st, w, st', d, Callers, objs);
    NothingMoved(cap, st, w, st', d);
    w' := DeltaInv(cap, st, w, st', d);
  }

  /** As much as fits goes to the end of the main sheaf. */
  lemma BatchGiven(cap: nat, st: State, w: Witness, st': State, t: ActId, c: Cpu) returns (w': Witness)
    requires Inv(cap, st, w) && Unlocked(st, c) && t in st.acts && st.acts[t].BulkFree?
    requires BatchIn(cap, st, st', t, c, st.pcs[c], st.barn)
    ensures Inv(cap, st', w') && SameObjs(w, w')
  {
    hide SameObjs, Inv, NoDup, BatchIn;
    CpuFacts(cap, st, w, c);
    var batch, rest := FreeShape(cap, st, st', t, c);
    w' := BatchPut(cap, st, w, st', t, c, batch, rest);
  }

  lemma FreeShape(cap: nat, st: State, st': State, t: ActId, c: Cpu) returns (batch: seq<Obj>, rest: seq<Obj>)
    requires c in st.pcs && st.pcs[c].main in st.sheaves && |st.sheaves[st.pcs[c].main]| <= cap && t in st.acts && st.acts[t].BulkFree?
    requires BatchIn(cap, st, st', t, c, st.pcs[c], st.barn)
    ensures st.acts[t].rest == batch + rest && |st.sheaves[st.pcs[c].main]| + |batch| <= cap
    ensures st' == st.(sheaves := st.sheaves[st.pcs[c].main := st.sheaves[st.pcs[c].main] + batch], acts := st.acts[t := BulkFree(rest)])
  {
    var l, r := st.sheaves[st.pcs[c].main], st.acts[t].rest;
    var n := if |r| < cap - |l| then |r| else cap - |l|;
    batch, rest := r[..n], r[n..];
    assert st.pcs[c := st.pcs[c]] == st.pcs;
  }

  lemma BatchPut(cap: nat, st: State, w: Witness, st': State, t: ActId, c: Cpu, batch: seq<Obj>, rest: seq<Obj>) returns (w': Witness)
    requires Inv(cap, st, w) && Unlocked(st, c) && t in st.acts && st.acts[t].BulkFree? && st.acts[t].rest == batch + rest
    requires |st.sheaves[st.pcs[c].main]| + |batch| <= cap
    requires st' == st.(sheaves := st.sheaves[st.pcs[c].main := st.sheaves[st.pcs[c].main] + batch], acts := st.acts[t := BulkFree(rest)])
    ensures Inv(cap, st', w') && SameObjs(w, w')
  {
    hide SameObjs, Inv, Carries, Moves, NoDup, Among, BarnInv, Elems;
    CpuFacts(cap, st, w, c);
    BarnFacts(cap, st, w);
    var m := st.pcs[c].main;
    var f := Fresh(st.sheaves.Keys);
    var d := Delta(c, t, m, MainOf(c), f, BarnEmpty, Elems(batch), InSheaf(m));
    HandToSheaf(cap, st, w, st', d, batch);
    NothingMoved(cap, st, w, st', d);
    w' := DeltaInv(cap, st, w, st', d);
  }

  lemma PreserveBulkFreeSheaf(cap: nat, st: State, w: Witness, st': State, t: ActId, c: Cpu, r: Outcome) returns (w': Witness)
    requires Inv(cap, st, w) && StepBulkFreeSheaf(cap, st, st', t, c, r)
    ensures Inv(cap, st', w') && SameObjs(w, w')
  {
    hide SameObjs, Inv, Carries, Moves, NoDup, Among, BarnInv, Elems, PutFullTo, TakeEmpty;
    CpuFacts(cap, st, w, c);
    BarnFacts(cap, st, w);
    var p := st.pcs[c];
    if Size(st, p.main) < cap {
      w' := BatchGiven(cap, st, w, st', t, c);
    } else if p.spare.Some? && Size(st, p.spare.value) < cap {
      var mid := st.(pcs := st.pcs[c := Swap(p)]);
      var d := Delta(c, t, p.main, SpareOf(c), p.spare.value, MainOf(c), {}, Below);
      Swapped(cap, st, w, mid, d);
      var u := Rearranged(cap, st, w, mid, mid.pcs[c], mid.barn, d);
      assert BatchIn(cap, mid, st', t, c, mid.pcs[c], mid.barn);
      w' := BatchGiven(cap, mid, u, st', t, c);
      SameObjsTrans(w, u, w');
    } else if r.Got? && HasEmpty(st.barn) {
      assert Among(st.barn.empty, st.barn.empty[0]) by { EmptyTaken(st.barn); }
      w' := BulkFreeToEmpty(cap, st, w, st', t, c);
    } else {
      w' := HandedOver(cap, st, w, st', t, st.acts[t].rest, Below);
    }
  }

  /** The batch goes to an empty sheaf of the barn; the full main sheaf becomes the spare or goes to the barn. */
  lemma BulkFreeToEmpty(cap: nat, st: State, w: Witness, st': State, t: ActId, c: Cpu) returns (w': Witness)
    requires Inv(cap, st, w) && Unlocked(st, c) && t in st.acts && st.acts[t].BulkFree? && st.acts[t].rest != []
    requires Size(st, st.pcs[c].main) >= cap && HasEmpty(st.barn) && st.barn.empty[0] in st.sheaves
    requires var p, e := st.pcs[c], st.barn.empty[0];
      if p.spare.None? then BatchIn(cap, st, st', t, c, p.(spare := Some(p.main), main := e), TakeEmpty(st.barn))
      else BatchIn(cap, st, st', t, c, p.(main := e), PutFullTo(TakeEmpty(st.barn), p.main))
    ensures Inv(cap, st', w') && SameObjs(w, w')
  {
    hide SameObjs, Inv, Carries, Moves, NoDup, Among, BarnInv, Elems, PutFullTo, TakeEmpty;
    CpuFacts(cap, st, w, c);
    BarnFacts(cap, st, w);
    EmptyTaken(st.barn);
    var p, e := st.pcs[c], st.barn.empty[0];
    var mid, d;
    if p.spare.None? {
      mid := st.(pcs := st.pcs[c := p.(spare := Some(p.main), main := e)], barn := TakeEmpty(st.barn));
      d := Delta(c, t, p.main, SpareOf(c), e, MainOf(c), {}, Below);
      MainToSpare(cap, st, w, mid, d);
    } else {
      mid := st.(pcs := st.pcs[c := p.(main := e)], barn := PutFullTo(TakeEmpty(st.barn), p.main));
      d := Delta(c, t, p.main, BarnFull, e, MainOf(c), {}, Below);
      EmptyForMain(cap, st, w, mid, d);
    }
    var u := Rearranged(cap, st, w, mid, mid.pcs[c], mid.barn, d);
    assert BatchIn(cap, mid, st', t, c, mid.pcs[c], mid.barn);
    w' := BatchGiven(cap, mid, u, st', t, c);
    SameObjsTrans(w, u, w');
  }
}
