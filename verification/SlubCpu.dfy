/** The steps of a cpu on its own slab keep the invariant. */
module SlubCpu {
  import opened Freelist
  import opened SlubMachine
  import opened SlubInvariant
  import opened SlubFrame
  import opened SlubSlab

  /** What a cpu that has a frozen slab looks like. */
  predicate Shape(k: Cache, c: Cpu, p: CpuSlab)
  {
    && c < k.tidStep && p.tid % k.tidStep == c
    && (p.section.Open? || p.section.Bulk? || (p.section.Load? && p.freelist.Null? && p.section.freelist.Ref?))
  }

  /** Cpu `c` changes slab `s`, its own before and after; activation `t`, if any, ends. */
  predicate OnCpuStep(st: State, w: Witness, st': State, s: SlabId, c: Cpu, t: TaskId)
  {
    && c in st.cpus && s in st.slabs && At(w, s, OnCpu(c))
    && c in st'.cpus && st'.cpus == st.cpus[c := st'.cpus[c]]
    && s in st'.slabs && st'.slabs == st.slabs[s := st'.slabs[s]]
    && st'.tasks == st.tasks - {t} && st'.node == st.node && st'.nrPartial == st.nrPartial
    && (t in st.tasks ==> st.tasks[t].Alloc? || (st.tasks[t].Free? && st.tasks[t].slab == s))
    && st'.cpus[c].slab == st.cpus[c].slab == Some(s) && st'.cpus[c].partial == st.cpus[c].partial
    && st'.slabs[s].frozen && !st'.slabs[s].partial && st'.slabs[s].slabs == st.slabs[s].slabs
  }

  lemma OnCpuInv(k: Cache, st: State, w: Witness, st': State, s: SlabId, c: Cpu, t: TaskId, f: seq<nat>, d: seq<nat>)
    requires Inv(k, st, w) && OnCpuStep(st, w, st', s, c, t)
    requires BodyInv(s, st'.slabs[s], f, d, DetHead(st', OnCpu(c))) && PendInv(st', s, st'.slabs[s])
    requires SlabRespects(w, st.slabs[s], st'.slabs[s], s, t)
    requires Shape(k, c, st'.cpus[c]) && Advances(st.cpus[c], st'.cpus[c])
    ensures Inv(k, st', Put(w, s, OnCpu(c), f, d))
  {
    hide Inv, CpuInv, TaskInv, NodeInv, BodyInv, PendInv, SlabRespects, Advances;
    NodeOf(k, st, w);
    CpuOf(k, st, w, c);
    NodeSame(st, w, st', s, OnCpu(c), f, d);
    OnCpuCpu(k, st, w, st', s, c, t, f, d);
    PutInv(k, st, w, st', s, OnCpu(c), f, d, c, t);
  }

  lemma OnCpuCpu(k: Cache, st: State, w: Witness, st': State, s: SlabId, c: Cpu, t: TaskId, f: seq<nat>, d: seq<nat>)
    requires CpuInv(k, st, w, c) && OnCpuStep(st, w, st', s, c, t) && Shape(k, c, st'.cpus[c])
    ensures CpuInv(k, st', Put(w, s, OnCpu(c), f, d), c)
  {
  }

  /** The slab of cpu `c`, outside Bypass and Adopt. */
  lemma CpuSlabFacts(k: Cache, st: State, w: Witness, c: Cpu, s: SlabId)
    requires Inv(k, st, w) && c in st.cpus && st.cpus[c].slab == Some(s)
    requires !st.cpus[c].section.Bypass? && !st.cpus[c].section.Adopt?
    ensures s in st.slabs && s in w.free && s in w.det && At(w, s, OnCpu(c)) && Shape(k, c, st.cpus[c])
    ensures BodyInv(s, st.slabs[s], w.free[s], w.det[s], DetHead(st, OnCpu(c)))
    ensures st.slabs[s].frozen && !st.slabs[s].partial && PendInv(st, s, st.slabs[s])
  {
    hide Inv, BodyInv, PendInv;
    CpuOf(k, st, w, c);
    SlabOf(k, st, w, s);
  }

  lemma PreserveLockedPop(k: Cache, st: State, w: Witness, st': State, c: Cpu) returns (w': Witness)
    requires Inv(k, st, w) && StepLockedPop(k, st, st', c)
    ensures Inv(k, st', w')
  {
    hide Inv, BodyInv;
    var s := st.cpus[c].slab.value;
    CpuSlabFacts(k, st, w, c, s);
    BodyPop(s, st.slabs[s], w.free[s], w.det[s], st.cpus[c].freelist);
    TidAdvance(k, c, st.cpus[c].tid);
    var t := Fresh(st.tasks.Keys);
    OnCpuInv(k, st, w, st', s, c, t, w.free[s], w.det[s][1..]);
    w' := Put(w, s, OnCpu(c), w.free[s], w.det[s][1..]);
  }

  lemma PreserveBulkPop(k: Cache, st: State, w: Witness, st': State, c: Cpu) returns (w': Witness)
    requires Inv(k, st, w) && StepBulkPop(st, st', c)
    ensures Inv(k, st', w')
  {
    hide Inv, BodyInv;
    CpuOf(k, st, w, c);
    var s := st.cpus[c].slab.value;
    CpuSlabFacts(k, st, w, c, s);
    BodyPop(s, st.slabs[s], w.free[s], w.det[s], st.cpus[c].freelist);
    var t := Fresh(st.tasks.Keys);
    OnCpuInv(k, st, w, st', s, c, t, w.free[s], w.det[s][1..]);
    w' := Put(w, s, OnCpu(c), w.free[s], w.det[s][1..]);
  }

  lemma PreserveLoadEnd(k: Cache, st: State, w: Witness, st': State, c: Cpu) returns (w': Witness)
    requires Inv(k, st, w) && StepLoadEnd(k, st, st', c)
    ensures Inv(k, st', w')
  {
    hide Inv, BodyInv;
    CpuOf(k, st, w, c);
    var s := st.cpus[c].slab.value;
    CpuSlabFacts(k, st, w, c, s);
    BodyPop(s, st.slabs[s], w.free[s], w.det[s], st.cpus[c].section.freelist);
    TidAdvance(k, c, st.cpus[c].tid);
    var t := Fresh(st.tasks.Keys);
    OnCpuInv(k, st, w, st', s, c, t, w.free[s], w.det[s][1..]);
    w' := Put(w, s, OnCpu(c), w.free[s], w.det[s][1..]);
  }

  /** Only cpu `c` changes, and it goes on holding what it held. */
  lemma CpuStepInv(k: Cache, st: State, w: Witness, st': State, c: Cpu)
    requires Inv(k, st, w) && c in st.cpus && c in st'.cpus && st' == st.(cpus := st.cpus[c := st'.cpus[c]])
    requires Advances(st.cpus[c], st'.cpus[c]) && CpuInv(k, st', w, c)
    requires st.cpus[c].slab.None? || st.cpus[c].section.Bypass?
    requires st'.cpus[c].partial == st.cpus[c].partial
    ensures Inv(k, st', w)
  {
    hide Inv, TaskInv, CpuInv, SlabInv, Advances;
    NodeOf(k, st, w);
    var s := Fresh(st.slabs.Keys);
    var t := Fresh(st.tasks.Keys);
    assert NodeInv(st', w);
    Frame(k, st, w, st', w, s, c, t);
  }

  lemma PreserveBulkEnd(k: Cache, st: State, w: Witness, st': State, c: Cpu) returns (w': Witness)
    requires Inv(k, st, w) && StepBulkEnd(k, st, st', c)
    ensures Inv(k, st', w')
  {
    hide Inv, BodyInv;
    CpuOf(k, st, w, c);
    TidAdvance(k, c, st.cpus[c].tid);
    if st.cpus[c].slab.None? {
      CpuStepInv(k, st, w, st', c);
      w' := w;
    } else {
      var s := st.cpus[c].slab.value;
      CpuSlabFacts(k, st, w, c, s);
      var t := Fresh(st.tasks.Keys);
      assert st'.slabs == st.slabs[s := st'.slabs[s]];
      OnCpuInv(k, st, w, st', s, c, t, w.free[s], w.det[s]);
      w' := Put(w, s, OnCpu(c), w.free[s], w.det[s]);
    }
  }

  lemma PreserveBypassEnd(k: Cache, st: State, w: Witness, st': State, c: Cpu) returns (w': Witness)
    requires Inv(k, st, w) && StepBypassEnd(k, st, st', c)
    ensures Inv(k, st', w')
  {
    hide Inv;
    CpuOf(k, st, w, c);
    TidAdvance(k, c, st.cpus[c].tid);
    CpuStepInv(k, st, w, st', c);
    w' := w;
  }

  lemma PreserveGetFreelist(k: Cache, st: State, w: Witness, st': State, c: Cpu) returns (w': Witness)
    requires Inv(k, st, w) && StepGetFreelist(st, st', c)
    ensures Inv(k, st', w')
  {
    hide Inv, BodyInv, NodeInv;
    var s := st.cpus[c].slab.value;
    var b := st.slabs[s];
    CpuSlabFacts(k, st, w, c, s);
    BodyNull(s, b, w.free[s], w.det[s], Null);
    BodyTake(s, b, w.free[s], b.freelist.Ref?);
    var t := Fresh(st.tasks.Keys);
    if b.freelist.Ref? {
      OnCpuInv(k, st, w, st', s, c, t, [], w.free[s]);
      w' := Put(w, s, OnCpu(c), [], w.free[s]);
    } else {
      CpuOf(k, st, w, c);
      NodeOf(k, st, w);
      NodeSame(st, w, st', s, Full, [], []);
      PutInv(k, st, w, st', s, Full, [], [], c, t);
      w' := Put(w, s, Full, [], []);
    }
  }

  lemma PreserveAdoptPartial(k: Cache, st: State, w: Witness, st': State, c: Cpu) returns (w': Witness)
    requires Inv(k, st, w) && StepAdoptPartial(st, st', c)
    ensures Inv(k, st', w')
  {
    hide Inv, BodyInv, NodeInv, PendInv;
    var s := st.cpus[c].partial[0];
    CpuOf(k, st, w, c);
    SlabOf(k, st, w, s);
    NodeOf(k, st, w);
    var t := Fresh(st.tasks.Keys);
    NodeSame(st, w, st', s, Adopting(c), w.free[s], w.det[s]);
    PendSame(st, st', s, st.slabs[s], st'.slabs[s]);
    PutInv(k, st, w, st', s, Adopting(c), w.free[s], w.det[s], c, t);
    w' := Put(w, s, Adopting(c), w.free[s], w.det[s]);
  }

  /** The VM_BUG_ON after get_freelist does not fire: an adopted slab has a free object. */
  lemma PreserveAdoptTake(k: Cache, st: State, w: Witness, st': State, c: Cpu) returns (w': Witness)
    requires Inv(k, st, w) && StepAdoptTake(st, st', c)
    ensures Inv(k, st', w')
    ensures st.slabs[st.cpus[c].slab.value].freelist.Ref?
  {
    hide Inv, BodyInv, NodeInv, PendInv;
    var s := st.cpus[c].slab.value;
    CpuOf(k, st, w, c);
    SlabOf(k, st, w, s);
    NodeOf(k, st, w);
    BodyTake(s, st.slabs[s], w.free[s], true);
    var t := Fresh(st.tasks.Keys);
    NodeSame(st, w, st', s, OnCpu(c), [], w.free[s]);
    PendSame(st, st', s, st.slabs[s], st'.slabs[s]);
    PutInv(k, st, w, st', s, OnCpu(c), [], w.free[s], c, t);
    w' := Put(w, s, OnCpu(c), [], w.free[s]);
  }
}
