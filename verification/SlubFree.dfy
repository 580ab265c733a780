/** Freeing: the lockless push, and the exchange of __slab_free with what follows from it. */
module SlubFree {
  import opened Freelist
  import opened SlubMachine
  import opened SlubInvariant
  import opened SlubFrame
  import opened SlubSlab
  import opened SlubCpu
  import opened SlubAlloc
  import opened SlubLists

  lemma PreserveFreeBegin(k: Cache, st: State, w: Witness, st': State, t: TaskId, s: SlabId, objs: seq<nat>) returns (w': Witness)
    requires Inv(k, st, w) && StepFreeBegin(st, st', t, s, objs)
    ensures Inv(k, st', w')
  {
    hide Inv, BodyInv, NodeInv, CpuInv;
    SlabOf(k, st, w, s);
    var b, b' := st.slabs[s], st'.slabs[s];
    BodyBeginFree(s, b, w.free[s], w.det[s], DetHead(st, w.place[s]), objs, t);
    assert w.det[s] != [] ==> w.det[s][0] in w.det[s];
    StayInv(k, st, w, st', s, w.free[s], t);
    w' := Put(w, s, w.place[s], w.free[s], w.det[s]);
  }

  lemma PreserveFreeReadTid(k: Cache, st: State, w: Witness, st': State, t: TaskId, c: Cpu) returns (w': Witness)
    requires Inv(k, st, w) && StepFreeReadTid(st, st', t, c)
    ensures Inv(k, st', w')
  {
    hide Inv, Linked;
    TaskOf(k, st, w, t);
    CpuOf(k, st, w, c);
    TaskStepInv(k, st, w, st', t);
    w' := w;
  }

  lemma PreserveFreeCheckSlab(k: Cache, st: State, w: Witness, st': State, t: TaskId) returns (w': Witness)
    requires Inv(k, st, w) && StepFreeCheckSlab(st, st', t)
    ensures Inv(k, st', w')
  {
    hide Inv, Linked;
    TaskOf(k, st, w, t);
    TaskStepInv(k, st, w, st', t);
    w' := w;
  }

  /** A free writes the last word of its own segment. */
  lemma PreserveSplice(k: Cache, st: State, w: Witness, st': State, t: TaskId, v: Ptr, phase: Phase) returns (w': Witness)
    requires Inv(k, st, w) && t in st.tasks && st.tasks[t].Free? && st.tasks[t].objs != []
    requires st.tasks[t].slab in st.slabs && Last(st.tasks[t].objs) < |st.slabs[st.tasks[t].slab].mem|
    requires st' == st.(
      slabs := st.slabs[st.tasks[t].slab := st.slabs[st.tasks[t].slab].(mem := st.slabs[st.tasks[t].slab].mem[Last(st.tasks[t].objs) := v])],
      tasks := st.tasks[t := st.tasks[t].(phase := phase)])
    requires phase.Spliced? || phase.SlowSpliced?
    requires phase.Spliced? ==> phase.head == v && TidInv(k, st, phase.cpu, phase.tid)
    requires phase.Spliced? && Current(st, phase.cpu, phase.tid) ==>
      st.cpus[phase.cpu].slab == Some(st.tasks[t].slab) && st.cpus[phase.cpu].freelist == v
    requires phase.SlowSpliced? ==> phase.prior == v
    ensures Inv(k, st', w')
  {
    hide Inv, BodyInv, NodeInv, CpuInv;
    var s, objs := st.tasks[t].slab, st.tasks[t].objs;
    TaskOf(k, st, w, t);
    SlabOf(k, st, w, s);
    assert Last(objs) in objs;
    BodyWrite(s, st.slabs[s], w.free[s], w.det[s], DetHead(st, w.place[s]), Last(objs), v);
    LinkedTail(s, st.slabs[s].mem, objs, v);
    StayInv(k, st, w, st', s, w.free[s], t);
    w' := Put(w, s, w.place[s], w.free[s], w.det[s]);
  }

  lemma PreserveFreeSplice(k: Cache, st: State, w: Witness, st': State, t: TaskId) returns (w': Witness)
    requires Inv(k, st, w) && StepFreeSplice(st, st', t)
    ensures Inv(k, st', w')
  {
    hide Inv, Linked;
    TaskOf(k, st, w, t);
    var ph := st.tasks[t].phase;
    var h := st.cpus[ph.cpu].freelist;
    w' := PreserveSplice(k, st, w, st', t, h, Spliced(ph.cpu, ph.tid, h));
  }

  lemma PreserveSlowSplice(k: Cache, st: State, w: Witness, st': State, t: TaskId) returns (w': Witness)
    requires Inv(k, st, w) && StepSlowSplice(st, st', t)
    ensures Inv(k, st', w')
  {
    hide Inv;
    var b := st.slabs[st.tasks[t].slab];
    w' := PreserveSplice(k, st, w, st', t, b.freelist, SlowSpliced(b.freelist, b.inuse, b.frozen));
  }

  /** After a free has pushed its objects, the other frees still own theirs. */
  lemma PendAfterPush(k: Cache, st: State, w: Witness, st': State, t: TaskId, b': Slab)
    requires Inv(k, st, w) && t in st.tasks && st.tasks[t].Free? && st.tasks[t].slab in st.slabs
    requires b'.pend == Without(st.slabs[st.tasks[t].slab].pend, st.tasks[t].objs)
    requires Same(st.tasks, st'.tasks, t)
    ensures PendInv(st', st.tasks[t].slab, b')
  {
    hide Inv, BodyInv, PlaceInv;
    SlabOf(k, st, w, st.tasks[t].slab);
  }

  /** A successful exchange of the free saw this cpu's slab and free list. */
  lemma FreeExchangeSees(k: Cache, st: State, w: Witness, t: TaskId, c: Cpu)
    requires Inv(k, st, w) && FreeExchangeHits(st, t, c)
    ensures c == st.tasks[t].phase.cpu && st.cpus[c].slab == Some(st.tasks[t].slab)
  {
    hide Inv, Linked;
    TaskOf(k, st, w, t);
    SameCpu(k, st, w, st.tasks[t].phase.cpu, c, st.tasks[t].phase.tid);
  }

  lemma PreserveFreeExchange(k: Cache, st: State, w: Witness, st': State, t: TaskId, c: Cpu) returns (w': Witness)
    requires Inv(k, st, w) && StepFreeExchange(k, st, st', t, c)
    ensures Inv(k, st', w')
  {
    hide Inv, BodyInv, PendInv;
    TaskOf(k, st, w, t);
    if FreeExchangeHits(st, t, c) {
      var s, objs := st.tasks[t].slab, st.tasks[t].objs;
      FreeExchangeSees(k, st, w, t, c);
      CpuSlabFacts(k, st, w, c, s);
      BodyPushDet(s, st.slabs[s], w.free[s], w.det[s], st.cpus[c].freelist, objs);
      TidAdvance(k, c, st.cpus[c].tid);
      PendAfterPush(k, st, w, st', t, st'.slabs[s]);
      PushRespects(w, st.slabs[s], st'.slabs[s], s, t, objs);
      OnCpuInv(k, st, w, st', s, c, t, w.free[s], objs + w.det[s]);
      w' := Put(w, s, OnCpu(c), w.free[s], objs + w.det[s]);
    } else {
      TaskStepInv(k, st, w, st', t);
      w' := w;
    }
  }

  lemma PushRespects(w: Witness, b: Slab, b': Slab, s: SlabId, t: TaskId, objs: seq<nat>)
    requires b'.mem == b.mem && b'.pend == Without(b.pend, objs)
    requires forall x :: x in objs ==> x in b.pend && b.pend[x] == t
    ensures SlabRespects(w, b, b', s, t)
  {
  }

  // ---- __slab_free ----

  /** What a successful exchange of __slab_free does to its slab, whatever happened since the read. */
  lemma SlowPush(k: Cache, st: State, w: Witness, t: TaskId)
    requires Inv(k, st, w) && t in st.tasks && st.tasks[t].Free? && st.tasks[t].phase.SlowSpliced?
    requires st.tasks[t].slab in st.slabs && st.slabs[st.tasks[t].slab].freelist == st.tasks[t].phase.prior
    ensures var s, objs := st.tasks[t].slab, st.tasks[t].objs;
      && objs != [] && s in w.place && s in w.free && s in w.det
      && BodyInv(s, Pushed(st.slabs[s], s, objs), objs + w.free[s], w.det[s], DetHead(st, w.place[s]))
      && PlaceInv(st, w.place[s], s, st.slabs[s], w.free[s], w.det[s])
      && (st.slabs[s].freelist.Null? <==> w.free[s] == [])
      && st.slabs[s].inuse > 0
      && SlabRespects(w, st.slabs[s], Pushed(st.slabs[s], s, objs), s, t)
  {
    hide Inv, BodyInv, PendInv;
    var s, objs := st.tasks[t].slab, st.tasks[t].objs;
    TaskOf(k, st, w, t);
    SlabOf(k, st, w, s);
    BodyPush(s, st.slabs[s], w.free[s], w.det[s], DetHead(st, w.place[s]), objs);
    BodyNull(s, st.slabs[s], w.free[s], w.det[s], DetHead(st, w.place[s]));
    BodyEmpty(s, st.slabs[s], w.free[s], w.det[s], DetHead(st, w.place[s]));
    assert objs[0] in objs;
    PushRespects(w, st.slabs[s], Pushed(st.slabs[s], s, objs), s, t, objs);
  }

  lemma PreserveSlowExchange(k: Cache, st: State, w: Witness, st': State, t: TaskId) returns (w': Witness)
    requires Inv(k, st, w) && StepSlowExchange(k, st, st', t)
    ensures Inv(k, st', w')
  {
    hide Inv, BodyInv, PendInv, SlabRespects, PlaceInv, Remove;
    var s, objs := st.tasks[t].slab, st.tasks[t].objs;
    var b, ph := st.slabs[s], st.tasks[t].phase;
    if !(b.freelist == ph.prior && b.inuse == ph.inuse && b.frozen == ph.frozen) {
      TaskOf(k, st, w, t);
      TaskStepInv(k, st, w, st', t);
      w' := w;
    } else if !b.frozen && b.freelist.Null? {
      w' := PreserveSlowFromFull(k, st, w, st', t);
    } else if !b.frozen && b.inuse - |objs| == 0 && b.partial && st.nrPartial >= k.minPartial {
      w' := PreserveSlowEmptied(k, st, w, st', t);
    } else {
      w' := PreserveSlowStay(k, st, w, st', t);
    }
  }

  /** The slab stays where it is. */
  lemma PreserveSlowStay(k: Cache, st: State, w: Witness, st': State, t: TaskId) returns (w': Witness)
    requires Inv(k, st, w) && t in st.tasks && st.tasks[t].Free? && st.tasks[t].phase.SlowSpliced? && st.tasks[t].objs != []
    requires st.tasks[t].slab in st.slabs && st.slabs[st.tasks[t].slab].freelist == st.tasks[t].phase.prior
    requires st.slabs[st.tasks[t].slab].frozen || st.slabs[st.tasks[t].slab].freelist.Ref?
    requires st' == st.(
      slabs := st.slabs[st.tasks[t].slab := Pushed(st.slabs[st.tasks[t].slab], st.tasks[t].slab, st.tasks[t].objs)],
      tasks := st.tasks - {t})
    ensures Inv(k, st', w')
  {
    hide Inv, BodyInv, PendInv, SlabRespects, TaskInv;
    var s, objs := st.tasks[t].slab, st.tasks[t].objs;
    SlowPush(k, st, w, t);
    PendAfterPush(k, st, w, st', t, st'.slabs[s]);
    StayInv(k, st, w, st', s, objs + w.free[s], t);
    w' := Put(w, s, w.place[s], objs + w.free[s], w.det[s]);
  }

  /** A full slab gets its first free object: whoever freed it puts it on a cpu partial list. */
  lemma PreserveSlowFromFull(k: Cache, st: State, w: Witness, st': State, t: TaskId) returns (w': Witness)
    requires Inv(k, st, w) && t in st.tasks && st.tasks[t].Free? && st.tasks[t].phase.SlowSpliced? && st.tasks[t].objs != []
    requires st.tasks[t].slab in st.slabs && st.slabs[st.tasks[t].slab].freelist == st.tasks[t].phase.prior
    requires !st.slabs[st.tasks[t].slab].frozen && st.slabs[st.tasks[t].slab].freelist.Null?
    requires st' == st.(
      slabs := st.slabs[st.tasks[t].slab := Pushed(st.slabs[st.tasks[t].slab], st.tasks[t].slab, st.tasks[t].objs)],
      tasks := st.tasks[t := PutCpuPartial(st.tasks[t].slab)])
    ensures Inv(k, st', w')
  {
    hide Inv, BodyInv, PendInv, SlabRespects, NodeInv, CpuInv;
    var s, objs := st.tasks[t].slab, st.tasks[t].objs;
    SlowPush(k, st, w, t);
    assert w.place[s] == Full && w.det[s] == [];
    PendAfterPush(k, st, w, st', t, st'.slabs[s]);
    NodeOf(k, st, w);
    NodeSame(st, w, st', s, InTransit(t), objs + w.free[s], []);
    var c := Fresh(st.cpus.Keys);
    PutInv(k, st, w, st', s, InTransit(t), objs + w.free[s], [], c, t);
    w' := Put(w, s, InTransit(t), objs + w.free[s], []);
  }

  /** The last object of a listed slab is freed: the slab is taken off the list and discarded. */
  lemma PreserveSlowEmptied(k: Cache, st: State, w: Witness, st': State, t: TaskId) returns (w': Witness)
    requires Inv(k, st, w) && t in st.tasks && st.tasks[t].Free? && st.tasks[t].phase.SlowSpliced? && st.tasks[t].objs != []
    requires st.tasks[t].slab in st.slabs && st.slabs[st.tasks[t].slab].freelist == st.tasks[t].phase.prior
    requires st.slabs[st.tasks[t].slab].partial && st.slabs[st.tasks[t].slab].inuse == |st.tasks[t].objs|
    requires st' == st.(
      slabs := st.slabs[st.tasks[t].slab := Pushed(st.slabs[st.tasks[t].slab], st.tasks[t].slab, st.tasks[t].objs).(partial := false)],
      node := Remove(st.node, st.tasks[t].slab), nrPartial := st.nrPartial - 1,
      tasks := st.tasks[t := Discard([st.tasks[t].slab])])
    ensures Inv(k, st', w')
  {
    hide Inv, BodyInv, PendInv, SlabRespects, NodeInv, CpuInv, NodeKeeps, Remove;
    var s, objs := st.tasks[t].slab, st.tasks[t].objs;
    SlowPush(k, st, w, t);
    assert w.place[s] == OnNode && w.det[s] == [];
    PendAfterPush(k, st, w, st', t, st'.slabs[s]);
    NodeOf(k, st, w);
    BodySame(s, Pushed(st.slabs[s], s, objs), st'.slabs[s], objs + w.free[s], [], Null);
    RespectsSame(w, st.slabs[s], Pushed(st.slabs[s], s, objs), st'.slabs[s], s, t);
    NodeTake(st, w, st', s, InTransit(t), objs + w.free[s], []);
    var c := Fresh(st.cpus.Keys);
    assert Held(st'.tasks[t])[0] == s;
    PutInv(k, st, w, st', s, InTransit(t), objs + w.free[s], [], c, t);
    w' := Put(w, s, InTransit(t), objs + w.free[s], []);
  }

  lemma RespectsSame(w: Witness, b: Slab, b1: Slab, b2: Slab, s: SlabId, t: TaskId)
    requires SlabRespects(w, b, b1, s, t) && b2.mem == b1.mem && b2.pend == b1.pend
    ensures SlabRespects(w, b, b2, s, t)
  {
  }

  lemma PreserveCallerWrite(k: Cache, st: State, w: Witness, st': State, s: SlabId, i: nat, v: Ptr) returns (w': Witness)
    requires Inv(k, st, w) && StepCallerWrite(st, st', s, i, v)
    ensures Inv(k, st', w')
  {
    hide Inv, BodyInv, NodeInv, CpuInv, TaskInv;
    SlabOf(k, st, w, s);
    var b := st.slabs[s];
    BodyWrite(s, b, w.free[s], w.det[s], DetHead(st, w.place[s]), i, v);
    LivePend(s, b, w.free[s], w.det[s], DetHead(st, w.place[s]), i);
    var t := Fresh(st.tasks.Keys);
    PendSame(st, st', s, b, st'.slabs[s]);
    StayInv(k, st, w, st', s, w.free[s], t);
    w' := Put(w, s, w.place[s], w.free[s], w.det[s]);
  }

  lemma LivePend(s: SlabId, b: Slab, f: seq<nat>, d: seq<nat>, h: Ptr, i: nat)
    requires BodyInv(s, b, f, d, h) && i in b.live
    ensures i !in b.pend && i !in d
  {
    PartsAt(b.objects, f, d, b.live, b.pend.Keys, i);
  }
}
