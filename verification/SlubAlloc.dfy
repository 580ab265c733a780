/** The lockless allocation: its reads may be stale, its exchange is an atomic pop. */
module SlubAlloc {
  import opened Freelist
  import opened SlubMachine
  import opened SlubInvariant
  import opened SlubFrame
  import opened SlubSlab
  import opened SlubCpu

  lemma PreserveAllocReadTid(k: Cache, st: State, w: Witness, st': State, t: TaskId, c: Cpu) returns (w': Witness)
    requires Inv(k, st, w) && StepAllocReadTid(st, st', t, c)
    ensures Inv(k, st', w')
  {
    hide Inv;
    CpuOf(k, st, w, c);
    TaskStepInv(k, st, w, st', t);
    w' := w;
  }

  lemma PreserveAllocReadObject(k: Cache, st: State, w: Witness, st': State, t: TaskId) returns (w': Witness)
    requires Inv(k, st, w) && StepAllocReadObject(st, st', t)
    ensures Inv(k, st', w')
  {
    hide Inv;
    TaskOf(k, st, w, t);
    TaskStepInv(k, st, w, st', t);
    w' := w;
  }

  lemma PreserveAllocReadSlab(k: Cache, st: State, w: Witness, st': State, t: TaskId) returns (w': Witness)
    requires Inv(k, st, w) && StepAllocReadSlab(st, st', t)
    ensures Inv(k, st', w')
  {
    hide Inv;
    TaskOf(k, st, w, t);
    TaskStepInv(k, st, w, st', t);
    w' := w;
  }

  lemma PreserveAllocSlow(k: Cache, st: State, w: Witness, st': State, t: TaskId) returns (w': Witness)
    requires Inv(k, st, w) && StepAllocSlow(st, st', t)
    ensures Inv(k, st', w')
  {
    hide Inv;
    TaskStepInv(k, st, w, st', t);
    w' := w;
  }

  /** The head of a cpu's free list is an object of its slab. */
  lemma HeadInSlab(k: Cache, st: State, w: Witness, c: Cpu)
    requires Inv(k, st, w) && c in st.cpus && st.cpus[c].section.Open? && st.cpus[c].freelist.Ref?
    ensures st.cpus[c].slab == Some(st.cpus[c].freelist.slab)
    ensures var o := st.cpus[c].freelist; o.slab in st.slabs && o.idx < |st.slabs[o.slab].mem|
  {
    hide Inv, BodyInv;
    CpuOf(k, st, w, c);
    var s := st.cpus[c].slab.value;
    CpuSlabFacts(k, st, w, c, s);
    BodyPop(s, st.slabs[s], w.free[s], w.det[s], st.cpus[c].freelist);
  }

  lemma PreserveAllocReadNext(k: Cache, st: State, w: Witness, st': State, t: TaskId, garbage: Ptr) returns (w': Witness)
    requires Inv(k, st, w) && StepAllocReadNext(st, st', t, garbage)
    ensures Inv(k, st', w')
  {
    hide Inv;
    TaskOf(k, st, w, t);
    var task := st.tasks[t];
    if Current(st, task.cpu, task.tid) { HeadInSlab(k, st, w, task.cpu); }
    TaskStepInv(k, st, w, st', t);
    w' := w;
  }

  /** An exchange that succeeds on cpu `c` with a tid read from cpu `c0` runs on that same cpu. */
  lemma SameCpu(k: Cache, st: State, w: Witness, c0: Cpu, c: Cpu, tid: nat)
    requires Inv(k, st, w) && TidInv(k, st, c0, tid) && c in st.cpus && st.cpus[c].tid == tid
    ensures c == c0
  {
    hide Inv;
    CpuOf(k, st, w, c);
  }

  /** What a successful exchange of the allocation saw: the true head, its true successor, this cpu's slab. */
  lemma AllocExchangeSees(k: Cache, st: State, w: Witness, t: TaskId, c: Cpu)
    requires Inv(k, st, w) && AllocExchangeHits(st, t, c)
    ensures c == st.tasks[t].cpu
    ensures st.cpus[c].freelist.Ref? && st.cpus[c].slab == Some(st.cpus[c].freelist.slab)
    ensures st.tasks[t].next.value == Next(st.slabs, st.cpus[c].freelist)
  {
    hide Inv, Next;
    TaskOf(k, st, w, t);
    SameCpu(k, st, w, st.tasks[t].cpu, c, st.tasks[t].tid);
    HeadInSlab(k, st, w, c);
  }

  lemma PreserveAllocExchange(k: Cache, st: State, w: Witness, st': State, t: TaskId, c: Cpu) returns (w': Witness)
    requires Inv(k, st, w) && StepAllocExchange(k, st, st', t, c)
    ensures Inv(k, st', w')
  {
    hide Inv, BodyInv;
    if AllocExchangeHits(st, t, c) {
      AllocExchangeSees(k, st, w, t, c);
      var s := st.cpus[c].slab.value;
      CpuSlabFacts(k, st, w, c, s);
      BodyPop(s, st.slabs[s], w.free[s], w.det[s], st.cpus[c].freelist);
      TidAdvance(k, c, st.cpus[c].tid);
      PendSame(st, st', s, st.slabs[s], st'.slabs[s]);
      OnCpuInv(k, st, w, st', s, c, t, w.free[s], w.det[s][1..]);
      w' := Put(w, s, OnCpu(c), w.free[s], w.det[s][1..]);
    } else {
      TaskStepInv(k, st, w, st', t);
      w' := w;
    }
  }
}
