/** A step changes at most one slab, one cpu, one activation and the node list.  `Change` lists
    what the change must respect; then whatever else held before still holds. */
module SlubFrame {
  import opened Freelist
  import opened SlubMachine
  import opened SlubInvariant

  /** Nothing but slab `s`, cpu `c`, task `t` and the node list differs. */
  predicate Only(st: State, st': State, s: SlabId, c: Cpu, t: TaskId)
  {
    && Same(st.slabs, st'.slabs, s)
    && st'.cpus.Keys == st.cpus.Keys && Same(st.cpus, st'.cpus, c)
    && Same(st.tasks, st'.tasks, t)
  }

  predicate OnlyWitness(st: State, w: Witness, st': State, w': Witness, s: SlabId)
  {
    && w.place.Keys == st.slabs.Keys && w.free.Keys == st.slabs.Keys && w.det.Keys == st.slabs.Keys
    && w'.place.Keys == st'.slabs.Keys && w'.free.Keys == st'.slabs.Keys && w'.det.Keys == st'.slabs.Keys
    && Same(w.place, w'.place, s) && Same(w.free, w'.free, s) && Same(w.det, w'.det, s)
  }

  /** Slab `x` is where place `p` says. */
  predicate Holds(st: State, p: Place, x: SlabId)
  {
    match p
    case OnCpu(c) => c in st.cpus && st.cpus[c].slab == Some(x) && !st.cpus[c].section.Adopt? && !st.cpus[c].section.Bypass?
    case Adopting(c) => c in st.cpus && st.cpus[c].slab == Some(x) && st.cpus[c].section.Adopt?
    case OnNode => x in st.node
    case OnCpuPartial(c) => c in st.cpus && x in st.cpus[c].partial
    case Full => true
    case InTransit(t) => t in st.tasks && x in Held(st.tasks[t])
  }

  /** The holder of slab `x` at place `p` holds it in the same way. */
  predicate Kept(st: State, st': State, p: Place, x: SlabId)
  {
    match p
    case OnCpu(c) =>
      && c in st.cpus && c in st'.cpus && st'.cpus[c].slab == st.cpus[c].slab
      && st'.cpus[c].freelist == st.cpus[c].freelist && st'.cpus[c].section == st.cpus[c].section
    case Adopting(c) =>
      c in st.cpus && c in st'.cpus && st'.cpus[c].slab == st.cpus[c].slab && st'.cpus[c].section == st.cpus[c].section
    case OnNode => x in st'.node
    case OnCpuPartial(c) => c in st'.cpus && x in st'.cpus[c].partial
    case Full => true
    case InTransit(t) =>
      && t in st.tasks && t in st'.tasks
      && (st'.tasks[t] == st.tasks[t]
          || (&& x in Held(st'.tasks[t])
              && !st.tasks[t].Deactivate? && !st'.tasks[t].Deactivate? && !st.tasks[t].Ready? && !st'.tasks[t].Ready?
              && (Doomed(st'.tasks[t], x) ==> Doomed(st.tasks[t], x))))
  }

  /** A cpu may not change its free list or slab and come out of its section with the same tid. */
  predicate Advances(p: CpuSlab, p': CpuSlab)
  {
    && p.tid <= p'.tid
    && (p'.tid == p.tid && p'.section.Open? ==> p.section.Open? && p'.freelist == p.freelist && p'.slab == p.slab)
  }

  /** What slab `s` owes to the other activations. */
  predicate SlabRespects(w: Witness, b: Slab, b': Slab, s: SlabId, t: TaskId)
  {
    && |b'.mem| == |b.mem|
    && (s in w.place && s in w.det && w.place[s].OnCpu? && w.det[s] != [] && w.det[s][0] < |b.mem| ==>
          b'.mem[w.det[s][0]] == b.mem[w.det[s][0]])
    && (forall x :: x in b.pend && b.pend[x] != t ==> x in b'.pend && b'.pend[x] == b.pend[x])
    && (forall x :: x in b.pend && b.pend[x] != t && x < |b.mem| ==> b'.mem[x] == b.mem[x])
  }

  /** Cpu, activation and node list go on holding what they held, except slab `s`. */
  predicate CpuKeeps(p: CpuSlab, p': CpuSlab, s: SlabId)
  {
    && (p.slab.Some? && p.slab.value != s && !p.section.Bypass? ==>
          p'.slab == p.slab && p'.freelist == p.freelist && p'.section == p.section)
    && (forall x :: x in p.partial && x != s ==> x in p'.partial)
  }

  predicate TaskKeeps(st: State, st': State, t: TaskId, s: SlabId)
  {
    t in st.tasks ==> forall x :: x in Held(st.tasks[t]) && x != s ==> Kept(st, st', InTransit(t), x)
  }

  predicate NodeKeeps(st: State, st': State, s: SlabId)
  {
    forall x :: x in st.node && x != s ==> x in st'.node
  }

  /** A free that goes on, or that ends in slab `s`. */
  predicate FreeKept(st: State, st': State, s: SlabId, t: TaskId)
  {
    t in st.tasks && st.tasks[t].Free? ==>
      || st.tasks[t].slab == s
      || (t in st'.tasks && st'.tasks[t].Free? && st'.tasks[t].slab == st.tasks[t].slab && st'.tasks[t].objs == st.tasks[t].objs)
  }

  /** Slab `s` leaves only a place that changed. */
  predicate Leaves(st: State, w: Witness, st': State, w': Witness, s: SlabId, c: Cpu, t: TaskId)
  {
    && (s in w.place && (s !in w'.place || w'.place[s] != w.place[s]) ==>
          match w.place[s]
          case OnCpu(x) => x == c
          case Adopting(x) => x == c
          case OnCpuPartial(x) => x == c
          case InTransit(x) => x == t
          case _ => true)
    && (s in w.place && w.place[s].OnCpuPartial? && w.place[s].cpu != c ==>
          s in st.slabs && s in st'.slabs && st'.slabs[s].slabs == st.slabs[s].slabs)
  }

  predicate Respects(st: State, w: Witness, st': State, s: SlabId, t: TaskId)
  {
    && (s in st.slabs && s in st'.slabs ==> SlabRespects(w, st.slabs[s], st'.slabs[s], s, t))
    && (s in st.slabs && s !in st'.slabs && s in w.place ==> !w.place[s].OnCpu? && st.slabs[s].pend == map[])
  }

  predicate Change(k: Cache, st: State, w: Witness, st': State, w': Witness, s: SlabId, c: Cpu, t: TaskId)
  {
    && Only(st, st', s, c, t) && OnlyWitness(st, w, st', w', s)
    && TaskKeeps(st, st', t, s) && NodeKeeps(st, st', s) && FreeKept(st, st', s, t)
    && Leaves(st, w, st', w', s, c, t) && Respects(st, w, st', s, t)
    && (c in st.cpus ==> c in st'.cpus && CpuKeeps(st.cpus[c], st'.cpus[c], s) && Advances(st.cpus[c], st'.cpus[c]))
    && (s in st'.slabs ==> SlabInv(st', w', s))
    && (c in st'.cpus ==> CpuInv(k, st', w', c))
    && (t in st'.tasks ==> TaskInv(k, st', w', t))
    && NodeInv(st', w')
  }

  lemma FrameSlab(st: State, w: Witness, st': State, w': Witness, x: SlabId)
    requires SlabInv(st, w, x) && Kept(st, st', w.place[x], x) && PendInv(st', x, st.slabs[x])
    requires x in st'.slabs && st'.slabs[x] == st.slabs[x]
    requires x in w'.place && x in w'.free && x in w'.det
    requires w'.place[x] == w.place[x] && w'.free[x] == w.free[x] && w'.det[x] == w.det[x]
    ensures SlabInv(st', w', x)
  {
    hide BodyInv;
    assert DetHead(st', w'.place[x]) == DetHead(st, w.place[x]);
  }

  lemma FrameKept(k: Cache, st: State, w: Witness, st': State, w': Witness, s: SlabId, c: Cpu, t: TaskId, x: SlabId)
    requires Change(k, st, w, st', w', s, c, t) && x in st.slabs && x in w.place && x != s && Holds(st, w.place[x], x)
    ensures Kept(st, st', w.place[x], x)
  {
    hide SlabInv, CpuInv, TaskInv, NodeInv, Respects, Advances, Leaves, FreeKept;
  }

  lemma FramePend(k: Cache, st: State, w: Witness, st': State, w': Witness, s: SlabId, c: Cpu, t: TaskId, x: SlabId)
    requires x in st.slabs && PendInv(st, x, st.slabs[x]) && Change(k, st, w, st', w', s, c, t) && x != s
    ensures PendInv(st', x, st.slabs[x])
  {
    hide SlabInv, CpuInv, TaskInv, NodeInv, Kept, Holds, SlabRespects, Advances;
  }

  lemma FrameCpu(k: Cache, st: State, w: Witness, st': State, w': Witness, s: SlabId, c: Cpu, t: TaskId, x: Cpu)
    requires CpuInv(k, st, w, x) && w.place.Keys == st.slabs.Keys && Change(k, st, w, st', w', s, c, t) && x in st'.cpus && x != c
    ensures CpuInv(k, st', w', x)
  {
    hide SlabInv, TaskInv, NodeInv, Kept, Holds, SlabRespects, Advances;
    forall i: SlabId, p: Place | At(w, i, p) && (p == OnCpu(x) || p == Adopting(x) || p == OnCpuPartial(x)) ensures At(w', i, p) {
    }
  }

  lemma FrameAlloc(k: Cache, st: State, st': State, task: Task)
    requires task.Alloc? && AllocInv(k, st, task)
    requires st'.cpus.Keys == st.cpus.Keys && Advances(st.cpus[task.cpu], st'.cpus[task.cpu])
    requires Current(st, task.cpu, task.tid) && task.next.Some? ==> Next(st'.slabs, task.obj.value) == Next(st.slabs, task.obj.value)
    ensures AllocInv(k, st', task)
  {
    hide Next;
  }

  /** The word a current reader has read is still there. */
  lemma FrameNext(k: Cache, st: State, w: Witness, st': State, w': Witness, s: SlabId, c: Cpu, t: TaskId, task: Task)
    requires Inv(k, st, w) && Change(k, st, w, st', w', s, c, t)
    requires task.Alloc? && AllocInv(k, st, task) && Current(st, task.cpu, task.tid) && task.next.Some?
    ensures Next(st'.slabs, task.obj.value) == Next(st.slabs, task.obj.value)
  {
    hide TaskInv, NodeInv, Kept, Holds, Advances, PendInv;
    var y := task.cpu;
    assert CpuInv(k, st, w, y);
    var z := st.cpus[y].slab.value;
    assert SlabInv(st, w, z);
    assert task.obj.value == Ref(z, w.det[z][0]);
  }

  lemma FrameFree(k: Cache, st: State, st': State, x: TaskId, task: Task)
    requires task.Free? && FreeInv(k, st, x, task)
    requires st'.cpus.Keys == st.cpus.Keys && forall c :: c in st.cpus ==> Advances(st.cpus[c], st'.cpus[c])
    requires task.slab in st'.slabs && |st'.slabs[task.slab].mem| == |st.slabs[task.slab].mem|
    requires forall i :: i in task.objs && i < |st.slabs[task.slab].mem| ==>
      i in st'.slabs[task.slab].pend && st'.slabs[task.slab].pend[i] == x
      && st'.slabs[task.slab].mem[i] == st.slabs[task.slab].mem[i]
    ensures FreeInv(k, st', x, task)
  {
    var b, b' := st.slabs[task.slab], st'.slabs[task.slab];
    forall i | 0 <= i < |task.objs| ensures task.objs[i] < |b.mem| && task.objs[i] in task.objs && b'.mem[task.objs[i]] == b.mem[task.objs[i]] {
    }
    assert Linked(task.slab, b'.mem, task.objs);
  }

  lemma FrameTask(k: Cache, st: State, w: Witness, st': State, w': Witness, s: SlabId, c: Cpu, t: TaskId, x: TaskId)
    requires Inv(k, st, w) && Change(k, st, w, st', w', s, c, t) && x in st'.tasks && x != t
    ensures TaskInv(k, st', w', x)
  {
    hide SlabInv, CpuInv, NodeInv, Kept, Holds, AllocInv, FreeInv;
    assert TaskInv(k, st, w, x);
    var task := st.tasks[x];
    assert forall c :: c in st.cpus ==> Advances(st.cpus[c], st'.cpus[c]);
    if task.Alloc? {
      assert task.cpu in st.cpus by { AllocTid(k, st, task); }
      if Current(st, task.cpu, task.tid) && task.next.Some? {
        FrameNext(k, st, w, st', w', s, c, t, task);
      }
      FrameAlloc(k, st, st', task);
    }
    if task.Free? {
      FreeTaskOwns(k, st, x, task);
      FrameFree(k, st, st', x, task);
    }
  }

  lemma AllocTid(k: Cache, st: State, task: Task)
    requires task.Alloc? && AllocInv(k, st, task)
    ensures task.cpu in st.cpus
  {
  }

  lemma FreeTaskOwns(k: Cache, st: State, t: TaskId, task: Task)
    requires task.Free? && FreeInv(k, st, t, task)
    ensures task.slab in st.slabs && task.objs != []
    ensures forall i :: i in task.objs ==> i in st.slabs[task.slab].pend && st.slabs[task.slab].pend[i] == t && i < |st.slabs[task.slab].mem|
    ensures task.objs[0] in task.objs
  {
  }

  /** A step that makes a `Change` keeps the invariant. */
  lemma Frame(k: Cache, st: State, w: Witness, st': State, w': Witness, s: SlabId, c: Cpu, t: TaskId)
    requires Inv(k, st, w) && Change(k, st, w, st', w', s, c, t)
    ensures Inv(k, st', w')
  {
    hide SlabInv, CpuInv, TaskInv, NodeInv, Kept, Holds, SlabRespects, Advances;
    forall x | x in st'.slabs ensures SlabInv(st', w', x) {
      if x != s {
        assert SlabInv(st, w, x);
        assert PendInv(st, x, st.slabs[x]) && Holds(st, w.place[x], x) by { SlabHeld(st, w, x); }
        FramePend(k, st, w, st', w', s, c, t, x);
        FrameKept(k, st, w, st', w', s, c, t, x);
        FrameSlab(st, w, st', w', x);
      }
    }
    forall x | x in st'.cpus ensures CpuInv(k, st', w', x) {
      if x != c { FrameCpu(k, st, w, st', w', s, c, t, x); }
    }
    forall x | x in st'.tasks ensures TaskInv(k, st', w', x) {
      if x != t { FrameTask(k, st, w, st', w', s, c, t, x); }
    }
  }

  lemma SlabHeld(st: State, w: Witness, x: SlabId)
    requires SlabInv(st, w, x)
    ensures PendInv(st, x, st.slabs[x]) && Holds(st, w.place[x], x)
  {
  }
}
