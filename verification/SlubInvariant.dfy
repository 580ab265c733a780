/** What every step of the slab protocol keeps.

    The invariant is stated with a witness: the one place of every slab, and the contents of its
    free list and of its detached free list.  The witness is not part of the state; each
    preservation lemma returns the next one. */
module SlubInvariant {
  import opened Freelist
  import opened SlubMachine

  /** The places a slab can be in. */
  datatype Place =
    | OnCpu(cpu: Cpu)
    | Adopting(cpu: Cpu)
    | OnNode
    | OnCpuPartial(cpu: Cpu)
    | Full
    | InTransit(task: TaskId)

  datatype Witness = Witness(place: map<SlabId, Place>, free: map<SlabId, seq<nat>>, det: map<SlabId, seq<nat>>)

  /** The slabs an activation holds. */
  function Held(task: Task): seq<SlabId>
  {
    match task
    case Deactivate(s, _) => [s]
    case Unfrozen(s, _) => [s]
    case AddPartial(s) => [s]
    case PutCpuPartial(s) => [s]
    case PutPartials(chain, discards) => chain + discards
    case Discard(discards) => discards
    case Walk(s, _) => [s]
    case Freeze(s) => [s]
    case Ready(s, _) => [s]
    case Alloc(_, _, _, _, _) => []
    case Free(_, _, _) => []
  }

  /** The held slabs that have been found empty. */
  predicate Doomed(task: Task, s: SlabId)
  {
    match task
    case Unfrozen(_, inuse) => inuse == 0
    case PutPartials(_, discards) => s in discards
    case Discard(_) => true
    case _ => false
  }

  /** The head of the free list that left the slab and is held by its owner. */
  function DetHead(st: State, p: Place): Ptr
  {
    match p
    case OnCpu(c) =>
      if c !in st.cpus then Null
      else if st.cpus[c].section.Load? then st.cpus[c].section.freelist else st.cpus[c].freelist
    case InTransit(t) =>
      if t in st.tasks && (st.tasks[t].Deactivate? || st.tasks[t].Ready?) then st.tasks[t].freelist else Null
    case _ => Null
  }

  /** Lists, partition and counter of one slab. */
  predicate BodyInv(s: SlabId, b: Slab, f: seq<nat>, d: seq<nat>, h: Ptr)
  {
    && |b.mem| == b.objects >= 1
    && Chain(s, b.mem, b.freelist, f)
    && Chain(s, b.mem, h, d)
    && Parts(b.objects, f, d, b.live, b.pend.Keys)
    && b.inuse + |f| == b.objects
  }

  /** The flags and lists a slab must have in its place, and that its place does hold it. */
  predicate PlaceInv(st: State, p: Place, s: SlabId, b: Slab, f: seq<nat>, d: seq<nat>)
  {
    match p
    case OnCpu(c) =>
      && c in st.cpus && st.cpus[c].slab == Some(s) && !st.cpus[c].section.Bypass? && !st.cpus[c].section.Adopt?
      && b.frozen && !b.partial
    case Adopting(c) =>
      && c in st.cpus && st.cpus[c].slab == Some(s) && st.cpus[c].section.Adopt?
      && !b.frozen && !b.partial && f != [] && d == []
    case OnNode => s in st.node && !b.frozen && b.partial && f != [] && d == []
    case OnCpuPartial(c) => c in st.cpus && s in st.cpus[c].partial && !b.frozen && !b.partial && f != [] && d == []
    case Full => !b.frozen && !b.partial && f == [] && d == []
    case InTransit(t) =>
      && t in st.tasks && s in Held(st.tasks[t]) && !b.partial
      && (if st.tasks[t].Deactivate? then b.frozen
          else if st.tasks[t].Ready? then b.frozen && d != []
          else !b.frozen && f != [] && d == [])
      && (Doomed(st.tasks[t], s) ==> b.inuse == 0)
  }

  /** Every object being freed belongs to the task recorded for it. */
  predicate PendInv(st: State, s: SlabId, b: Slab)
  {
    forall x :: x in b.pend ==>
      && b.pend[x] in st.tasks && st.tasks[b.pend[x]].Free?
      && st.tasks[b.pend[x]].slab == s && x in st.tasks[b.pend[x]].objs
  }

  predicate SlabInv(st: State, w: Witness, s: SlabId)
  {
    && s in st.slabs && s in w.place && s in w.free && s in w.det
    && BodyInv(s, st.slabs[s], w.free[s], w.det[s], DetHead(st, w.place[s]))
    && PlaceInv(st, w.place[s], s, st.slabs[s], w.free[s], w.det[s])
    && PendInv(st, s, st.slabs[s])
  }

  predicate At(w: Witness, s: SlabId, p: Place)
  {
    s in w.place && w.place[s] == p
  }

  predicate CpuInv(k: Cache, st: State, w: Witness, c: Cpu)
  {
    && c in st.cpus && c < k.tidStep && st.cpus[c].tid % k.tidStep == c
    && var p := st.cpus[c];
    && (p.slab.None? ==> p.freelist.Null? && (p.section.Open? || p.section.Bulk?))
    && (p.section.Bypass? || p.section.Adopt? || p.section.Load? ==> p.freelist.Null?)
    && (p.section.Load? ==> p.section.freelist.Ref?)
    && (p.slab.Some? && p.section.Adopt? ==> At(w, p.slab.value, Adopting(c)))
    && (p.slab.Some? && !p.section.Adopt? && !p.section.Bypass? ==> At(w, p.slab.value, OnCpu(c)))
    && NoDup(p.partial)
    && (forall i :: 0 <= i < |p.partial| ==>
          At(w, p.partial[i], OnCpuPartial(c)) && p.partial[i] in st.slabs && st.slabs[p.partial[i]].slabs == |p.partial| - i)
  }

  predicate NodeInv(st: State, w: Witness)
  {
    && NoDup(st.node) && st.nrPartial == |st.node|
    && (forall i :: 0 <= i < |st.node| ==> At(w, st.node[i], OnNode))
  }

  /** A tid read earlier is one this cpu had; `Current`: nothing has happened on the cpu since. */
  predicate TidInv(k: Cache, st: State, c: Cpu, tid: nat)
  {
    c in st.cpus && c < k.tidStep && tid % k.tidStep == c && tid <= st.cpus[c].tid
  }

  predicate Current(st: State, c: Cpu, tid: nat)
  {
    c in st.cpus && st.cpus[c].tid == tid && st.cpus[c].section.Open?
  }

  /** Local variables of the lockless allocation: right whenever the exchange can still succeed. */
  predicate AllocInv(k: Cache, st: State, task: Task)
    requires task.Alloc?
  {
    && TidInv(k, st, task.cpu, task.tid)
    && (task.cpuSlab.Some? ==> task.obj.Some?)
    && (task.next.Some? ==> task.cpuSlab.Some? && task.cpuSlab.value.Some? && task.obj.value.Ref?)
    && (Current(st, task.cpu, task.tid) ==>
          && (task.obj.Some? ==> task.obj.value == st.cpus[task.cpu].freelist)
          && (task.cpuSlab.Some? ==> task.cpuSlab.value == st.cpus[task.cpu].slab)
          && (task.next.Some? ==> task.next.value == Next(st.slabs, task.obj.value)))
  }

  predicate FreeInv(k: Cache, st: State, t: TaskId, task: Task)
    requires task.Free?
  {
    && task.slab in st.slabs && task.objs != [] && NoDup(task.objs)
    && var b := st.slabs[task.slab];
    && Linked(task.slab, b.mem, task.objs)
    && (forall x :: x in task.objs ==> x in b.pend && b.pend[x] == t)
    && match task.phase
       case Start => true
       case TidRead(c, tid) => TidInv(k, st, c, tid)
       case Matched(c, tid) => TidInv(k, st, c, tid) && (Current(st, c, tid) ==> st.cpus[c].slab == Some(task.slab))
       case Spliced(c, tid, h) =>
         && TidInv(k, st, c, tid) && b.mem[Last(task.objs)] == h
         && (Current(st, c, tid) ==> st.cpus[c].slab == Some(task.slab) && st.cpus[c].freelist == h)
       case Slow => true
       case SlowSpliced(prior, _, _) => b.mem[Last(task.objs)] == prior
  }

  predicate TaskInv(k: Cache, st: State, w: Witness, t: TaskId)
  {
    && t in st.tasks
    && var task := st.tasks[t];
    && NoDup(Held(task))
    && (forall i :: 0 <= i < |Held(task)| ==> At(w, Held(task)[i], InTransit(t)))
    && (task.Alloc? ==> AllocInv(k, st, task))
    && (task.Free? ==> FreeInv(k, st, t, task))
  }

  predicate Inv(k: Cache, st: State, w: Witness)
  {
    && w.place.Keys == st.slabs.Keys && w.free.Keys == st.slabs.Keys && w.det.Keys == st.slabs.Keys
    && (forall s :: s in st.slabs ==> SlabInv(st, w, s))
    && (forall c :: c in st.cpus ==> CpuInv(k, st, w, c))
    && (forall t :: t in st.tasks ==> TaskInv(k, st, w, t))
    && NodeInv(st, w)
  }
}
