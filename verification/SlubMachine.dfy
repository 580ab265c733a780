/** The SLUB slab protocol as a state machine.

    One step is one of: a lockless exchange of a cpu's (freelist, tid) pair or one of the reads
    that lead up to it; one successful exchange of a slab's (freelist, counters) pair; one
    section under a cpu's local lock, split where it exchanges a slab's pair; one change of the
    node's partial list under list_lock.  Configuration: no debugging, cpu partial lists, one
    node, preemption allowed. */
module SlubMachine {
  import opened Freelist

  type Cpu = nat
  type TaskId = nat

  /** kmem_cache: the fields the protocol reads. */
  datatype Cache = Cache(tidStep: nat, minPartial: nat, cpuPartialSlabs: nat)

  /** struct slab together with the page it describes.  `live` and `pend` are auxiliary: the
      objects held by callers, and the objects inside a running free with the task freeing them. */
  datatype Slab = Slab(
    freelist: Ptr, inuse: int, objects: nat, frozen: bool,
    partial: bool,
    slabs: nat,
    mem: seq<Ptr>,
    live: set<nat>,
    pend: map<nat, TaskId>)

  /** Where a cpu is inside a section under its local lock.  `Bulk`: objects were taken and the
      tid not yet advanced.  `Bypass`: the cpu slab was unfrozen and `slab` not yet cleared.
      `Adopt`: a cpu partial slab was made the cpu slab and not yet frozen.  `Load`: a free list
      was taken over and not yet stored. */
  datatype Section = Open | Bulk | Bypass | Adopt | Load(freelist: Ptr)

  /** kmem_cache_cpu. */
  datatype CpuSlab = CpuSlab(slab: Option<SlabId>, freelist: Ptr, tid: nat, partial: seq<SlabId>, section: Section)

  /** How far a free has come: `do_slab_free` (Start .. Spliced), then `__slab_free`. */
  datatype Phase =
    | Start
    | TidRead(cpu: Cpu, tid: nat)
    | Matched(cpu: Cpu, tid: nat)
    | Spliced(cpu: Cpu, tid: nat, head: Ptr)
    | Slow
    | SlowSpliced(prior: Ptr, inuse: int, frozen: bool)

  /** An activation that has reached a point between two steps, with its local variables. */
  datatype Task =
    | Deactivate(slab: SlabId, freelist: Ptr)
    | Unfrozen(slab: SlabId, inuse: int)
    | AddPartial(slab: SlabId)
    | PutCpuPartial(slab: SlabId)
    | PutPartials(chain: seq<SlabId>, discards: seq<SlabId>)
    | Discard(discards: seq<SlabId>)
    | Walk(slab: SlabId, moved: nat)
    | Freeze(slab: SlabId)
    | Ready(slab: SlabId, freelist: Ptr)
    | Alloc(cpu: Cpu, tid: nat, obj: Option<Ptr>, cpuSlab: Option<Option<SlabId>>, next: Option<Ptr>)
    | Free(slab: SlabId, objs: seq<nat>, phase: Phase)

  datatype State = State(
    slabs: map<SlabId, Slab>, cpus: map<Cpu, CpuSlab>,
    node: seq<SlabId>, nrPartial: int,
    tasks: map<TaskId, Task>)

  // ---- pieces of the steps ----

  /** get_freepointer */
  function Next(slabs: map<SlabId, Slab>, o: Ptr): Ptr
  {
    if o.Ref? && o.slab in slabs && o.idx < |slabs[o.slab].mem| then slabs[o.slab].mem[o.idx] else Null
  }

  /** The object goes to a caller. */
  function HandOut(slabs: map<SlabId, Slab>, o: Ptr): map<SlabId, Slab>
  {
    if o.Ref? && o.slab in slabs
    then slabs[o.slab := slabs[o.slab].(live := slabs[o.slab].live + {o.idx})]
    else slabs
  }

  /** Taking the whole free list: the exchange of get_freelist and freeze_slab. */
  function TakeList(b: Slab, frozen: bool): Slab
  {
    b.(freelist := Null, inuse := b.objects, frozen := frozen)
  }

  /** Index of `s` in `l`, or |l|. */
  function IndexOf(l: seq<SlabId>, s: SlabId): (i: nat)
    ensures i <= |l| && (i < |l| ==> l[i] == s) && (s in l ==> i < |l|)
  {
    if l == [] then 0 else if l[0] == s then 0 else 1 + IndexOf(l[1..], s)
  }

  /** list_del */
  function Remove(l: seq<SlabId>, s: SlabId): seq<SlabId>
  {
    var i := IndexOf(l, s);
    if i < |l| then l[..i] + l[i + 1..] else l
  }

  /** The `slabs` count put_cpu_partial stores on the slab it puts in front of `chain`. */
  function ChainCount(slabs: map<SlabId, Slab>, chain: seq<SlabId>): nat
  {
    if chain != [] && chain[0] in slabs then slabs[chain[0]].slabs + 1 else 1
  }

  function Without(pend: map<nat, TaskId>, objs: seq<nat>): map<nat, TaskId>
  {
    map x | x in pend && x !in objs :: pend[x]
  }

  function With(pend: map<nat, TaskId>, objs: seq<nat>, t: TaskId): map<nat, TaskId>
  {
    map x | x in pend.Keys + Elems(objs) :: if x in objs then t else pend[x]
  }

  datatype Label =
    // __slab_alloc_node, lockless path
    | AllocReadTid(t: TaskId, c: Cpu)
    | AllocReadObject(t: TaskId)
    | AllocReadSlab(t: TaskId)
    | AllocSlow(t: TaskId)
    | AllocReadNext(t: TaskId, garbage: Ptr)
    | AllocExchange(t: TaskId, c: Cpu)
    // sections under the cpu's local lock
    | LockedPop(c: Cpu)
    | BulkPop(c: Cpu)
    | BulkEnd(c: Cpu)
    | GetFreelist(c: Cpu)
    | BypassEnd(c: Cpu)
    | LoadEnd(c: Cpu)
    | AdoptPartial(c: Cpu)
    | AdoptTake(c: Cpu)
    | Flush(t: TaskId, c: Cpu)
    | LoadSlab(t: TaskId, c: Cpu)
    | TakePartials(t: TaskId, c: Cpu)
    | PutOnCpu(t: TaskId, c: Cpu, u: TaskId)
    // deactivate_slab, __put_partials, discard_slab
    | Unfreeze(t: TaskId, walked: seq<nat>)
    | Decide(t: TaskId)
    | AddToNode(t: TaskId, tail: bool)
    | PutOne(t: TaskId)
    | PutDone(t: TaskId)
    | DiscardOne(t: TaskId)
    | DiscardDone(t: TaskId)
    // get_partial_node, freeze_slab, new_slab
    | WalkFirst(t: TaskId)
    | WalkMore(t: TaskId, c: Cpu)
    | WalkDone(t: TaskId)
    | FreezeSlab(t: TaskId)
    | NewSlab(t: TaskId, s: SlabId, order: seq<nat>)
    // do_slab_free and __slab_free
    | FreeBegin(t: TaskId, s: SlabId, objs: seq<nat>)
    | FreeReadTid(t: TaskId, c: Cpu)
    | FreeCheckSlab(t: TaskId)
    | FreeSplice(t: TaskId)
    | FreeExchange(t: TaskId, c: Cpu)
    | SlowSplice(t: TaskId)
    | SlowExchange(t: TaskId)
    // the rest of the kernel
    | CallerWrite(s: SlabId, i: nat, v: Ptr)
    | ShrinkDiscard(t: TaskId, s: SlabId)
    | ShrinkReorder(order: seq<SlabId>)

  // ---- the lockless allocation ----

  predicate StepAllocReadTid(st: State, st': State, t: TaskId, c: Cpu)
  {
    && t !in st.tasks && c in st.cpus
    && st' == st.(tasks := st.tasks[t := Alloc(c, st.cpus[c].tid, None, None, None)])
  }

  predicate StepAllocReadObject(st: State, st': State, t: TaskId)
  {
    && t in st.tasks && st.tasks[t].Alloc? && st.tasks[t].obj.None? && st.tasks[t].cpu in st.cpus
    && st' == st.(tasks := st.tasks[t := st.tasks[t].(obj := Some(st.cpus[st.tasks[t].cpu].freelist))])
  }

  predicate StepAllocReadSlab(st: State, st': State, t: TaskId)
  {
    && t in st.tasks && st.tasks[t].Alloc? && st.tasks[t].obj.Some? && st.tasks[t].cpuSlab.None?
    && st.tasks[t].cpu in st.cpus
    && st' == st.(tasks := st.tasks[t := st.tasks[t].(cpuSlab := Some(st.cpus[st.tasks[t].cpu].slab))])
  }

  /** No free object or no slab: the allocation goes on in ___slab_alloc. */
  predicate StepAllocSlow(st: State, st': State, t: TaskId)
  {
    && t in st.tasks && st.tasks[t].Alloc? && st.tasks[t].obj.Some? && st.tasks[t].cpuSlab.Some?
    && (st.tasks[t].obj.value.Null? || st.tasks[t].cpuSlab.value.None?)
    && st' == st.(tasks := st.tasks - {t})
  }

  /** get_freepointer_safe: memory that is no slab page any more reads as garbage. */
  predicate StepAllocReadNext(st: State, st': State, t: TaskId, garbage: Ptr)
  {
    && t in st.tasks && st.tasks[t].Alloc? && st.tasks[t].next.None?
    && st.tasks[t].obj.Some? && st.tasks[t].obj.value.Ref?
    && st.tasks[t].cpuSlab.Some? && st.tasks[t].cpuSlab.value.Some?
    && var o := st.tasks[t].obj.value;
       var v := if o.slab in st.slabs && o.idx < |st.slabs[o.slab].mem| then Next(st.slabs, o) else garbage;
       st' == st.(tasks := st.tasks[t := st.tasks[t].(next := Some(v))])
  }

  /** The exchange runs on whatever cpu the task is on now. */
  predicate AllocExchangeHits(st: State, t: TaskId, c: Cpu)
  {
    && t in st.tasks && st.tasks[t].Alloc? && st.tasks[t].next.Some? && st.tasks[t].obj.Some?
    && c in st.cpus && st.cpus[c].section.Open?
    && st.cpus[c].freelist == st.tasks[t].obj.value && st.cpus[c].tid == st.tasks[t].tid
  }

  predicate StepAllocExchange(k: Cache, st: State, st': State, t: TaskId, c: Cpu)
  {
    && t in st.tasks && st.tasks[t].Alloc? && st.tasks[t].next.Some? && st.tasks[t].obj.Some?
    && c in st.cpus && st.cpus[c].section.Open?
    && if AllocExchangeHits(st, t, c) then
         st' == st.(
           cpus := st.cpus[c := st.cpus[c].(freelist := st.tasks[t].next.value, tid := st.cpus[c].tid + k.tidStep)],
           slabs := HandOut(st.slabs, st.tasks[t].obj.value),
           tasks := st.tasks - {t})
       else
         st' == st.(tasks := st.tasks - {t})
  }

  // ---- local-lock sections ----

  /** ___slab_alloc at load_freelist with a non-empty cpu free list. */
  predicate StepLockedPop(k: Cache, st: State, st': State, c: Cpu)
  {
    && c in st.cpus && st.cpus[c].section.Open? && st.cpus[c].slab.Some? && st.cpus[c].freelist.Ref?
    && st' == st.(
         cpus := st.cpus[c := st.cpus[c].(freelist := Next(st.slabs, st.cpus[c].freelist), tid := st.cpus[c].tid + k.tidStep)],
         slabs := HandOut(st.slabs, st.cpus[c].freelist))
  }

  /** One round of __kmem_cache_alloc_bulk: the tid is not advanced yet. */
  predicate StepBulkPop(st: State, st': State, c: Cpu)
  {
    && c in st.cpus && (st.cpus[c].section.Open? || st.cpus[c].section.Bulk?) && st.cpus[c].freelist.Ref?
    && st' == st.(
         cpus := st.cpus[c := st.cpus[c].(freelist := Next(st.slabs, st.cpus[c].freelist), section := Bulk)],
         slabs := HandOut(st.slabs, st.cpus[c].freelist))
  }

  predicate StepBulkEnd(k: Cache, st: State, st': State, c: Cpu)
  {
    && c in st.cpus && (st.cpus[c].section.Open? || st.cpus[c].section.Bulk?)
    && st' == st.(cpus := st.cpus[c := st.cpus[c].(tid := st.cpus[c].tid + k.tidStep, section := Open)])
  }

  /** get_freelist on the cpu slab, whose cpu free list is empty. */
  predicate StepGetFreelist(st: State, st': State, c: Cpu)
  {
    && c in st.cpus && st.cpus[c].section.Open? && st.cpus[c].slab.Some? && st.cpus[c].freelist.Null?
    && st.cpus[c].slab.value in st.slabs
    && var s := st.cpus[c].slab.value;
       var fl := st.slabs[s].freelist;
       st' == st.(
         slabs := st.slabs[s := TakeList(st.slabs[s], fl.Ref?)],
         cpus := st.cpus[c := st.cpus[c].(section := if fl.Null? then Bypass else Load(fl))])
  }

  predicate StepBypassEnd(k: Cache, st: State, st': State, c: Cpu)
  {
    && c in st.cpus && st.cpus[c].section.Bypass?
    && st' == st.(cpus := st.cpus[c := st.cpus[c].(slab := None, tid := st.cpus[c].tid + k.tidStep, section := Open)])
  }

  predicate StepLoadEnd(k: Cache, st: State, st': State, c: Cpu)
  {
    && c in st.cpus && st.cpus[c].section.Load?
    && var fl := st.cpus[c].section.freelist;
       st' == st.(
         cpus := st.cpus[c := st.cpus[c].(freelist := Next(st.slabs, fl), tid := st.cpus[c].tid + k.tidStep, section := Open)],
         slabs := HandOut(st.slabs, fl))
  }

  /** ___slab_alloc takes the first cpu partial slab. */
  predicate StepAdoptPartial(st: State, st': State, c: Cpu)
  {
    && c in st.cpus && st.cpus[c].section.Open? && st.cpus[c].slab.None? && st.cpus[c].partial != []
    && st' == st.(cpus := st.cpus[c := st.cpus[c].(
         slab := Some(st.cpus[c].partial[0]), partial := st.cpus[c].partial[1..], section := Adopt)])
  }

  predicate StepAdoptTake(st: State, st': State, c: Cpu)
  {
    && c in st.cpus && st.cpus[c].section.Adopt? && st.cpus[c].slab.Some? && st.cpus[c].slab.value in st.slabs
    && var s := st.cpus[c].slab.value;
       var fl := st.slabs[s].freelist;
       st' == st.(
         slabs := st.slabs[s := TakeList(st.slabs[s], fl.Ref?)],
         cpus := st.cpus[c := st.cpus[c].(section := Load(fl))])
  }

  /** flush_slab, and the sections of ___slab_alloc that take the cpu slab away. */
  predicate StepFlush(k: Cache, st: State, st': State, t: TaskId, c: Cpu)
  {
    && t !in st.tasks && c in st.cpus && st.cpus[c].section.Open?
    && var p := st.cpus[c];
       st' == st.(
         cpus := st.cpus[c := p.(slab := None, freelist := Null, tid := p.tid + k.tidStep)],
         tasks := if p.slab.Some? then st.tasks[t := Deactivate(p.slab.value, p.freelist)] else st.tasks)
  }

  /** retry_load_slab once the cpu has no slab, then load_freelist. */
  predicate StepLoadSlab(k: Cache, st: State, st': State, t: TaskId, c: Cpu)
  {
    && t in st.tasks && st.tasks[t].Ready? && c in st.cpus && st.cpus[c].section.Open? && st.cpus[c].slab.None?
    && var fl := st.tasks[t].freelist;
       st' == st.(
         cpus := st.cpus[c := st.cpus[c].(
           slab := Some(st.tasks[t].slab), freelist := Next(st.slabs, fl), tid := st.cpus[c].tid + k.tidStep)],
         slabs := HandOut(st.slabs, fl),
         tasks := st.tasks - {t})
  }

  /** put_partials */
  predicate StepTakePartials(st: State, st': State, t: TaskId, c: Cpu)
  {
    && t !in st.tasks && c in st.cpus && st.cpus[c].section.Open?
    && st' == st.(
         cpus := st.cpus[c := st.cpus[c].(partial := [])],
         tasks := st.tasks[t := PutPartials(st.cpus[c].partial, [])])
  }

  /** put_cpu_partial with drain; a chain that has reached the limit is left to `u` to put back. */
  predicate StepPutOnCpu(k: Cache, st: State, st': State, t: TaskId, c: Cpu, u: TaskId)
  {
    && t in st.tasks && st.tasks[t].PutCpuPartial? && st.tasks[t].slab in st.slabs
    && c in st.cpus && st.cpus[c].section.Open?
    && var s := st.tasks[t].slab;
       var chain := st.cpus[c].partial;
       if chain != [] && chain[0] in st.slabs && st.slabs[chain[0]].slabs >= k.cpuPartialSlabs then
         u !in st.tasks && st' == st.(
           slabs := st.slabs[s := st.slabs[s].(slabs := 1)],
           cpus := st.cpus[c := st.cpus[c].(partial := [s])],
           tasks := (st.tasks - {t})[u := PutPartials(chain, [])])
       else
         st' == st.(
           slabs := st.slabs[s := st.slabs[s].(slabs := ChainCount(st.slabs, chain))],
           cpus := st.cpus[c := st.cpus[c].(partial := [s] + chain)],
           tasks := st.tasks - {t})
  }

  // ---- deactivation ----

  /** deactivate_slab: walk the cpu free list, then unfreeze and splice it in one exchange. */
  predicate StepUnfreeze(st: State, st': State, t: TaskId, walked: seq<nat>)
  {
    && t in st.tasks && st.tasks[t].Deactivate? && st.tasks[t].slab in st.slabs
    && var s := st.tasks[t].slab;
       var b := st.slabs[s];
       && Chain(s, b.mem, st.tasks[t].freelist, walked)
       && var b' := if walked == [] then b.(frozen := false)
                    else b.(frozen := false, inuse := b.inuse - |walked|, freelist := st.tasks[t].freelist,
                            mem := if Last(walked) < |b.mem| then b.mem[Last(walked) := b.freelist] else b.mem);
          st' == st.(
            slabs := st.slabs[s := b'],
            tasks := if b'.freelist.Null? then st.tasks - {t} else st.tasks[t := Unfrozen(s, b'.inuse)])
  }

  predicate StepDecide(k: Cache, st: State, st': State, t: TaskId)
  {
    && t in st.tasks && st.tasks[t].Unfrozen?
    && var s := st.tasks[t].slab;
       st' == st.(tasks := st.tasks[t :=
         if st.tasks[t].inuse == 0 && st.nrPartial >= k.minPartial then Discard([s]) else AddPartial(s)])
  }

  predicate StepAddToNode(st: State, st': State, t: TaskId, tail: bool)
  {
    && t in st.tasks && st.tasks[t].AddPartial? && st.tasks[t].slab in st.slabs
    && var s := st.tasks[t].slab;
       st' == st.(
         slabs := st.slabs[s := st.slabs[s].(partial := true)],
         node := if tail then st.node + [s] else [s] + st.node,
         nrPartial := st.nrPartial + 1,
         tasks := st.tasks - {t})
  }

  /** One slab of __put_partials. */
  predicate StepPutOne(k: Cache, st: State, st': State, t: TaskId)
  {
    && t in st.tasks && st.tasks[t].PutPartials? && st.tasks[t].chain != [] && st.tasks[t].chain[0] in st.slabs
    && var s := st.tasks[t].chain[0];
       if st.slabs[s].inuse == 0 && st.nrPartial >= k.minPartial then
         st' == st.(tasks := st.tasks[t := PutPartials(st.tasks[t].chain[1..], [s] + st.tasks[t].discards)])
       else
         st' == st.(
           slabs := st.slabs[s := st.slabs[s].(partial := true)],
           node := st.node + [s],
           nrPartial := st.nrPartial + 1,
           tasks := st.tasks[t := PutPartials(st.tasks[t].chain[1..], st.tasks[t].discards)])
  }

  predicate StepPutDone(st: State, st': State, t: TaskId)
  {
    && t in st.tasks && st.tasks[t].PutPartials? && st.tasks[t].chain == []
    && st' == st.(tasks := st.tasks[t := Discard(st.tasks[t].discards)])
  }

  /** discard_slab: the page goes back to the page allocator. */
  predicate StepDiscardOne(st: State, st': State, t: TaskId)
  {
    && t in st.tasks && st.tasks[t].Discard? && st.tasks[t].discards != []
    && st' == st.(
         slabs := st.slabs - {st.tasks[t].discards[0]},
         tasks := st.tasks[t := Discard(st.tasks[t].discards[1..])])
  }

  predicate StepDiscardDone(st: State, st': State, t: TaskId)
  {
    && t in st.tasks && st.tasks[t].Discard? && st.tasks[t].discards == []
    && st' == st.(tasks := st.tasks - {t})
  }

  // ---- getting a slab ----

  /** get_partial_node: the first slab is kept for the caller. */
  predicate StepWalkFirst(st: State, st': State, t: TaskId)
  {
    && t !in st.tasks && st.node != [] && st.node[0] in st.slabs
    && var s := st.node[0];
       st' == st.(
         slabs := st.slabs[s := st.slabs[s].(partial := false)],
         node := st.node[1..],
         nrPartial := st.nrPartial - 1,
         tasks := st.tasks[t := Walk(s, 0)])
  }

  /** The next slabs go to the cpu partial list, at most half its limit plus one of them. */
  predicate StepWalkMore(k: Cache, st: State, st': State, t: TaskId, c: Cpu)
  {
    && t in st.tasks && st.tasks[t].Walk? && k.cpuPartialSlabs > 0 && st.tasks[t].moved <= k.cpuPartialSlabs / 2
    && st.node != [] && st.node[0] in st.slabs
    && c in st.cpus && st.cpus[c].section.Open?
    && var s := st.node[0];
       var chain := st.cpus[c].partial;
       st' == st.(
         slabs := st.slabs[s := st.slabs[s].(partial := false, slabs := ChainCount(st.slabs, chain))],
         node := st.node[1..],
         nrPartial := st.nrPartial - 1,
         cpus := st.cpus[c := st.cpus[c].(partial := [s] + chain)],
         tasks := st.tasks[t := st.tasks[t].(moved := st.tasks[t].moved + 1)])
  }

  predicate StepWalkDone(k: Cache, st: State, st': State, t: TaskId)
  {
    && t in st.tasks && st.tasks[t].Walk?
    && (st.node == [] || k.cpuPartialSlabs == 0 || st.tasks[t].moved > k.cpuPartialSlabs / 2)
    && st' == st.(tasks := st.tasks[t := Freeze(st.tasks[t].slab)])
  }

  predicate StepFreezeSlab(st: State, st': State, t: TaskId)
  {
    && t in st.tasks && st.tasks[t].Freeze? && st.tasks[t].slab in st.slabs
    && var s := st.tasks[t].slab;
       st' == st.(
         slabs := st.slabs[s := TakeList(st.slabs[s], true)],
         tasks := st.tasks[t := Ready(s, st.slabs[s].freelist)])
  }

  /** A fresh page, its objects linked in `order`, the whole list taken at once. */
  predicate StepNewSlab(st: State, st': State, t: TaskId, s: SlabId, order: seq<nat>)
  {
    && t !in st.tasks && s !in st.slabs && order != []
    && multiset(order) == multiset(Range(|order|))
    && (forall i :: 0 <= i < |order| ==> order[i] < |order|)
    && var n := |order|;
       st' == st.(
         slabs := st.slabs[s := Slab(Null, n, n, true, false, 0, Link(s, seq(n, _ => Null), order), {}, map[])],
         tasks := st.tasks[t := Ready(s, Ref(s, order[0]))])
  }

  // ---- freeing ----

  /** do_slab_free is entered with a chain of objects of one slab, handed over by their holder. */
  predicate StepFreeBegin(st: State, st': State, t: TaskId, s: SlabId, objs: seq<nat>)
  {
    && t !in st.tasks && s in st.slabs && objs != [] && NoDup(objs)
    && (forall x :: x in objs ==> x in st.slabs[s].live)
    && (forall i :: 0 <= i < |objs| ==> objs[i] < |st.slabs[s].mem|)
    && var b := st.slabs[s];
       st' == st.(
         slabs := st.slabs[s := b.(mem := Link(s, b.mem, objs), live := b.live - Elems(objs), pend := With(b.pend, objs, t))],
         tasks := st.tasks[t := Free(s, objs, Start)])
  }

  predicate StepFreeReadTid(st: State, st': State, t: TaskId, c: Cpu)
  {
    && t in st.tasks && st.tasks[t].Free? && st.tasks[t].phase.Start? && c in st.cpus
    && st' == st.(tasks := st.tasks[t := st.tasks[t].(phase := TidRead(c, st.cpus[c].tid))])
  }

  predicate StepFreeCheckSlab(st: State, st': State, t: TaskId)
  {
    && t in st.tasks && st.tasks[t].Free? && st.tasks[t].phase.TidRead? && st.tasks[t].phase.cpu in st.cpus
    && var ph := st.tasks[t].phase;
       st' == st.(tasks := st.tasks[t := st.tasks[t].(phase :=
         if st.cpus[ph.cpu].slab == Some(st.tasks[t].slab) then Matched(ph.cpu, ph.tid) else Slow)])
  }

  /** Read the cpu free list and point the last freed object at it. */
  predicate StepFreeSplice(st: State, st': State, t: TaskId)
  {
    && t in st.tasks && st.tasks[t].Free? && st.tasks[t].phase.Matched? && st.tasks[t].phase.cpu in st.cpus
    && st.tasks[t].slab in st.slabs && st.tasks[t].objs != []
    && Last(st.tasks[t].objs) < |st.slabs[st.tasks[t].slab].mem|
    && var s := st.tasks[t].slab;
       var ph := st.tasks[t].phase;
       var h := st.cpus[ph.cpu].freelist;
       st' == st.(
         slabs := st.slabs[s := st.slabs[s].(mem := st.slabs[s].mem[Last(st.tasks[t].objs) := h])],
         tasks := st.tasks[t := st.tasks[t].(phase := Spliced(ph.cpu, ph.tid, h))])
  }

  predicate FreeExchangeHits(st: State, t: TaskId, c: Cpu)
  {
    && t in st.tasks && st.tasks[t].Free? && st.tasks[t].phase.Spliced? && st.tasks[t].objs != []
    && c in st.cpus && st.cpus[c].section.Open?
    && st.cpus[c].freelist == st.tasks[t].phase.head && st.cpus[c].tid == st.tasks[t].phase.tid
  }

  predicate StepFreeExchange(k: Cache, st: State, st': State, t: TaskId, c: Cpu)
  {
    && t in st.tasks && st.tasks[t].Free? && st.tasks[t].phase.Spliced? && st.tasks[t].objs != []
    && st.tasks[t].slab in st.slabs
    && c in st.cpus && st.cpus[c].section.Open?
    && var s := st.tasks[t].slab;
       var b := st.slabs[s];
       if FreeExchangeHits(st, t, c) then
         st' == st.(
           cpus := st.cpus[c := st.cpus[c].(freelist := Ref(s, st.tasks[t].objs[0]), tid := st.cpus[c].tid + k.tidStep)],
           slabs := st.slabs[s := b.(pend := Without(b.pend, st.tasks[t].objs))],
           tasks := st.tasks - {t})
       else
         st' == st.(tasks := st.tasks[t := st.tasks[t].(phase := Start)])
  }

  /** __slab_free reads the slab's pair and points the last freed object at its free list. */
  predicate StepSlowSplice(st: State, st': State, t: TaskId)
  {
    && t in st.tasks && st.tasks[t].Free? && st.tasks[t].phase.Slow?
    && st.tasks[t].slab in st.slabs && st.tasks[t].objs != []
    && Last(st.tasks[t].objs) < |st.slabs[st.tasks[t].slab].mem|
    && var s := st.tasks[t].slab;
       var b := st.slabs[s];
       st' == st.(
         slabs := st.slabs[s := b.(mem := b.mem[Last(st.tasks[t].objs) := b.freelist])],
         tasks := st.tasks[t := st.tasks[t].(phase := SlowSpliced(b.freelist, b.inuse, b.frozen))])
  }

  /** The slab after the exchange of __slab_free. */
  function Pushed(b: Slab, s: SlabId, objs: seq<nat>): Slab
    requires objs != []
  {
    b.(freelist := Ref(s, objs[0]), inuse := b.inuse - |objs|, pend := Without(b.pend, objs))
  }

  predicate StepSlowExchange(k: Cache, st: State, st': State, t: TaskId)
  {
    && t in st.tasks && st.tasks[t].Free? && st.tasks[t].phase.SlowSpliced? && st.tasks[t].objs != []
    && st.tasks[t].slab in st.slabs
    && var s := st.tasks[t].slab;
       var b := st.slabs[s];
       var ph := st.tasks[t].phase;
       var b' := Pushed(b, s, st.tasks[t].objs);
       if !(b.freelist == ph.prior && b.inuse == ph.inuse && b.frozen == ph.frozen) then
         st' == st.(tasks := st.tasks[t := st.tasks[t].(phase := Slow)])
       else if b.frozen then
         st' == st.(slabs := st.slabs[s := b'], tasks := st.tasks - {t})
       else if b.freelist.Null? then
         st' == st.(slabs := st.slabs[s := b'], tasks := st.tasks[t := PutCpuPartial(s)])
       else if b'.inuse == 0 && b.partial && st.nrPartial >= k.minPartial then
         st' == st.(
           slabs := st.slabs[s := b'.(partial := false)],
           node := Remove(st.node, s),
           nrPartial := st.nrPartial - 1,
           tasks := st.tasks[t := Discard([s])])
       else
         st' == st.(slabs := st.slabs[s := b'], tasks := st.tasks - {t})
  }

  // ---- the rest of the kernel ----

  /** Holders may overwrite any word of the objects they hold. */
  predicate StepCallerWrite(st: State, st': State, s: SlabId, i: nat, v: Ptr)
  {
    && s in st.slabs && i in st.slabs[s].live && i < |st.slabs[s].mem|
    && st' == st.(slabs := st.slabs[s := st.slabs[s].(mem := st.slabs[s].mem[i := v])])
  }

  /** __kmem_cache_do_shrink takes a completely free slab off the partial list. */
  predicate StepShrinkDiscard(st: State, st': State, t: TaskId, s: SlabId)
  {
    && t !in st.tasks && s in st.slabs && s in st.node && st.slabs[s].inuse == 0
    && st' == st.(
         slabs := st.slabs[s := st.slabs[s].(partial := false)],
         node := Remove(st.node, s),
         nrPartial := st.nrPartial - 1,
         tasks := st.tasks[t := Discard([s])])
  }

  predicate StepShrinkReorder(st: State, st': State, order: seq<SlabId>)
  {
    && multiset(order) == multiset(st.node)
    && st' == st.(node := order)
  }

  /** Allocation and a cpu on its own slab. */
  predicate CpuPath(k: Cache, st: State, st': State, ev: Label)
  {
    match ev
    case AllocReadTid(t, c) => StepAllocReadTid(st, st', t, c)
    case AllocReadObject(t) => StepAllocReadObject(st, st', t)
    case AllocReadSlab(t) => StepAllocReadSlab(st, st', t)
    case AllocSlow(t) => StepAllocSlow(st, st', t)
    case AllocReadNext(t, garbage) => StepAllocReadNext(st, st', t, garbage)
    case AllocExchange(t, c) => StepAllocExchange(k, st, st', t, c)
    case LockedPop(c) => StepLockedPop(k, st, st', c)
    case BulkPop(c) => StepBulkPop(st, st', c)
    case BulkEnd(c) => StepBulkEnd(k, st, st', c)
    case GetFreelist(c) => StepGetFreelist(st, st', c)
    case BypassEnd(c) => StepBypassEnd(k, st, st', c)
    case LoadEnd(c) => StepLoadEnd(k, st, st', c)
    case _ => false
  }

  /** Slabs between cpus, partial lists and activations. */
  predicate MovePath(k: Cache, st: State, st': State, ev: Label)
  {
    match ev
    case AdoptPartial(c) => StepAdoptPartial(st, st', c)
    case AdoptTake(c) => StepAdoptTake(st, st', c)
    case Flush(t, c) => StepFlush(k, st, st', t, c)
    case LoadSlab(t, c) => StepLoadSlab(k, st, st', t, c)
    case TakePartials(t, c) => StepTakePartials(st, st', t, c)
    case PutOnCpu(t, c, u) => StepPutOnCpu(k, st, st', t, c, u)
    case Unfreeze(t, walked) => StepUnfreeze(st, st', t, walked)
    case Decide(t) => StepDecide(k, st, st', t)
    case AddToNode(t, tail) => StepAddToNode(st, st', t, tail)
    case PutOne(t) => StepPutOne(k, st, st', t)
    case PutDone(t) => StepPutDone(st, st', t)
    case _ => false
  }

  /** Discarding, the node list and new slabs. */
  predicate NodePath(k: Cache, st: State, st': State, ev: Label)
  {
    match ev
    case DiscardOne(t) => StepDiscardOne(st, st', t)
    case DiscardDone(t) => StepDiscardDone(st, st', t)
    case WalkFirst(t) => StepWalkFirst(st, st', t)
    case WalkMore(t, c) => StepWalkMore(k, st, st', t, c)
    case WalkDone(t) => StepWalkDone(k, st, st', t)
    case FreezeSlab(t) => StepFreezeSlab(st, st', t)
    case NewSlab(t, s, order) => StepNewSlab(st, st', t, s, order)
    case _ => false
  }

  /** Freeing, and shrinking. */
  predicate FreePath(k: Cache, st: State, st': State, ev: Label)
  {
    match ev
    case FreeBegin(t, s, objs) => StepFreeBegin(st, st', t, s, objs)
    case FreeReadTid(t, c) => StepFreeReadTid(st, st', t, c)
    case FreeCheckSlab(t) => StepFreeCheckSlab(st, st', t)
    case FreeSplice(t) => StepFreeSplice(st, st', t)
    case FreeExchange(t, c) => StepFreeExchange(k, st, st', t, c)
    case SlowSplice(t) => StepSlowSplice(st, st', t)
    case SlowExchange(t) => StepSlowExchange(k, st, st', t)
    case CallerWrite(s, i, v) => StepCallerWrite(st, st', s, i, v)
    case ShrinkDiscard(t, s) => StepShrinkDiscard(st, st', t, s)
    case ShrinkReorder(order) => StepShrinkReorder(st, st', order)
    case _ => false
  }

  predicate Step(k: Cache, st: State, st': State, ev: Label)
  {
    CpuPath(k, st, st', ev) || MovePath(k, st, st', ev) || NodePath(k, st, st', ev) || FreePath(k, st, st', ev)
  }

  /** init_kmem_cache_cpus, init_kmem_cache_node: nothing allocated, tids start at the cpu number. */
  predicate Init(k: Cache, st: State)
  {
    && st.slabs == map[] && st.tasks == map[] && st.node == [] && st.nrPartial == 0
    && forall c :: c in st.cpus ==> c < k.tidStep && st.cpus[c] == CpuSlab(None, Null, c, [], Open)
  }
}
