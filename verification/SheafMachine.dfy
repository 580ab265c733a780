/** The per-cpu sheaves and the barn as a state machine.

    A sheaf is an array of cached objects.  A cpu has a main sheaf, perhaps a spare, perhaps one
    for kfree_rcu; the node's barn keeps lists of empty and of full sheaves.  The paths that
    replace a sheaf drop the cpu's local lock midway and go on, possibly on another cpu.  One
    step is a piece of a locked section with at most one access to the barn, or a piece of
    unlocked work on a sheaf the activation owns.  Checks of barn counters outside the barn's
    lock may be out of date, so they may go either way.  The slab layer below appears as the set
    of objects it has free.  One node. */
module SheafMachine {
  import opened Freelist

  type Cpu = nat
  type ActId = nat
  type SheafId = nat
  type Obj = nat

  const PCS_BATCH_MAX := 32

  /** struct node_barn */
  datatype Barn = Barn(full: seq<SheafId>, empty: seq<SheafId>, nrFull: int, nrEmpty: int)

  /** struct slub_percpu_sheaves; `lock` is the activation that holds the local lock. */
  datatype Pcs = Pcs(main: SheafId, spare: Option<SheafId>, rcuFree: Option<SheafId>, lock: Option<ActId>)

  /** What a refill is for: __pcs_replace_empty_main, kmem_cache_prefill_sheaf, kmem_cache_return_sheaf. */
  datatype Purpose = ForAlloc | ForPrefill | ForReturn

  /** An activation between two steps, with its local variables. */
  datatype Act =
    // alloc_from_pcs
    | Hunt(cpu: Cpu)
    | NeedSheaf
    | Refill(sheaf: SheafId, got: seq<Obj>, purpose: Purpose)
    | HaveFull(sheaf: SheafId)
    | Pop(cpu: Cpu)
    // free_to_pcs
    | FullMain(cpu: Cpu, obj: Obj)
    | NeedEmpty(obj: Obj)
    | FlushSpare(sheaf: SheafId, obj: Obj)
    | HaveEmpty(sheaf: SheafId, obj: Obj)
    | Push(cpu: Cpu, obj: Obj)
    // sheaf_flush_main, on behalf of a free of `obj` or of pcs_flush_all
    | FlushMain(batch: seq<Obj>, more: bool, flushed: bool, cont: Option<Obj>)
    // __kfree_rcu_sheaf and rcu_free_sheaf
    | RcuNeed(obj: Obj)
    | RcuHave(sheaf: SheafId, obj: Obj)
    | RcuPush(cpu: Cpu, obj: Obj)
    | RcuSheaf(sheaf: SheafId, barn: bool)
    | RcuReady(sheaf: SheafId, barn: bool)
    // ends of a sheaf
    | FlushFree(sheaf: SheafId)
    | ToEmpty(sheaf: SheafId)
    | FreeEmpty(sheaf: SheafId)
    | PutFull(sheaf: SheafId)
    // prefilled sheaves
    | PrefillNeed(size: nat)
    | PrefillHave(sheaf: SheafId, size: nat)
    | Prefilled(sheaf: SheafId)
    // kmem_cache_alloc_bulk and kmem_cache_free_bulk
    | BulkAlloc(want: nat, got: seq<Obj>)
    | BulkSlab(want: nat, got: seq<Obj>)
    | BulkFree(rest: seq<Obj>)

  /** `below`: free in the slab layer.  `callers`: held by callers.  `delayed`: kept back by the free hooks. */
  datatype State = State(
    sheaves: map<SheafId, seq<Obj>>, pcs: map<Cpu, Pcs>, barn: Barn, acts: map<ActId, Act>,
    below: set<Obj>, callers: set<Obj>, delayed: set<Obj>)

  datatype Outcome = Got | TooBig | NoSheaf

  // ---- pieces of the steps ----

  function PutEmpty(b: Barn, e: SheafId): Barn
  {
    b.(empty := [e] + b.empty, nrEmpty := b.nrEmpty + 1)
  }

  function PutFullTo(b: Barn, e: SheafId): Barn
  {
    b.(full := [e] + b.full, nrFull := b.nrFull + 1)
  }

  predicate HasEmpty(b: Barn)
  {
    b.nrEmpty != 0 && b.empty != []
  }

  predicate HasFull(b: Barn)
  {
    b.nrFull != 0 && b.full != []
  }

  function TakeEmpty(b: Barn): Barn
    requires HasEmpty(b)
  {
    b.(empty := b.empty[1..], nrEmpty := b.nrEmpty - 1)
  }

  function TakeFull(b: Barn): Barn
    requires HasFull(b)
  {
    b.(full := b.full[1..], nrFull := b.nrFull - 1)
  }

  function Size(st: State, e: SheafId): nat
  {
    if e in st.sheaves then |st.sheaves[e]| else 0
  }

  /** The cpu's lock is free. */
  predicate Unlocked(st: State, c: Cpu)
  {
    c in st.pcs && st.pcs[c].lock.None? && st.pcs[c].main in st.sheaves
  }

  /** Activation `t` holds the lock of cpu `c`. */
  predicate Locked(st: State, c: Cpu, t: ActId)
  {
    c in st.pcs && st.pcs[c].lock == Some(t) && st.pcs[c].main in st.sheaves
  }

  /** swap(pcs->main, pcs->spare) */
  function Swap(p: Pcs): Pcs
    requires p.spare.Some?
  {
    p.(main := p.spare.value, spare := Some(p.main))
  }

  datatype Label =
    | AllocEnter(t: ActId, c: Cpu, miss: bool)
    | HuntGiveUp(t: ActId)
    | HuntTake(t: ActId, miss: bool)
    | NewSheaf(t: ActId, e: SheafId)
    | NewSheafFails(t: ActId)
    | RefillOne(t: ActId, o: Obj)
    | RefillDone(t: ActId)
    | RefillFails(t: ActId)
    | Relock(t: ActId, c: Cpu)
    | PopObject(t: ActId)
    | FreeDirect(o: Obj)
    | FreeEnter(t: ActId, c: Cpu, o: Obj)
    | ReplaceFull(t: ActId, r: Outcome)
    | SpareFlushed(t: ActId)
    | NewEmptyFails(t: ActId)
    | Install(t: ActId, c: Cpu)
    | InstallFails(t: ActId)
    | PushObject(t: ActId)
    | FlushStart(t: ActId)
    | FlushTake(t: ActId, c: Cpu)
    | FlushBatch(t: ActId)
    | FlushStop(t: ActId)
    | FlushResume(t: ActId, c: Cpu)
    | RcuEnter(t: ActId, c: Cpu, o: Obj, miss: bool)
    | RcuFails(t: ActId)
    | RcuInstall(t: ActId, c: Cpu)
    | RcuPushObject(t: ActId)
    | RcuFilter(t: ActId, kept: seq<Obj>, rejected: seq<Obj>)
    | RcuFinish(t: ActId, tooMany: bool)
    | EmptyDone(t: ActId, tooMany: bool)
    | FlushAndFree(t: ActId)
    | FreeSheaf(t: ActId)
    | FullDone(t: ActId)
    | DetachSpare(t: ActId, c: Cpu)
    | DetachRcu(t: ActId, c: Cpu)
    | ShrinkFull(t: ActId)
    | ShrinkEmpty(t: ActId)
    | PrefillEnter(t: ActId, c: Cpu, size: nat, miss: bool)
    | PrefillCheck(t: ActId)
    | SheafAlloc(t: ActId)
    | ReturnSheaf(t: ActId, c: Cpu, tooMany: bool)
    | BulkAllocEnter(t: ActId, want: nat)
    | BulkAllocSheaf(t: ActId, c: Cpu, miss: bool)
    | BulkAllocNoLock(t: ActId)
    | BulkAllocOne(t: ActId, o: Obj)
    | BulkAllocDone(t: ActId)
    | BulkAllocFails(t: ActId)
    | BulkFreeEnter(t: ActId, objs: seq<Obj>, rejected: seq<Obj>)
    | BulkFreeSheaf(t: ActId, c: Cpu, r: Outcome)
    | BulkFreeSlabs(t: ActId)

  // ---- alloc_from_pcs ----

  /** Lock; make the main sheaf hold an object if spare or barn can help. */
  predicate StepAllocEnter(st: State, st': State, t: ActId, c: Cpu, miss: bool)
  {
    && t !in st.acts && Unlocked(st, c)
    && var p := st.pcs[c].(lock := Some(t));
       if Size(st, p.main) > 0 then
         st' == st.(pcs := st.pcs[c := p], acts := st.acts[t := Pop(c)])
       else if p.spare.Some? && Size(st, p.spare.value) > 0 then
         st' == st.(pcs := st.pcs[c := Swap(p)], acts := st.acts[t := Pop(c)])
       else if HasFull(st.barn) && !miss then
         st' == st.(pcs := st.pcs[c := p.(main := st.barn.full[0])],
                    barn := PutEmpty(TakeFull(st.barn), p.main), acts := st.acts[t := Pop(c)])
       else
         st' == st.(pcs := st.pcs[c := p], acts := st.acts[t := Hunt(c)])
  }

  /** The caller cannot block. */
  predicate StepHuntGiveUp(st: State, st': State, t: ActId)
  {
    && t in st.acts && st.acts[t].Hunt? && Locked(st, st.acts[t].cpu, t)
    && var c := st.acts[t].cpu;
       st' == st.(pcs := st.pcs[c := st.pcs[c].(lock := None)], acts := st.acts - {t})
  }

  /** Take an empty sheaf along and unlock. */
  predicate StepHuntTake(st: State, st': State, t: ActId, miss: bool)
  {
    && t in st.acts && st.acts[t].Hunt? && Locked(st, st.acts[t].cpu, t)
    && var c := st.acts[t].cpu;
       var p := st.pcs[c].(lock := None);
       if p.spare.Some? then
         st' == st.(pcs := st.pcs[c := p.(spare := None)], acts := st.acts[t := Refill(p.spare.value, [], ForAlloc)])
       else if HasEmpty(st.barn) && !miss then
         st' == st.(pcs := st.pcs[c := p], barn := TakeEmpty(st.barn), acts := st.acts[t := Refill(st.barn.empty[0], [], ForAlloc)])
       else
         st' == st.(pcs := st.pcs[c := p], acts := st.acts[t := NeedSheaf])
  }

  /** alloc_empty_sheaf succeeds, in any of the paths that call it. */
  predicate StepNewSheaf(st: State, st': State, t: ActId, e: SheafId)
  {
    && t in st.acts && e !in st.sheaves
    && (st.acts[t].NeedSheaf? || st.acts[t].NeedEmpty? || st.acts[t].RcuNeed? || st.acts[t].PrefillNeed?)
    && st' == st.(
         sheaves := st.sheaves[e := []],
         acts := st.acts[t :=
           if st.acts[t].NeedSheaf? then Refill(e, [], ForAlloc)
           else if st.acts[t].NeedEmpty? then HaveEmpty(e, st.acts[t].obj)
           else if st.acts[t].RcuNeed? then RcuHave(e, st.acts[t].obj)
           else PrefillHave(e, st.acts[t].size)])
  }

  predicate StepNewSheafFails(st: State, st': State, t: ActId)
  {
    && t in st.acts && (st.acts[t].NeedSheaf? || st.acts[t].PrefillNeed?)
    && st' == st.(acts := st.acts - {t})
  }

  /** refill_sheaf gets one more object from the slab layer. */
  predicate StepRefillOne(cap: nat, st: State, st': State, t: ActId, o: Obj)
  {
    && t in st.acts && st.acts[t].Refill? && o in st.below
    && Size(st, st.acts[t].sheaf) + |st.acts[t].got| < cap
    && st' == st.(below := st.below - {o}, acts := st.acts[t := Refill(st.acts[t].sheaf, st.acts[t].got + [o], st.acts[t].purpose)])
  }

  predicate StepRefillDone(cap: nat, st: State, st': State, t: ActId)
  {
    && t in st.acts && st.acts[t].Refill? && st.acts[t].sheaf in st.sheaves
    && Size(st, st.acts[t].sheaf) + |st.acts[t].got| >= cap
    && var e := st.acts[t].sheaf;
       st' == st.(
         sheaves := st.sheaves[e := st.sheaves[e] + st.acts[t].got],
         acts := st.acts[t :=
           match st.acts[t].purpose
           case ForAlloc => HaveFull(e)
           case ForPrefill => Prefilled(e)
           case ForReturn => PutFull(e)])
  }

  /** The bulk allocation fails: what it had got goes back, the sheaf is given up. */
  predicate StepRefillFails(st: State, st': State, t: ActId)
  {
    && t in st.acts && st.acts[t].Refill?
    && var e := st.acts[t].sheaf;
       st' == st.(
         below := st.below + Elems(st.acts[t].got),
         acts := st.acts[t := if st.acts[t].purpose.ForAlloc? then FreeEmpty(e) else FlushFree(e)])
  }

  /** Lock again, on whatever cpu this is now, and find a home for the full sheaf. */
  predicate StepRelock(st: State, st': State, t: ActId, c: Cpu)
  {
    && t in st.acts && st.acts[t].HaveFull? && Unlocked(st, c)
    && var e := st.acts[t].sheaf;
       var p := st.pcs[c].(lock := Some(t));
       var acts := st.acts[t := Pop(c)];
       if Size(st, p.main) == 0 then
         st' == st.(pcs := st.pcs[c := p.(main := e)], barn := PutEmpty(st.barn, p.main), acts := acts)
       else if p.spare.None? then
         st' == st.(pcs := st.pcs[c := p.(spare := Some(e))], acts := acts)
       else if Size(st, p.spare.value) == 0 then
         st' == st.(pcs := st.pcs[c := p.(spare := Some(e))], barn := PutEmpty(st.barn, p.spare.value), acts := acts)
       else
         st' == st.(pcs := st.pcs[c := p], barn := PutFullTo(st.barn, e), acts := acts)
  }

  /** objects[size - 1] is returned. */
  predicate StepPopObject(st: State, st': State, t: ActId)
  {
    && t in st.acts && st.acts[t].Pop? && Locked(st, st.acts[t].cpu, t)
    && var c := st.acts[t].cpu;
       var m := st.pcs[c].main;
       && st.sheaves[m] != []
       && st' == st.(
            sheaves := st.sheaves[m := st.sheaves[m][..|st.sheaves[m]| - 1]],
            callers := st.callers + {Last(st.sheaves[m])},
            pcs := st.pcs[c := st.pcs[c].(lock := None)], acts := st.acts - {t})
  }

  // ---- free_to_pcs ----

  /** The lock is not to be had: straight to the slab. */
  predicate StepFreeDirect(st: State, st': State, o: Obj)
  {
    o in st.callers && st' == st.(callers := st.callers - {o}, below := st.below + {o})
  }

  predicate StepFreeEnter(cap: nat, st: State, st': State, t: ActId, c: Cpu, o: Obj)
  {
    && t !in st.acts && Unlocked(st, c) && o in st.callers
    && st' == st.(
         callers := st.callers - {o},
         pcs := st.pcs[c := st.pcs[c].(lock := Some(t))],
         acts := st.acts[t := if Size(st, st.pcs[c].main) == cap then FullMain(c, o) else Push(c, o)])
  }

  /** __pcs_replace_full_main up to the first unlock. */
  predicate StepReplaceFull(cap: nat, st: State, st': State, t: ActId, r: Outcome)
  {
    && t in st.acts && st.acts[t].FullMain? && Locked(st, st.acts[t].cpu, t)
    && var c, o := st.acts[t].cpu, st.acts[t].obj;
       var p := st.pcs[c];
       if p.spare.None? then
         if r.Got? && HasEmpty(st.barn) then
           st' == st.(pcs := st.pcs[c := p.(spare := Some(p.main), main := st.barn.empty[0])],
                      barn := TakeEmpty(st.barn), acts := st.acts[t := Push(c, o)])
         else
           st' == st.(pcs := st.pcs[c := p.(lock := None)], acts := st.acts[t := NeedEmpty(o)])
       else if Size(st, p.spare.value) < cap then
         st' == st.(pcs := st.pcs[c := Swap(p)], acts := st.acts[t := Push(c, o)])
       else if r.Got? && HasEmpty(st.barn) then
         st' == st.(pcs := st.pcs[c := p.(main := st.barn.empty[0])],
                    barn := PutFullTo(TakeEmpty(st.barn), p.main), acts := st.acts[t := Push(c, o)])
       else if r.TooBig? then
         st' == st.(pcs := st.pcs[c := p.(spare := None, lock := None)], acts := st.acts[t := FlushSpare(p.spare.value, o)])
       else
         st' == st.(pcs := st.pcs[c := p.(lock := None)], acts := st.acts[t := NeedEmpty(o)])
  }

  /** sheaf_flush_unused on the spare taken along. */
  predicate StepSpareFlushed(st: State, st': State, t: ActId)
  {
    && t in st.acts && st.acts[t].FlushSpare? && st.acts[t].sheaf in st.sheaves
    && var e := st.acts[t].sheaf;
       st' == st.(sheaves := st.sheaves[e := []], below := st.below + Elems(st.sheaves[e]),
                  acts := st.acts[t := HaveEmpty(e, st.acts[t].obj)])
  }

  /** No empty sheaf: flush the main sheaf instead. */
  predicate StepNewEmptyFails(st: State, st': State, t: ActId)
  {
    && t in st.acts && st.acts[t].NeedEmpty?
    && st' == st.(acts := st.acts[t := FlushMain([], true, false, Some(st.acts[t].obj))])
  }

  /** __pcs_install_empty_sheaf */
  predicate StepInstall(cap: nat, st: State, st': State, t: ActId, c: Cpu)
  {
    && t in st.acts && st.acts[t].HaveEmpty? && Unlocked(st, c)
    && var e := st.acts[t].sheaf;
       var p := st.pcs[c].(lock := Some(t));
       var acts := st.acts[t := Push(c, st.acts[t].obj)];
       if p.spare.None? then
         st' == st.(pcs := st.pcs[c := p.(spare := Some(p.main), main := e)], acts := acts)
       else if Size(st, p.main) < cap then
         st' == st.(pcs := st.pcs[c := p], barn := PutEmpty(st.barn, e), acts := acts)
       else if Size(st, p.spare.value) < cap then
         st' == st.(pcs := st.pcs[c := Swap(p)], barn := PutEmpty(st.barn, e), acts := acts)
       else
         st' == st.(pcs := st.pcs[c := p.(main := e)], barn := PutFullTo(st.barn, p.main), acts := acts)
  }

  /** The lock is not to be had: the sheaf goes to the barn, the object to its slab. */
  predicate StepInstallFails(st: State, st': State, t: ActId)
  {
    && t in st.acts && st.acts[t].HaveEmpty?
    && st' == st.(barn := PutEmpty(st.barn, st.acts[t].sheaf), below := st.below + {st.acts[t].obj}, acts := st.acts - {t})
  }

  /** objects[size++] = object */
  predicate StepPushObject(st: State, st': State, t: ActId)
  {
    && t in st.acts && st.acts[t].Push? && Locked(st, st.acts[t].cpu, t)
    && var c := st.acts[t].cpu;
       var m := st.pcs[c].main;
       st' == st.(sheaves := st.sheaves[m := st.sheaves[m] + [st.acts[t].obj]],
                  pcs := st.pcs[c := st.pcs[c].(lock := None)], acts := st.acts - {t})
  }

  // ---- sheaf_flush_main ----

  predicate StepFlushStart(st: State, st': State, t: ActId)
  {
    t !in st.acts && st' == st.(acts := st.acts[t := FlushMain([], true, false, None)])
  }

  /** Under the lock, move up to PCS_BATCH_MAX objects to the stack. */
  predicate StepFlushTake(st: State, st': State, t: ActId, c: Cpu)
  {
    && t in st.acts && st.acts[t].FlushMain? && st.acts[t].batch == [] && st.acts[t].more && Unlocked(st, c)
    && var l := st.sheaves[st.pcs[c].main];
       var n := if |l| < PCS_BATCH_MAX then |l| else PCS_BATCH_MAX;
       st' == st.(sheaves := st.sheaves[st.pcs[c].main := l[..|l| - n]],
                  acts := st.acts[t := FlushMain(l[|l| - n..], |l| > n, st.acts[t].flushed, st.acts[t].cont)])
  }

  predicate StepFlushBatch(st: State, st': State, t: ActId)
  {
    && t in st.acts && st.acts[t].FlushMain? && (st.acts[t].batch != [] || !st.acts[t].more)
    && st' == st.(below := st.below + Elems(st.acts[t].batch),
                  acts := st.acts[t := FlushMain([], st.acts[t].more, true, st.acts[t].cont)])
  }

  /** Finished, or the lock is not to be had: give up and free the object, if any, to its slab. */
  predicate StepFlushStop(st: State, st': State, t: ActId)
  {
    && t in st.acts && st.acts[t].FlushMain? && st.acts[t].batch == []
    && st' == st.(below := st.below + (if st.acts[t].cont.Some? then {st.acts[t].cont.value} else {}), acts := st.acts - {t})
  }

  /** Something was flushed: lock again and look at the main sheaf of this cpu. */
  predicate StepFlushResume(cap: nat, st: State, st': State, t: ActId, c: Cpu)
  {
    && t in st.acts && st.acts[t].FlushMain? && st.acts[t].batch == [] && st.acts[t].flushed && st.acts[t].cont.Some?
    && Unlocked(st, c)
    && st' == st.(
         pcs := st.pcs[c := st.pcs[c].(lock := Some(t))],
         acts := st.acts[t :=
           if Size(st, st.pcs[c].main) == cap then FullMain(c, st.acts[t].cont.value) else Push(c, st.acts[t].cont.value)])
  }

  // ---- __kfree_rcu_sheaf, rcu_free_sheaf ----

  predicate StepRcuEnter(st: State, st': State, t: ActId, c: Cpu, o: Obj, miss: bool)
  {
    && t !in st.acts && Unlocked(st, c) && o in st.callers
    && var p := st.pcs[c].(lock := Some(t));
       var acts := st.acts[t := RcuPush(c, o)];
       if p.rcuFree.Some? then
         st' == st.(callers := st.callers - {o}, pcs := st.pcs[c := p], acts := acts)
       else if p.spare.Some? && Size(st, p.spare.value) == 0 then
         st' == st.(callers := st.callers - {o}, pcs := st.pcs[c := p.(rcuFree := p.spare, spare := None)], acts := acts)
       else if HasEmpty(st.barn) && !miss then
         st' == st.(callers := st.callers - {o}, pcs := st.pcs[c := p.(rcuFree := Some(st.barn.empty[0]))],
                    barn := TakeEmpty(st.barn), acts := acts)
       else
         st' == st.(callers := st.callers - {o}, acts := st.acts[t := RcuNeed(o)])
  }

  /** The sheaf could not be had or not be installed: the caller keeps the object and frees it another way. */
  predicate StepRcuFails(st: State, st': State, t: ActId)
  {
    && t in st.acts && (st.acts[t].RcuNeed? || st.acts[t].RcuHave?)
    && st' == st.(
         callers := st.callers + {st.acts[t].obj},
         barn := if st.acts[t].RcuHave? then PutEmpty(st.barn, st.acts[t].sheaf) else st.barn,
         acts := st.acts - {t})
  }

  predicate StepRcuInstall(st: State, st': State, t: ActId, c: Cpu)
  {
    && t in st.acts && st.acts[t].RcuHave? && Unlocked(st, c)
    && var p := st.pcs[c].(lock := Some(t));
       var acts := st.acts[t := RcuPush(c, st.acts[t].obj)];
       if p.rcuFree.Some? then
         st' == st.(pcs := st.pcs[c := p], barn := PutEmpty(st.barn, st.acts[t].sheaf), acts := acts)
       else
         st' == st.(pcs := st.pcs[c := p.(rcuFree := Some(st.acts[t].sheaf))], acts := acts)
  }

  /** objects[size++] = obj; a sheaf that is full now goes to call_rcu. */
  predicate StepRcuPushObject(cap: nat, st: State, st': State, t: ActId)
  {
    && t in st.acts && st.acts[t].RcuPush? && Locked(st, st.acts[t].cpu, t)
    && st.pcs[st.acts[t].cpu].rcuFree.Some? && st.pcs[st.acts[t].cpu].rcuFree.value in st.sheaves
    && var c := st.acts[t].cpu;
       var e := st.pcs[c].rcuFree.value;
       var l := st.sheaves[e] + [st.acts[t].obj];
       if |l| < cap then
         st' == st.(sheaves := st.sheaves[e := l], pcs := st.pcs[c := st.pcs[c].(lock := None)], acts := st.acts - {t})
       else
         st' == st.(sheaves := st.sheaves[e := l], pcs := st.pcs[c := st.pcs[c].(rcuFree := None, lock := None)],
                    acts := st.acts[t := RcuSheaf(e, true)])
  }

  /** __rcu_free_sheaf_prepare: the hooks keep back some of the objects. */
  predicate StepRcuFilter(st: State, st': State, t: ActId, kept: seq<Obj>, rejected: seq<Obj>)
  {
    && t in st.acts && st.acts[t].RcuSheaf? && st.acts[t].sheaf in st.sheaves
    && multiset(kept) + multiset(rejected) == multiset(st.sheaves[st.acts[t].sheaf])
    && st' == st.(sheaves := st.sheaves[st.acts[t].sheaf := kept], delayed := st.delayed + Elems(rejected),
                  acts := st.acts[t := RcuReady(st.acts[t].sheaf, st.acts[t].barn)])
  }

  predicate StepRcuFinish(st: State, st': State, t: ActId, tooMany: bool)
  {
    && t in st.acts && st.acts[t].RcuReady? && st.acts[t].sheaf in st.sheaves
    && var e := st.acts[t].sheaf;
       if st.acts[t].barn && Size(st, e) == 0 then
         st' == st.(acts := st.acts[t := ToEmpty(e)])
       else if st.acts[t].barn && !tooMany then
         st' == st.(barn := PutFullTo(st.barn, e), acts := st.acts - {t})
       else
         st' == st.(sheaves := st.sheaves[e := []], below := st.below + Elems(st.sheaves[e]),
                    acts := st.acts[t := if st.acts[t].barn then ToEmpty(e) else FreeEmpty(e)])
  }

  predicate StepEmptyDone(st: State, st': State, t: ActId, tooMany: bool)
  {
    && t in st.acts && st.acts[t].ToEmpty?
    && if tooMany then st' == st.(acts := st.acts[t := FreeEmpty(st.acts[t].sheaf)])
       else st' == st.(barn := PutEmpty(st.barn, st.acts[t].sheaf), acts := st.acts - {t})
  }

  // ---- flushing, freeing and shrinking ----

  /** sheaf_flush_unused before free_empty_sheaf. */
  predicate StepFlushAndFree(st: State, st': State, t: ActId)
  {
    && t in st.acts && st.acts[t].FlushFree? && st.acts[t].sheaf in st.sheaves
    && var e := st.acts[t].sheaf;
       st' == st.(sheaves := st.sheaves[e := []], below := st.below + Elems(st.sheaves[e]), acts := st.acts[t := FreeEmpty(e)])
  }

  /** free_empty_sheaf: whatever the sheaf still held would be lost. */
  predicate StepFreeSheaf(st: State, st': State, t: ActId)
  {
    && t in st.acts && st.acts[t].FreeEmpty?
    && st' == st.(sheaves := st.sheaves - {st.acts[t].sheaf}, acts := st.acts - {t})
  }

  predicate StepFullDone(st: State, st': State, t: ActId)
  {
    && t in st.acts && st.acts[t].PutFull?
    && st' == st.(barn := PutFullTo(st.barn, st.acts[t].sheaf), acts := st.acts - {t})
  }

  /** pcs_flush_all takes the spare sheaf and the rcu sheaf away. */
  predicate StepDetachSpare(st: State, st': State, t: ActId, c: Cpu)
  {
    && t !in st.acts && Unlocked(st, c) && st.pcs[c].spare.Some?
    && st' == st.(pcs := st.pcs[c := st.pcs[c].(spare := None)], acts := st.acts[t := FlushFree(st.pcs[c].spare.value)])
  }

  predicate StepDetachRcu(st: State, st': State, t: ActId, c: Cpu)
  {
    && t !in st.acts && Unlocked(st, c) && st.pcs[c].rcuFree.Some?
    && st' == st.(pcs := st.pcs[c := st.pcs[c].(rcuFree := None)], acts := st.acts[t := RcuSheaf(st.pcs[c].rcuFree.value, false)])
  }

  /** barn_shrink, sheaf by sheaf. */
  predicate StepShrinkFull(st: State, st': State, t: ActId)
  {
    && t !in st.acts && HasFull(st.barn)
    && st' == st.(barn := TakeFull(st.barn), acts := st.acts[t := FlushFree(st.barn.full[0])])
  }

  predicate StepShrinkEmpty(st: State, st': State, t: ActId)
  {
    && t !in st.acts && HasEmpty(st.barn)
    && st' == st.(barn := TakeEmpty(st.barn), acts := st.acts[t := FreeEmpty(st.barn.empty[0])])
  }

  // ---- prefilled sheaves ----

  predicate StepPrefillEnter(cap: nat, st: State, st': State, t: ActId, c: Cpu, size: nat, miss: bool)
  {
    && t !in st.acts && Unlocked(st, c) && size <= cap
    && if st.pcs[c].spare.Some? then
         st' == st.(pcs := st.pcs[c := st.pcs[c].(spare := None)], acts := st.acts[t := PrefillHave(st.pcs[c].spare.value, size)])
       else if HasFull(st.barn) && !miss then
         st' == st.(barn := TakeFull(st.barn), acts := st.acts[t := PrefillHave(st.barn.full[0], size)])
       else if HasEmpty(st.barn) && !miss then
         st' == st.(barn := TakeEmpty(st.barn), acts := st.acts[t := PrefillHave(st.barn.empty[0], size)])
       else
         st' == st.(acts := st.acts[t := PrefillNeed(size)])
  }

  predicate StepPrefillCheck(st: State, st': State, t: ActId)
  {
    && t in st.acts && st.acts[t].PrefillHave?
    && st' == st.(acts := st.acts[t :=
         if Size(st, st.acts[t].sheaf) < st.acts[t].size then Refill(st.acts[t].sheaf, [], ForPrefill)
         else Prefilled(st.acts[t].sheaf)])
  }

  /** kmem_cache_alloc_from_sheaf */
  predicate StepSheafAlloc(st: State, st': State, t: ActId)
  {
    && t in st.acts && st.acts[t].Prefilled? && st.acts[t].sheaf in st.sheaves && st.sheaves[st.acts[t].sheaf] != []
    && var l := st.sheaves[st.acts[t].sheaf];
       st' == st.(sheaves := st.sheaves[st.acts[t].sheaf := l[..|l| - 1]], callers := st.callers + {Last(l)})
  }

  predicate StepReturnSheaf(st: State, st': State, t: ActId, c: Cpu, tooMany: bool)
  {
    && t in st.acts && st.acts[t].Prefilled? && Unlocked(st, c)
    && var e := st.acts[t].sheaf;
       if st.pcs[c].spare.None? then
         st' == st.(pcs := st.pcs[c := st.pcs[c].(spare := Some(e))], acts := st.acts - {t})
       else
         st' == st.(acts := st.acts[t := if tooMany then FlushFree(e) else Refill(e, [], ForReturn)])
  }

  // ---- bulk allocation and bulk free ----

  predicate StepBulkAllocEnter(st: State, st': State, t: ActId, want: nat)
  {
    t !in st.acts && want > 0 && st' == st.(acts := st.acts[t := BulkAlloc(want, [])])
  }

  /** One round of alloc_from_pcs_bulk: the main sheaf after helping from spare or barn, then a batch from its end. */
  predicate StepBulkAllocSheaf(st: State, st': State, t: ActId, c: Cpu, miss: bool)
  {
    && t in st.acts && st.acts[t].BulkAlloc? && |st.acts[t].got| < st.acts[t].want && Unlocked(st, c)
    && var p := st.pcs[c];
       if Size(st, p.main) > 0 then
         BatchOut(st, st', t, c, p, st.barn)
       else if p.spare.Some? && p.spare.value in st.sheaves && Size(st, p.spare.value) > 0 then
         BatchOut(st, st', t, c, Swap(p), st.barn)
       else if HasFull(st.barn) && st.barn.full[0] in st.sheaves && !miss then
         BatchOut(st, st', t, c, p.(main := st.barn.full[0]), PutEmpty(TakeFull(st.barn), p.main))
       else
         st' == st.(acts := st.acts[t := BulkSlab(st.acts[t].want, st.acts[t].got)])
  }

  predicate BatchOut(st: State, st': State, t: ActId, c: Cpu, p: Pcs, barn: Barn)
    requires t in st.acts && st.acts[t].BulkAlloc? && |st.acts[t].got| < st.acts[t].want && p.main in st.sheaves
  {
    var l := st.sheaves[p.main];
    var left := st.acts[t].want - |st.acts[t].got|;
    var n := if |l| < left then |l| else left;
    st' == st.(
      sheaves := st.sheaves[p.main := l[..|l| - n]], pcs := st.pcs[c := p], barn := barn,
      acts := st.acts[t := BulkAlloc(st.acts[t].want, st.acts[t].got + l[|l| - n..])])
  }

  /** The lock is not to be had: on to the slabs. */
  predicate StepBulkAllocNoLock(st: State, st': State, t: ActId)
  {
    && t in st.acts && st.acts[t].BulkAlloc? && |st.acts[t].got| < st.acts[t].want
    && st' == st.(acts := st.acts[t := BulkSlab(st.acts[t].want, st.acts[t].got)])
  }

  /** __kmem_cache_alloc_bulk, object by object. */
  predicate StepBulkAllocOne(st: State, st': State, t: ActId, o: Obj)
  {
    && t in st.acts && st.acts[t].BulkSlab? && |st.acts[t].got| < st.acts[t].want && o in st.below
    && st' == st.(below := st.below - {o}, acts := st.acts[t := BulkSlab(st.acts[t].want, st.acts[t].got + [o])])
  }

  predicate StepBulkAllocDone(st: State, st': State, t: ActId)
  {
    && t in st.acts && (st.acts[t].BulkAlloc? || st.acts[t].BulkSlab?) && |st.acts[t].got| >= st.acts[t].want
    && st' == st.(callers := st.callers + Elems(st.acts[t].got), acts := st.acts - {t})
  }

  /** Out of memory: everything obtained goes back to the slabs and 0 is returned. */
  predicate StepBulkAllocFails(st: State, st': State, t: ActId)
  {
    && t in st.acts && st.acts[t].BulkSlab? && |st.acts[t].got| < st.acts[t].want
    && st' == st.(below := st.below + Elems(st.acts[t].got), acts := st.acts - {t})
  }

  /** free_to_pcs_bulk: the hooks keep back `rejected`. */
  predicate StepBulkFreeEnter(st: State, st': State, t: ActId, objs: seq<Obj>, rejected: seq<Obj>)
  {
    && t !in st.acts && NoDup(objs + rejected) && (forall o :: o in objs + rejected ==> o in st.callers)
    && st' == st.(callers := st.callers - Elems(objs + rejected), delayed := st.delayed + Elems(rejected),
                  acts := st.acts[t := BulkFree(objs)])
  }

  /** One batch: the main sheaf after making room, then as much as fits. */
  predicate StepBulkFreeSheaf(cap: nat, st: State, st': State, t: ActId, c: Cpu, r: Outcome)
  {
    && t in st.acts && st.acts[t].BulkFree? && st.acts[t].rest != [] && Unlocked(st, c)
    && var p := st.pcs[c];
       if Size(st, p.main) < cap then
         BatchIn(cap, st, st', t, c, p, st.barn)
       else if p.spare.None? && r.Got? && HasEmpty(st.barn) && st.barn.empty[0] in st.sheaves then
         BatchIn(cap, st, st', t, c, p.(spare := Some(p.main), main := st.barn.empty[0]), TakeEmpty(st.barn))
       else if p.spare.Some? && p.spare.value in st.sheaves && Size(st, p.spare.value) < cap then
         BatchIn(cap, st, st', t, c, Swap(p), st.barn)
       else if p.spare.Some? && r.Got? && HasEmpty(st.barn) && st.barn.empty[0] in st.sheaves then
         BatchIn(cap, st, st', t, c, p.(main := st.barn.empty[0]), PutFullTo(TakeEmpty(st.barn), p.main))
       else
         st' == st.(below := st.below + Elems(st.acts[t].rest), acts := st.acts[t := BulkFree([])])
  }

  predicate BatchIn(cap: nat, st: State, st': State, t: ActId, c: Cpu, p: Pcs, barn: Barn)
    requires t in st.acts && st.acts[t].BulkFree? && p.main in st.sheaves
  {
    var l, rest := st.sheaves[p.main], st.acts[t].rest;
    var room := if |l| < cap then cap - |l| else 0;
    var n := if |rest| < room then |rest| else room;
    st' == st.(
      sheaves := st.sheaves[p.main := l + rest[..n]], pcs := st.pcs[c := p], barn := barn,
      acts := st.acts[t := BulkFree(rest[n..])])
  }

  /** The rest, if any, goes to the slabs. */
  predicate StepBulkFreeSlabs(st: State, st': State, t: ActId)
  {
    && t in st.acts && st.acts[t].BulkFree?
    && st' == st.(below := st.below + Elems(st.acts[t].rest), acts := st.acts - {t})
  }

  /** alloc_from_pcs */
  predicate AllocPath(cap: nat, st: State, st': State, ev: Label)
  {
    match ev
    case AllocEnter(t, c, miss) => StepAllocEnter(st, st', t, c, miss)
    case HuntGiveUp(t) => StepHuntGiveUp(st, st', t)
    case HuntTake(t, miss) => StepHuntTake(st, st', t, miss)
    case NewSheaf(t, e) => StepNewSheaf(st, st', t, e)
    case NewSheafFails(t) => StepNewSheafFails(st, st', t)
    case RefillOne(t, o) => StepRefillOne(cap, st, st', t, o)
    case RefillDone(t) => StepRefillDone(cap, st, st', t)
    case RefillFails(t) => StepRefillFails(st, st', t)
    case Relock(t, c) => StepRelock(st, st', t, c)
    case PopObject(t) => StepPopObject(st, st', t)
    case _ => false
  }

  /** free_to_pcs and sheaf_flush_main */
  predicate FreePath(cap: nat, st: State, st': State, ev: Label)
  {
    match ev
    case FreeDirect(o) => StepFreeDirect(st, st', o)
    case FreeEnter(t, c, o) => StepFreeEnter(cap, st, st', t, c, o)
    case ReplaceFull(t, r) => StepReplaceFull(cap, st, st', t, r)
    case SpareFlushed(t) => StepSpareFlushed(st, st', t)
    case NewEmptyFails(t) => StepNewEmptyFails(st, st', t)
    case Install(t, c) => StepInstall(cap, st, st', t, c)
    case InstallFails(t) => StepInstallFails(st, st', t)
    case PushObject(t) => StepPushObject(st, st', t)
    case FlushStart(t) => StepFlushStart(st, st', t)
    case FlushTake(t, c) => StepFlushTake(st, st', t, c)
    case FlushBatch(t) => StepFlushBatch(st, st', t)
    case FlushStop(t) => StepFlushStop(st, st', t)
    case FlushResume(t, c) => StepFlushResume(cap, st, st', t, c)
    case _ => false
  }

  /** kfree_rcu, flushing, freeing and shrinking of sheaves */
  predicate RcuPath(cap: nat, st: State, st': State, ev: Label)
  {
    match ev
    case RcuEnter(t, c, o, miss) => StepRcuEnter(st, st', t, c, o, miss)
    case RcuFails(t) => StepRcuFails(st, st', t)
    case RcuInstall(t, c) => StepRcuInstall(st, st', t, c)
    case RcuPushObject(t) => StepRcuPushObject(cap, st, st', t)
    case RcuFilter(t, kept, rejected) => StepRcuFilter(st, st', t, kept, rejected)
    case RcuFinish(t, tooMany) => StepRcuFinish(st, st', t, tooMany)
    case EmptyDone(t, tooMany) => StepEmptyDone(st, st', t, tooMany)
    case FlushAndFree(t) => StepFlushAndFree(st, st', t)
    case FreeSheaf(t) => StepFreeSheaf(st, st', t)
    case FullDone(t) => StepFullDone(st, st', t)
    case DetachSpare(t, c) => StepDetachSpare(st, st', t, c)
    case DetachRcu(t, c) => StepDetachRcu(st, st', t, c)
    case ShrinkFull(t) => StepShrinkFull(st, st', t)
    case ShrinkEmpty(t) => StepShrinkEmpty(st, st', t)
    case _ => false
  }

  /** Prefilled sheaves and bulk operations */
  predicate BulkPath(cap: nat, st: State, st': State, ev: Label)
  {
    match ev
    case PrefillEnter(t, c, size, miss) => StepPrefillEnter(cap, st, st', t, c, size, miss)
    case PrefillCheck(t) => StepPrefillCheck(st, st', t)
    case SheafAlloc(t) => StepSheafAlloc(st, st', t)
    case ReturnSheaf(t, c, tooMany) => StepReturnSheaf(st, st', t, c, tooMany)
    case BulkAllocEnter(t, want) => StepBulkAllocEnter(st, st', t, want)
    case BulkAllocSheaf(t, c, miss) => StepBulkAllocSheaf(st, st', t, c, miss)
    case BulkAllocNoLock(t) => StepBulkAllocNoLock(st, st', t)
    case BulkAllocOne(t, o) => StepBulkAllocOne(st, st', t, o)
    case BulkAllocDone(t) => StepBulkAllocDone(st, st', t)
    case BulkAllocFails(t) => StepBulkAllocFails(st, st', t)
    case BulkFreeEnter(t, objs, rejected) => StepBulkFreeEnter(st, st', t, objs, rejected)
    case BulkFreeSheaf(t, c, r) => StepBulkFreeSheaf(cap, st, st', t, c, r)
    case BulkFreeSlabs(t) => StepBulkFreeSlabs(st, st', t)
    case _ => false
  }

  predicate Step(cap: nat, st: State, st': State, ev: Label)
  {
    || AllocPath(cap, st, st', ev) || FreePath(cap, st, st', ev)
    || RcuPath(cap, st, st', ev) || BulkPath(cap, st, st', ev)
  }

  /** init_percpu_sheaves, barn_init: every cpu has an empty main sheaf of its own. */
  predicate Init(st: State)
  {
    && st.barn == Barn([], [], 0, 0) && st.acts == map[] && st.callers == {} && st.delayed == {}
    && (forall c :: c in st.pcs ==>
          st.pcs[c].main in st.sheaves && st.pcs[c].spare.None? && st.pcs[c].rcuFree.None? && st.pcs[c].lock.None?)
    && (forall c, d :: c in st.pcs && d in st.pcs && c != d ==> st.pcs[c].main != st.pcs[d].main)
    && (forall e :: e in st.sheaves ==> st.sheaves[e] == [] && exists c :: c in st.pcs && st.pcs[c].main == e)
  }
}
