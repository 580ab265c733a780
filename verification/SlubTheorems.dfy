/** The slab protocol over whole runs. */
module SlubTheorems {
  import opened Freelist
  import opened SlubMachine
  import opened SlubInvariant
  import opened SlubFrame
  import opened SlubSlab
  import opened SlubCpu
  import opened SlubMove
  import opened SlubLists
  import opened SlubAlloc
  import opened SlubFree

  // ---- runs ----

  /** Any interleaving of the steps, from an empty cache. */
  predicate Run(k: Cache, states: seq<State>, events: seq<Label>)
  {
    && |states| == |events| + 1 && Init(k, states[0])
    && forall i :: 0 <= i < |events| ==> Step(k, states[i], states[i + 1], events[i])
  }

  lemma PreserveCpuPath(k: Cache, st: State, w: Witness, st': State, ev: Label) returns (w': Witness)
    requires Inv(k, st, w) && CpuPath(k, st, st', ev)
    ensures Inv(k, st', w')
  {
    hide Inv, StepAllocReadTid, StepAllocReadObject, StepAllocReadSlab, StepAllocSlow, StepAllocReadNext,
         StepAllocExchange, StepLockedPop, StepBulkPop, StepBulkEnd, StepGetFreelist, StepBypassEnd,
         StepLoadEnd;
    match ev
    case AllocReadTid(t, c) => w' := PreserveAllocReadTid(k, st, w, st', t, c);
    case AllocReadObject(t) => w' := PreserveAllocReadObject(k, st, w, st', t);
    case AllocReadSlab(t) => w' := PreserveAllocReadSlab(k, st, w, st', t);
    case AllocSlow(t) => w' := PreserveAllocSlow(k, st, w, st', t);
    case AllocReadNext(t, garbage) => w' := PreserveAllocReadNext(k, st, w, st', t, garbage);
    case AllocExchange(t, c) => w' := PreserveAllocExchange(k, st, w, st', t, c);
    case LockedPop(c) => w' := PreserveLockedPop(k, st, w, st', c);
    case BulkPop(c) => w' := PreserveBulkPop(k, st, w, st', c);
    case BulkEnd(c) => w' := PreserveBulkEnd(k, st, w, st', c);
    case GetFreelist(c) => w' := PreserveGetFreelist(k, st, w, st', c);
    case BypassEnd(c) => w' := PreserveBypassEnd(k, st, w, st', c);
    case LoadEnd(c) => w' := PreserveLoadEnd(k, st, w, st', c);
  }

  lemma PreserveMovePath(k: Cache, st: State, w: Witness, st': State, ev: Label) returns (w': Witness)
    requires Inv(k, st, w) && MovePath(k, st, st', ev)
    ensures Inv(k, st', w')
  {
    hide Inv, StepAdoptPartial, StepAdoptTake, StepFlush, StepLoadSlab, StepTakePartials, StepPutOnCpu,
         StepUnfreeze, StepDecide, StepAddToNode, StepPutOne, StepPutDone;
    match ev
    case AdoptPartial(c) => w' := PreserveAdoptPartial(k, st, w, st', c);
    case AdoptTake(c) => w' := PreserveAdoptTake(k, st, w, st', c);
    case Flush(t, c) => w' := PreserveFlush(k, st, w, st', t, c);
    case LoadSlab(t, c) => w' := PreserveLoadSlab(k, st, w, st', t, c);
    case TakePartials(t, c) => w' := PreserveTakePartials(k, st, w, st', t, c);
    case PutOnCpu(t, c, u) => w' := PreservePutOnCpu(k, st, w, st', t, c, u);
    case Unfreeze(t, walked) => w' := PreserveUnfreeze(k, st, w, st', t, walked);
    case Decide(t) => w' := PreserveDecide(k, st, w, st', t);
    case AddToNode(t, tail) => w' := PreserveAddToNode(k, st, w, st', t, tail);
    case PutOne(t) => w' := PreservePutOne(k, st, w, st', t);
    case PutDone(t) => w' := PreservePutDone(k, st, w, st', t);
  }

  lemma PreserveNodePath(k: Cache, st: State, w: Witness, st': State, ev: Label) returns (w': Witness)
    requires Inv(k, st, w) && NodePath(k, st, st', ev)
    ensures Inv(k, st', w')
  {
    hide Inv, StepDiscardOne, StepDiscardDone, StepWalkFirst, StepWalkMore, StepWalkDone, StepFreezeSlab,
         StepNewSlab;
    match ev
    case DiscardOne(t) => w' := PreserveDiscardOne(k, st, w, st', t);
    case DiscardDone(t) => w' := PreserveDiscardDone(k, st, w, st', t);
    case WalkFirst(t) => w' := PreserveWalkFirst(k, st, w, st', t);
    case WalkMore(t, c) => w' := PreserveWalkMore(k, st, w, st', t, c);
    case WalkDone(t) => w' := PreserveWalkDone(k, st, w, st', t);
    case FreezeSlab(t) => w' := PreserveFreezeSlab(k, st, w, st', t);
    case NewSlab(t, s, order) => w' := PreserveNewSlab(k, st, w, st', t, s, order);
  }

  lemma PreserveFreePath(k: Cache, st: State, w: Witness, st': State, ev: Label) returns (w': Witness)
    requires Inv(k, st, w) && FreePath(k, st, st', ev)
    ensures Inv(k, st', w')
  {
    hide Inv, StepFreeBegin, StepFreeReadTid, StepFreeCheckSlab, StepFreeSplice, StepFreeExchange, StepSlowSplice,
         StepSlowExchange, StepCallerWrite, StepShrinkDiscard, StepShrinkReorder;
    match ev
    case FreeBegin(t, s, objs) => w' := PreserveFreeBegin(k, st, w, st', t, s, objs);
    case FreeReadTid(t, c) => w' := PreserveFreeReadTid(k, st, w, st', t, c);
    case FreeCheckSlab(t) => w' := PreserveFreeCheckSlab(k, st, w, st', t);
    case FreeSplice(t) => w' := PreserveFreeSplice(k, st, w, st', t);
    case FreeExchange(t, c) => w' := PreserveFreeExchange(k, st, w, st', t, c);
    case SlowSplice(t) => w' := PreserveSlowSplice(k, st, w, st', t);
    case SlowExchange(t) => w' := PreserveSlowExchange(k, st, w, st', t);
    case CallerWrite(s, i, v) => w' := PreserveCallerWrite(k, st, w, st', s, i, v);
    case ShrinkDiscard(t, s) => w' := PreserveShrinkDiscard(k, st, w, st', t, s);
    case ShrinkReorder(order) => w' := PreserveShrinkReorder(k, st, w, st', order);
  }

  lemma PreserveStep(k: Cache, st: State, w: Witness, st': State, ev: Label) returns (w': Witness)
    requires Inv(k, st, w) && Step(k, st, st', ev)
    ensures Inv(k, st', w')
  {
    hide Inv, CpuPath, MovePath, NodePath, FreePath;
    if CpuPath(k, st, st', ev) {
      w' := PreserveCpuPath(k, st, w, st', ev);
    } else if MovePath(k, st, st', ev) {
      w' := PreserveMovePath(k, st, w, st', ev);
    } else if NodePath(k, st, st', ev) {
      w' := PreserveNodePath(k, st, w, st', ev);
    } else {
      w' := PreserveFreePath(k, st, w, st', ev);
    }
  }

  lemma InitInv(k: Cache, st: State) returns (w: Witness)
    requires Init(k, st)
    ensures Inv(k, st, w)
  {
    w := Witness(map[], map[], map[]);
    forall c | c in st.cpus ensures CpuInv(k, st, w, c) {
      assert c % k.tidStep == c;
    }
  }

  lemma {:induction false} RunInv(k: Cache, states: seq<State>, events: seq<Label>, i: nat) returns (w: Witness)
    requires Run(k, states, events) && i < |states|
    ensures Inv(k, states[i], w)
  {
    hide Inv, Step, Init;
    if i == 0 {
      w := InitInv(k, states[0]);
    } else {
      w := RunInv(k, states, events, i - 1);
      assert Step(k, states[i - 1], states[i], events[i - 1]);
      w := PreserveStep(k, states[i - 1], w, states[i], events[i - 1]);
    }
  }

  // ---- every slab is in exactly one place ----

  /** Where slab `s` is, read off the state: full means that nothing holds it. */
  ghost predicate IsAt(st: State, p: Place, s: SlabId)
  {
    if p.Full? then forall q: Place :: !q.Full? ==> !Holds(st, q, s) else Holds(st, p, s)
  }

  /** The scheme of flags and lists for the places. */
  predicate Scheme(st: State, p: Place, b: Slab)
  {
    && (b.partial <==> p.OnNode?)
    && (p.OnNode? || p.OnCpuPartial? || p.Adopting? ==> !b.frozen && b.freelist.Ref?)
    && (p.OnCpu? ==> b.frozen)
    && (p.Full? ==> !b.frozen && b.freelist.Null?)
    && (p.InTransit? && p.task in st.tasks ==>
          (b.frozen <==> st.tasks[p.task].Deactivate? || st.tasks[p.task].Ready?) && (!b.frozen ==> b.freelist.Ref?))
  }

  /** One place; a holder that names the slab names it once. */
  ghost predicate OnePlace(st: State, s: SlabId)
    requires s in st.slabs
  {
    exists p: Place :: IsAt(st, p, s) && Scheme(st, p, st.slabs[s]) && forall q: Place :: IsAt(st, q, s) ==> q == p
  }

  lemma HoldsPlace(k: Cache, st: State, w: Witness, q: Place, s: SlabId)
    requires Inv(k, st, w) && Holds(st, q, s) && !q.Full?
    ensures At(w, s, q)
  {
    hide SlabInv, BodyInv;
    match q
    case OnCpu(c) => assert CpuInv(k, st, w, c);
    case Adopting(c) => assert CpuInv(k, st, w, c);
    case OnNode => assert NodeInv(st, w);
    case OnCpuPartial(c) => assert CpuInv(k, st, w, c);
    case InTransit(t) => assert TaskInv(k, st, w, t);
  }

  lemma SlabOnePlace(k: Cache, st: State, w: Witness, s: SlabId)
    requires Inv(k, st, w) && s in st.slabs
    ensures OnePlace(st, s)
  {
    hide Inv, BodyInv;
    SlabOf(k, st, w, s);
    var p := w.place[s];
    BodyNull(s, st.slabs[s], w.free[s], w.det[s], DetHead(st, p));
    forall q: Place | !q.Full? && Holds(st, q, s) ensures q == p { HoldsPlace(k, st, w, q, s); }
    assert IsAt(st, p, s);
  }

  /** In every run every slab is in exactly one place, no list names a slab twice, and the
      partial counter is the length of the partial list. */
  lemma EverySlabHasOnePlace(k: Cache, states: seq<State>, events: seq<Label>, i: nat)
    requires Run(k, states, events) && i < |states|
    ensures forall s :: s in states[i].slabs ==> OnePlace(states[i], s)
    ensures NoDup(states[i].node) && states[i].nrPartial == |states[i].node|
    ensures forall c :: c in states[i].cpus ==> NoDup(states[i].cpus[c].partial)
    ensures forall t :: t in states[i].tasks ==> NoDup(Held(states[i].tasks[t]))
    ensures forall t, s :: t in states[i].tasks && s in Held(states[i].tasks[t]) ==> s in states[i].slabs
  {
    hide Inv, Run, OnePlace, CpuInv, TaskInv;
    var st := states[i];
    var w := RunInv(k, states, events, i);
    forall s | s in st.slabs ensures OnePlace(st, s) { SlabOnePlace(k, st, w, s); }
    NodeOf(k, st, w);
    forall c | c in st.cpus ensures NoDup(st.cpus[c].partial) { CpuNoDup(k, st, w, c); }
    forall t | t in st.tasks ensures NoDup(Held(st.tasks[t])) { TaskNoDup(k, st, w, t); }
    forall t, s | t in st.tasks && s in Held(st.tasks[t]) ensures s in st.slabs { HoldsPlace(k, st, w, InTransit(t), s); }
  }

  lemma CpuNoDup(k: Cache, st: State, w: Witness, c: Cpu)
    requires Inv(k, st, w) && c in st.cpus
    ensures NoDup(st.cpus[c].partial)
  {
    hide Inv;
    CpuOf(k, st, w, c);
  }

  lemma TaskNoDup(k: Cache, st: State, w: Witness, t: TaskId)
    requires Inv(k, st, w) && t in st.tasks
    ensures NoDup(Held(st.tasks[t]))
  {
    hide Inv;
    TaskOf(k, st, w, t);
  }

  // ---- every object is in exactly one list ----

  /** The objects met by following free pointers from `h`, at most `fuel` of them. */
  function ListFrom(s: SlabId, mem: seq<Ptr>, h: Ptr, fuel: nat): seq<nat>
    decreases fuel
  {
    if fuel == 0 || h.Null? || h.slab != s || h.idx >= |mem| then []
    else [h.idx] + ListFrom(s, mem, mem[h.idx], fuel - 1)
  }

  lemma {:induction false} ChainIsList(s: SlabId, mem: seq<Ptr>, h: Ptr, l: seq<nat>, fuel: nat)
    requires Chain(s, mem, h, l) && |l| <= fuel
    ensures ListFrom(s, mem, h, fuel) == l
    decreases |l|
  {
    if l != [] {
      ChainIsList(s, mem, mem[l[0]], l[1..], fuel - 1);
      assert l == [l[0]] + l[1..];
    }
  }

  function FreeList(st: State, s: SlabId): seq<nat>
    requires s in st.slabs
  {
    ListFrom(s, st.slabs[s].mem, st.slabs[s].freelist, st.slabs[s].objects)
  }

  function DetachedList(st: State, p: Place, s: SlabId): seq<nat>
    requires s in st.slabs
  {
    ListFrom(s, st.slabs[s].mem, DetHead(st, p), st.slabs[s].objects)
  }

  lemma WitnessLists(k: Cache, st: State, w: Witness, s: SlabId)
    requires Inv(k, st, w) && s in st.slabs
    ensures s in w.place && s in w.free && s in w.det
    ensures FreeList(st, s) == w.free[s] && DetachedList(st, w.place[s], s) == w.det[s]
    ensures BodyInv(s, st.slabs[s], w.free[s], w.det[s], DetHead(st, w.place[s]))
    ensures IsAt(st, w.place[s], s)
  {
    hide Inv;
    SlabOf(k, st, w, s);
    var b, h := st.slabs[s], DetHead(st, w.place[s]);
    PartsSize(b.objects, w.free[s], w.det[s], b.live, b.pend.Keys);
    ChainIsList(s, b.mem, b.freelist, w.free[s], b.objects);
    ChainIsList(s, b.mem, h, w.det[s], b.objects);
    forall q: Place | !q.Full? && Holds(st, q, s) ensures q == w.place[s] { HoldsPlace(k, st, w, q, s); }
  }

  /** In every run, for every slab at its place: both lists end in NULL, each object is in exactly
      one of free list, detached list, held by a caller, being freed, and the counter is right. */
  lemma EveryObjectHasOneList(k: Cache, states: seq<State>, events: seq<Label>, i: nat, p: Place, s: SlabId)
    requires Run(k, states, events) && i < |states| && s in states[i].slabs && IsAt(states[i], p, s)
    ensures var st, b := states[i], states[i].slabs[s];
      && Chain(s, b.mem, b.freelist, FreeList(st, s))
      && Chain(s, b.mem, DetHead(st, p), DetachedList(st, p, s))
      && Parts(b.objects, FreeList(st, s), DetachedList(st, p, s), b.live, b.pend.Keys)
      && b.inuse + |FreeList(st, s)| == b.objects
  {
    hide Inv, Run;
    var w := RunInv(k, states, events, i);
    WitnessLists(k, states[i], w, s);
    if !p.Full? { HoldsPlace(k, states[i], w, p, s); }
    if !w.place[s].Full? { assert Holds(states[i], w.place[s], s); }
  }

  // ---- what allocations return and what is discarded ----

  /** The object an event hands to a caller. */
  function Returned(st: State, ev: Label): Ptr
  {
    match ev
    case AllocExchange(t, c) => if AllocExchangeHits(st, t, c) then st.tasks[t].obj.value else Null
    case LockedPop(c) => if c in st.cpus then st.cpus[c].freelist else Null
    case BulkPop(c) => if c in st.cpus then st.cpus[c].freelist else Null
    case LoadEnd(c) => if c in st.cpus && st.cpus[c].section.Load? then st.cpus[c].section.freelist else Null
    case LoadSlab(t, c) => if t in st.tasks && st.tasks[t].Ready? then st.tasks[t].freelist else Null
    case _ => Null
  }

  predicate Allocates(st: State, ev: Label)
  {
    match ev
    case AllocExchange(t, c) => AllocExchangeHits(st, t, c)
    case LockedPop(_) => true
    case BulkPop(_) => true
    case LoadEnd(_) => true
    case LoadSlab(_, _) => true
    case _ => false
  }

  lemma ReturnedHead(k: Cache, st: State, w: Witness, st': State, ev: Label)
    requires Inv(k, st, w) && Step(k, st, st', ev) && Allocates(st, ev)
    ensures Returned(st, ev).Ref?
    ensures var o := Returned(st, ev);
      && o.slab in st.slabs && o.slab in w.place && o.slab in w.free && o.slab in w.det
      && o == DetHead(st, w.place[o.slab]) && st'.slabs == HandOut(st.slabs, o)
      && BodyInv(o.slab, st.slabs[o.slab], w.free[o.slab], w.det[o.slab], o)
  {
    hide Inv, BodyInv, HandOut;
    match ev
    case AllocExchange(t, c) =>
      AllocExchangeSees(k, st, w, t, c);
      CpuSlabFacts(k, st, w, c, st.cpus[c].slab.value);
    case LockedPop(c) =>
      HeadInSlab(k, st, w, c);
      CpuSlabFacts(k, st, w, c, st.cpus[c].slab.value);
    case BulkPop(c) =>
      CpuOf(k, st, w, c);
      CpuSlabFacts(k, st, w, c, st.cpus[c].slab.value);
      BodyPop(st.cpus[c].slab.value, st.slabs[st.cpus[c].slab.value], w.free[st.cpus[c].slab.value], w.det[st.cpus[c].slab.value], st.cpus[c].freelist);
    case LoadEnd(c) =>
      CpuOf(k, st, w, c);
      CpuSlabFacts(k, st, w, c, st.cpus[c].slab.value);
      BodyPop(st.cpus[c].slab.value, st.slabs[st.cpus[c].slab.value], w.free[st.cpus[c].slab.value], w.det[st.cpus[c].slab.value], st.cpus[c].section.freelist);
    case LoadSlab(t, c) =>
      TaskOf(k, st, w, t);
      var s := st.tasks[t].slab;
      assert Held(st.tasks[t])[0] == s;
      SlabOf(k, st, w, s);
      BodyNull(s, st.slabs[s], w.free[s], w.det[s], st.tasks[t].freelist);
      BodyPop(s, st.slabs[s], w.free[s], w.det[s], st.tasks[t].freelist);
    case _ =>
  }

  /** Every allocation, lockless or not, returns an object of a slab that nobody holds and nobody
      is freeing; from then on its caller holds it. */
  lemma AllocationsAreFresh(k: Cache, states: seq<State>, events: seq<Label>, i: nat)
    requires Run(k, states, events) && i < |events| && Allocates(states[i], events[i])
    ensures Returned(states[i], events[i]).Ref?
    ensures var o, st, st' := Returned(states[i], events[i]), states[i], states[i + 1];
      && o.slab in st.slabs && o.idx < st.slabs[o.slab].objects
      && o.idx !in st.slabs[o.slab].live && o.idx !in st.slabs[o.slab].pend
      && o.slab in st'.slabs && st'.slabs[o.slab].live == st.slabs[o.slab].live + {o.idx}
  {
    hide Inv, BodyInv, Init;
    var w := RunInv(k, states, events, i);
    hide Step;
    ReturnedHead(k, states[i], w, states[i + 1], events[i]);
    var o := Returned(states[i], events[i]);
    BodyPop(o.slab, states[i].slabs[o.slab], w.free[o.slab], w.det[o.slab], o);
    BodyNull(o.slab, states[i].slabs[o.slab], w.free[o.slab], w.det[o.slab], o);
  }

  /** A slab is discarded only while it exists and only when nobody holds or is freeing one of its objects. */
  lemma DiscardsAreEmpty(k: Cache, states: seq<State>, events: seq<Label>, i: nat, t: TaskId)
    requires Run(k, states, events) && i < |events| && events[i] == DiscardOne(t)
    ensures t in states[i].tasks && states[i].tasks[t].Discard? && states[i].tasks[t].discards != []
    ensures var s := states[i].tasks[t].discards[0];
      && s in states[i].slabs && s !in states[i + 1].slabs
      && states[i].slabs[s].live == {} && states[i].slabs[s].pend == map[]
  {
    hide Inv, Init;
    var w := RunInv(k, states, events, i);
    assert Step(k, states[i], states[i + 1], events[i]);
    var w' := PreserveDiscardOne(k, states[i], w, states[i + 1], t);
  }

  // ---- the lockless paths are atomic ----

  /** The free list of cpu `c`, walked from its head in its slab. */
  function CpuList(st: State, c: Cpu): seq<nat>
    requires c in st.cpus
  {
    if st.cpus[c].slab.None? || st.cpus[c].slab.value !in st.slabs then []
    else
      var b := st.slabs[st.cpus[c].slab.value];
      ListFrom(st.cpus[c].slab.value, b.mem, st.cpus[c].freelist, b.objects)
  }

  lemma CpuListIs(k: Cache, st: State, w: Witness, c: Cpu, s: SlabId)
    requires Inv(k, st, w) && c in st.cpus && st.cpus[c].slab == Some(s) && st.cpus[c].section.Open?
    ensures s in st.slabs && s in w.free && s in w.det && At(w, s, OnCpu(c)) && CpuList(st, c) == w.det[s]
    ensures BodyInv(s, st.slabs[s], w.free[s], w.det[s], st.cpus[c].freelist)
  {
    hide Inv, BodyInv;
    CpuSlabFacts(k, st, w, c, s);
    WitnessLists(k, st, w, s);
  }

  /** A lockless allocation whose cpu still has the free list and the tid it read, however stale its reads, takes the
      first object of the cpu's free list and leaves the rest; the cpu's slab is the one the object is from.  With
      another list or another tid it changes nothing and starts over. */
  lemma AllocExchangeIsPop(k: Cache, states: seq<State>, events: seq<Label>, i: nat, t: TaskId, c: Cpu)
    requires Run(k, states, events) && i < |events| && events[i] == AllocExchange(t, c)
    ensures c in states[i].cpus && c in states[i + 1].cpus
    ensures t in states[i].tasks && states[i].tasks[t].Alloc? && states[i + 1].tasks == states[i].tasks - {t}
    ensures var st, st', l := states[i], states[i + 1], CpuList(states[i], c);
      if Some(st.cpus[c].freelist) == st.tasks[t].obj && st.cpus[c].tid == st.tasks[t].tid then
        && l != [] && st.cpus[c].slab.Some? && st'.cpus[c].slab == st.cpus[c].slab
        && Returned(st, events[i]) == Ref(st.cpus[c].slab.value, l[0])
        && CpuList(st', c) == l[1..]
      else
        Returned(st, events[i]).Null? && st' == st.(tasks := st.tasks - {t})
  {
    hide Inv, BodyInv, Init, Step, StepAllocExchange;
    StepAt(k, states, events, i);
    AllocExchangeStep(k, states[i], states[i + 1], t, c);
    var w := RunInv(k, states, events, i);
    AllocExchangeOutcome(k, states[i], w, states[i + 1], t, c);
  }

  lemma AllocExchangeStep(k: Cache, st: State, st': State, t: TaskId, c: Cpu)
    requires Step(k, st, st', AllocExchange(t, c))
    ensures StepAllocExchange(k, st, st', t, c)
  {
  }

  lemma AllocExchangeOutcome(k: Cache, st: State, w: Witness, st': State, t: TaskId, c: Cpu)
    requires Inv(k, st, w) && StepAllocExchange(k, st, st', t, c)
    ensures c in st.cpus && c in st'.cpus && t in st.tasks && st.tasks[t].Alloc? && st'.tasks == st.tasks - {t}
    ensures var l := CpuList(st, c);
      if Some(st.cpus[c].freelist) == st.tasks[t].obj && st.cpus[c].tid == st.tasks[t].tid then
        && l != [] && st.cpus[c].slab.Some? && st'.cpus[c].slab == st.cpus[c].slab
        && Returned(st, AllocExchange(t, c)) == Ref(st.cpus[c].slab.value, l[0])
        && CpuList(st', c) == l[1..]
      else
        Returned(st, AllocExchange(t, c)).Null? && st' == st.(tasks := st.tasks - {t})
  {
    hide Inv, BodyInv;
    if AllocExchangeHits(st, t, c) { AllocPops(k, st, w, st', t, c); }
  }

  lemma AllocPops(k: Cache, st: State, w: Witness, st': State, t: TaskId, c: Cpu)
    requires Inv(k, st, w) && StepAllocExchange(k, st, st', t, c) && AllocExchangeHits(st, t, c)
    ensures c in st'.cpus && st.cpus[c].slab.Some? && st'.cpus[c].slab == st.cpus[c].slab
    ensures var l := CpuList(st, c);
      l != [] && st.tasks[t].obj.value == Ref(st.cpus[c].slab.value, l[0]) && CpuList(st', c) == l[1..]
  {
    hide Inv, BodyInv;
    AllocExchangeSees(k, st, w, t, c);
    var s := st.cpus[c].slab.value;
    CpuListIs(k, st, w, c, s);
    BodyPop(s, st.slabs[s], w.free[s], w.det[s], st.cpus[c].freelist);
    BodyList(s, st'.slabs[s], w.free[s], w.det[s][1..], st'.cpus[c].freelist);
  }

  lemma BodyList(s: SlabId, b: Slab, f: seq<nat>, d: seq<nat>, h: Ptr)
    requires BodyInv(s, b, f, d, h)
    ensures ListFrom(s, b.mem, h, b.objects) == d
  {
    PartsSize(b.objects, f, d, b.live, b.pend.Keys);
    ChainIsList(s, b.mem, h, d, b.objects);
  }

  /** A lockless free whose cpu still has the free list and the tid it read puts its objects, in order, in front of the
      free list of a cpu whose slab is still the objects' own slab.  With another list or another tid it changes
      nothing and starts over. */
  lemma FreeExchangeIsPush(k: Cache, states: seq<State>, events: seq<Label>, i: nat, t: TaskId, c: Cpu)
    requires Run(k, states, events) && i < |events| && events[i] == FreeExchange(t, c)
    ensures c in states[i].cpus && c in states[i + 1].cpus
    ensures t in states[i].tasks && states[i].tasks[t].Free? && states[i].tasks[t].phase.Spliced?
    ensures var st, st', task := states[i], states[i + 1], states[i].tasks[t];
      if st.cpus[c].freelist == task.phase.head && st.cpus[c].tid == task.phase.tid then
        && st.cpus[c].slab == st'.cpus[c].slab == Some(task.slab) && st'.tasks == st.tasks - {t}
        && CpuList(st', c) == task.objs + CpuList(st, c)
      else
        st' == st.(tasks := st.tasks[t := task.(phase := Start)])
  {
    hide Inv, BodyInv, Init, Step, StepFreeExchange;
    StepAt(k, states, events, i);
    FreeExchangeStep(k, states[i], states[i + 1], t, c);
    var w := RunInv(k, states, events, i);
    FreeExchangeOutcome(k, states[i], w, states[i + 1], t, c);
  }

  lemma FreeExchangeStep(k: Cache, st: State, st': State, t: TaskId, c: Cpu)
    requires Step(k, st, st', FreeExchange(t, c))
    ensures StepFreeExchange(k, st, st', t, c)
  {
  }

  lemma FreeExchangeOutcome(k: Cache, st: State, w: Witness, st': State, t: TaskId, c: Cpu)
    requires Inv(k, st, w) && StepFreeExchange(k, st, st', t, c)
    ensures c in st.cpus && c in st'.cpus && t in st.tasks && st.tasks[t].Free? && st.tasks[t].phase.Spliced?
    ensures var task := st.tasks[t];
      if st.cpus[c].freelist == task.phase.head && st.cpus[c].tid == task.phase.tid then
        && st.cpus[c].slab == st'.cpus[c].slab == Some(task.slab) && st'.tasks == st.tasks - {t}
        && CpuList(st', c) == task.objs + CpuList(st, c)
      else
        st' == st.(tasks := st.tasks[t := task.(phase := Start)])
  {
    hide Inv, BodyInv;
    if FreeExchangeHits(st, t, c) { FreePushes(k, st, w, st', t, c); }
  }

  lemma FreePushes(k: Cache, st: State, w: Witness, st': State, t: TaskId, c: Cpu)
    requires Inv(k, st, w) && StepFreeExchange(k, st, st', t, c) && FreeExchangeHits(st, t, c)
    ensures c in st'.cpus && st.cpus[c].slab == st'.cpus[c].slab == Some(st.tasks[t].slab)
    ensures CpuList(st', c) == st.tasks[t].objs + CpuList(st, c)
  {
    hide Inv, BodyInv;
    FreeExchangeSees(k, st, w, t, c);
    TaskOf(k, st, w, t);
    var s, objs := st.tasks[t].slab, st.tasks[t].objs;
    CpuListIs(k, st, w, c, s);
    BodyPushDet(s, st.slabs[s], w.free[s], w.det[s], st.cpus[c].freelist, objs);
    BodyList(s, st'.slabs[s], w.free[s], objs + w.det[s], st'.cpus[c].freelist);
  }

  lemma BodyFreeList(s: SlabId, b: Slab, f: seq<nat>, d: seq<nat>, h: Ptr)
    requires BodyInv(s, b, f, d, h)
    ensures ListFrom(s, b.mem, b.freelist, b.objects) == f
  {
    PartsSize(b.objects, f, d, b.live, b.pend.Keys);
    ChainIsList(s, b.mem, b.freelist, f, b.objects);
  }

  /** The exchange of a slow free succeeds: freelist, inuse and frozen are what was read. */
  predicate SlowExchangeHits(st: State, t: TaskId)
  {
    && t in st.tasks && st.tasks[t].Free? && st.tasks[t].phase.SlowSpliced? && st.tasks[t].slab in st.slabs
    && var b, ph := st.slabs[st.tasks[t].slab], st.tasks[t].phase;
       b.freelist == ph.prior && b.inuse == ph.inuse && b.frozen == ph.frozen
  }

  /** A slow free whose exchange succeeds puts its objects, in order, in front of the slab's list, whatever happened
      to the slab since the list was read. */
  lemma SlowExchangeIsPush(k: Cache, states: seq<State>, events: seq<Label>, i: nat, t: TaskId)
    requires Run(k, states, events) && i < |events| && events[i] == SlowExchange(t) && SlowExchangeHits(states[i], t)
    ensures var s, objs := states[i].tasks[t].slab, states[i].tasks[t].objs;
      && s in states[i + 1].slabs && FreeList(states[i + 1], s) == objs + FreeList(states[i], s)
      && states[i + 1].slabs[s].inuse == states[i].slabs[s].inuse - |objs|
  {
    hide Inv, Init, Step, FreeList, StepSlowExchange;
    var w := RunInv(k, states, events, i);
    StepAt(k, states, events, i);
    SlowExchangeStep(k, states[i], states[i + 1], t);
    SlowPushLists(k, states[i], w, states[i + 1], t);
  }

  lemma StepAt(k: Cache, states: seq<State>, events: seq<Label>, i: nat)
    requires Run(k, states, events) && i < |events|
    ensures Step(k, states[i], states[i + 1], events[i])
  {
  }

  lemma SlowExchangeStep(k: Cache, st: State, st': State, t: TaskId)
    requires Step(k, st, st', SlowExchange(t))
    ensures StepSlowExchange(k, st, st', t)
  {
  }

  lemma SlowPushLists(k: Cache, st: State, w: Witness, st': State, t: TaskId)
    requires Inv(k, st, w) && StepSlowExchange(k, st, st', t) && SlowExchangeHits(st, t)
    ensures var s, objs := st.tasks[t].slab, st.tasks[t].objs;
      s in st'.slabs && FreeList(st', s) == objs + FreeList(st, s) && st'.slabs[s].inuse == st.slabs[s].inuse - |objs|
  {
    hide Inv, BodyInv, PlaceInv, SlabRespects;
    var s, objs := st.tasks[t].slab, st.tasks[t].objs;
    SlowPush(k, st, w, t);
    WitnessLists(k, st, w, s);
    BodyFreeList(s, Pushed(st.slabs[s], s, objs), objs + w.free[s], w.det[s], DetHead(st, w.place[s]));
  }

  /** Deactivating a slab puts the list its cpu had left in front of the slab's list, again whatever was freed to the
      slab meanwhile. */
  lemma UnfreezeGivesBack(k: Cache, states: seq<State>, events: seq<Label>, i: nat, t: TaskId, walked: seq<nat>)
    requires Run(k, states, events) && i < |events| && events[i] == Unfreeze(t, walked)
    ensures t in states[i].tasks && states[i].tasks[t].Deactivate?
    ensures var s := states[i].tasks[t].slab;
      && s in states[i].slabs && s in states[i + 1].slabs && !states[i + 1].slabs[s].frozen
      && FreeList(states[i + 1], s) == DetachedList(states[i], InTransit(t), s) + FreeList(states[i], s)
      && var all := FreeList(states[i + 1], s);
         states[i + 1].tasks == if all == [] then states[i].tasks - {t}
                                else states[i].tasks[t := Unfrozen(s, states[i].slabs[s].objects - |all|)]
  {
    hide Inv, Init, Step, FreeList, DetachedList, StepUnfreeze;
    var w := RunInv(k, states, events, i);
    StepAt(k, states, events, i);
    UnfreezeStep(k, states[i], states[i + 1], t, walked);
    UnfreezeLists(k, states[i], w, states[i + 1], t, walked);
  }

  lemma UnfreezeStep(k: Cache, st: State, st': State, t: TaskId, walked: seq<nat>)
    requires Step(k, st, st', Unfreeze(t, walked))
    ensures StepUnfreeze(st, st', t, walked)
  {
  }

  lemma UnfreezeLists(k: Cache, st: State, w: Witness, st': State, t: TaskId, walked: seq<nat>)
    requires Inv(k, st, w) && StepUnfreeze(st, st', t, walked)
    ensures t in st.tasks && st.tasks[t].Deactivate?
    ensures var s := st.tasks[t].slab;
      && s in st.slabs && s in st'.slabs && !st'.slabs[s].frozen
      && FreeList(st', s) == DetachedList(st, InTransit(t), s) + FreeList(st, s)
      && var all := FreeList(st', s);
         st'.tasks == if all == [] then st.tasks - {t} else st.tasks[t := Unfrozen(s, st.slabs[s].objects - |all|)]
  {
    hide Inv, BodyInv, Chain;
    var s := st.tasks[t].slab;
    TaskOf(k, st, w, t);
    assert Held(st.tasks[t])[0] == s;
    WitnessLists(k, st, w, s);
    BodyWalk(s, st.slabs[s], w.free[s], w.det[s], st.tasks[t].freelist, walked);
    if walked == [] {
      BodySame(s, st.slabs[s], st'.slabs[s], w.free[s], w.det[s], st.tasks[t].freelist);
      BodyFreeList(s, st'.slabs[s], w.free[s], w.det[s], st.tasks[t].freelist);
      BodyNull(s, st'.slabs[s], w.free[s], w.det[s], st.tasks[t].freelist);
      BodyCount(s, st'.slabs[s], w.free[s], w.det[s], st.tasks[t].freelist);
      assert [] + w.free[s] == w.free[s];
    } else {
      BodySplice(s, st.slabs[s], st'.slabs[s], w.free[s], w.det[s], st.tasks[t].freelist);
      BodyFreeList(s, st'.slabs[s], w.det[s] + w.free[s], [], Null);
      BodyNull(s, st'.slabs[s], w.det[s] + w.free[s], [], Null);
      BodyCount(s, st'.slabs[s], w.det[s] + w.free[s], [], Null);
    }
  }

  /** Freezing a slab takes the whole list, which is not empty, and leaves none. */
  lemma FreezeTakesAll(k: Cache, states: seq<State>, events: seq<Label>, i: nat, t: TaskId)
    requires Run(k, states, events) && i < |events| && events[i] == FreezeSlab(t)
    ensures t in states[i].tasks && states[i].tasks[t].Freeze? && t in states[i + 1].tasks && states[i + 1].tasks[t].Ready?
    ensures var s := states[i].tasks[t].slab;
      && s in states[i].slabs && s in states[i + 1].slabs && states[i + 1].slabs[s].frozen
      && FreeList(states[i + 1], s) == []
      && DetachedList(states[i + 1], InTransit(t), s) == FreeList(states[i], s) != []
  {
    hide Inv, Init, Step, FreeList, DetachedList, StepFreezeSlab;
    var w := RunInv(k, states, events, i);
    StepAt(k, states, events, i);
    FreezeStep(k, states[i], states[i + 1], t);
    FreezeLists(k, states[i], w, states[i + 1], t);
  }

  lemma FreezeStep(k: Cache, st: State, st': State, t: TaskId)
    requires Step(k, st, st', FreezeSlab(t))
    ensures StepFreezeSlab(st, st', t)
  {
  }

  lemma FreezeLists(k: Cache, st: State, w: Witness, st': State, t: TaskId)
    requires Inv(k, st, w) && StepFreezeSlab(st, st', t)
    ensures t in st.tasks && st.tasks[t].Freeze? && t in st'.tasks && st'.tasks[t].Ready?
    ensures var s := st.tasks[t].slab;
      && s in st.slabs && s in st'.slabs && st'.slabs[s].frozen
      && FreeList(st', s) == []
      && DetachedList(st', InTransit(t), s) == FreeList(st, s) != []
  {
    hide Inv, BodyInv, Chain;
    var s := st.tasks[t].slab;
    TaskOf(k, st, w, t);
    assert Held(st.tasks[t])[0] == s;
    SlabOf(k, st, w, s);
    WitnessLists(k, st, w, s);
    BodyTake(s, st.slabs[s], w.free[s], true);
    BodyFreeList(s, st'.slabs[s], [], w.free[s], st.slabs[s].freelist);
    BodyList(s, st'.slabs[s], [], w.free[s], st.slabs[s].freelist);
  }

  lemma CpuPathAdvances(k: Cache, st: State, st': State, ev: Label, c: Cpu)
    requires CpuPath(k, st, st', ev) && c in st.cpus && k.tidStep > 0
    ensures c in st'.cpus && Advances(st.cpus[c], st'.cpus[c])
  {
    hide Chain, Link, Remove, Next, HandOut, Linked, NoDup;
  }

  lemma MovePathAdvances(k: Cache, st: State, st': State, ev: Label, c: Cpu)
    requires MovePath(k, st, st', ev) && c in st.cpus && k.tidStep > 0
    ensures c in st'.cpus && Advances(st.cpus[c], st'.cpus[c])
  {
    hide Chain, Link, Remove, Next, HandOut, Linked, NoDup;
  }

  lemma NodePathAdvances(k: Cache, st: State, st': State, ev: Label, c: Cpu)
    requires NodePath(k, st, st', ev) && c in st.cpus && k.tidStep > 0
    ensures c in st'.cpus && Advances(st.cpus[c], st'.cpus[c])
  {
    hide Chain, Link, Remove, Next, HandOut, Linked, NoDup;
  }

  lemma FreePathAdvances(k: Cache, st: State, st': State, ev: Label, c: Cpu)
    requires FreePath(k, st, st', ev) && c in st.cpus && k.tidStep > 0
    ensures c in st'.cpus && Advances(st.cpus[c], st'.cpus[c])
  {
    hide Chain, Link, Remove, Next, HandOut, Linked, NoDup;
  }

  /** Every step that changes a cpu's free list or slab and leaves it outside a section has advanced its tid. */
  lemma StepAdvances(k: Cache, st: State, st': State, ev: Label, c: Cpu)
    requires Step(k, st, st', ev) && c in st.cpus && k.tidStep > 0
    ensures c in st'.cpus && Advances(st.cpus[c], st'.cpus[c])
  {
    hide CpuPath, MovePath, NodePath, FreePath, Advances;
    if CpuPath(k, st, st', ev) {
      CpuPathAdvances(k, st, st', ev, c);
    } else if MovePath(k, st, st', ev) {
      MovePathAdvances(k, st, st', ev, c);
    } else if NodePath(k, st, st', ev) {
      NodePathAdvances(k, st, st', ev, c);
    } else {
      FreePathAdvances(k, st, st', ev, c);
    }
  }

  lemma AdvancesTrans(p: CpuSlab, q: CpuSlab, r: CpuSlab)
    requires Advances(p, q) && Advances(q, r)
    ensures Advances(p, r)
  {
  }

  /** If a cpu outside its sections has the tid it had before, it has the free list and slab it had before. */
  lemma {:induction false} EqualTidMeansUntouched(k: Cache, states: seq<State>, events: seq<Label>, i: nat, j: nat, c: Cpu)
    requires Run(k, states, events) && i <= j < |states| && c in states[i].cpus
    ensures c in states[j].cpus && states[i].cpus[c].tid <= states[j].cpus[c].tid
    ensures states[j].cpus[c].tid == states[i].cpus[c].tid && states[j].cpus[c].section.Open? ==>
      states[j].cpus[c].freelist == states[i].cpus[c].freelist && states[j].cpus[c].slab == states[i].cpus[c].slab
    ensures Advances(states[i].cpus[c], states[j].cpus[c])
    decreases j - i
  {
    hide Step, Init;
    if i < j {
      TidNamesCpu(k, states, events, i, c, c);
      EqualTidMeansUntouched(k, states, events, i, j - 1, c);
      assert Step(k, states[j - 1], states[j], events[j - 1]);
      StepAdvances(k, states[j - 1], states[j], events[j - 1], c);
      AdvancesTrans(states[i].cpus[c], states[j - 1].cpus[c], states[j].cpus[c]);
    }
  }

  /** The tid of a cpu is congruent to its number, so tids of different cpus are never equal. */
  lemma TidNamesCpu(k: Cache, states: seq<State>, events: seq<Label>, i: nat, c: Cpu, d: Cpu)
    requires Run(k, states, events) && i < |states| && c in states[i].cpus && d in states[i].cpus
    ensures k.tidStep > 0 && states[i].cpus[c].tid % k.tidStep == c
    ensures states[i].cpus[c].tid == states[i].cpus[d].tid ==> c == d
  {
    hide Run, Inv;
    var w := RunInv(k, states, events, i);
    CpuOf(k, states[i], w, c);
    CpuOf(k, states[i], w, d);
  }

  // ---- the assertions in the code ----

  /** The BUG_ONs: a slab about to be deactivated or loaded is frozen, one about to be frozen is
      not, a free list about to be adopted or loaded is not empty, a listed slab is not full. */
  predicate NoBug(st: State)
  {
    && (forall t :: t in st.tasks && (st.tasks[t].Deactivate? || st.tasks[t].Freeze? || st.tasks[t].Ready?) ==>
          var s := st.tasks[t].slab;
          && s in st.slabs && (st.slabs[s].frozen <==> !st.tasks[t].Freeze?)
          && (st.tasks[t].Freeze? ==> st.slabs[s].freelist.Ref?) && (st.tasks[t].Ready? ==> st.tasks[t].freelist.Ref?))
    && (forall c :: c in st.cpus && st.cpus[c].section.Adopt? ==>
          st.cpus[c].slab.Some? && st.cpus[c].slab.value in st.slabs && st.slabs[st.cpus[c].slab.value].freelist.Ref?)
    && (forall c :: c in st.cpus && st.cpus[c].section.Load? ==>
          st.cpus[c].slab.Some? && st.cpus[c].slab.value in st.slabs && st.slabs[st.cpus[c].slab.value].frozen
          && st.cpus[c].section.freelist.Ref? && st.cpus[c].section.freelist.slab == st.cpus[c].slab.value)
    && (forall s :: s in st.node ==> s in st.slabs && 0 <= st.slabs[s].inuse < st.slabs[s].objects)
  }

  lemma AssertionsHold(k: Cache, states: seq<State>, events: seq<Label>, i: nat)
    requires Run(k, states, events) && i < |states|
    ensures NoBug(states[i])
  {
    hide Inv, Run;
    var st := states[i];
    var w := RunInv(k, states, events, i);
    forall t | t in st.tasks && (st.tasks[t].Deactivate? || st.tasks[t].Freeze? || st.tasks[t].Ready?)
      ensures var s := st.tasks[t].slab;
        && s in st.slabs && (st.slabs[s].frozen <==> !st.tasks[t].Freeze?)
        && (st.tasks[t].Freeze? ==> st.slabs[s].freelist.Ref?) && (st.tasks[t].Ready? ==> st.tasks[t].freelist.Ref?)
    {
      HeldFacts(k, st, w, t);
    }
    forall c | c in st.cpus && st.cpus[c].section.Adopt?
      ensures st.cpus[c].slab.Some? && st.cpus[c].slab.value in st.slabs && st.slabs[st.cpus[c].slab.value].freelist.Ref?
    {
      AdoptFacts(k, st, w, c);
    }
    forall c | c in st.cpus && st.cpus[c].section.Load?
      ensures st.cpus[c].slab.Some? && st.cpus[c].slab.value in st.slabs && st.slabs[st.cpus[c].slab.value].frozen
      ensures st.cpus[c].section.freelist.Ref? && st.cpus[c].section.freelist.slab == st.cpus[c].slab.value
    {
      LoadFacts(k, st, w, c);
    }
    forall s | s in st.node ensures s in st.slabs && 0 <= st.slabs[s].inuse < st.slabs[s].objects {
      ListedFacts(k, st, w, s);
    }
  }

  lemma AdoptFacts(k: Cache, st: State, w: Witness, c: Cpu)
    requires Inv(k, st, w) && c in st.cpus && st.cpus[c].section.Adopt?
    ensures st.cpus[c].slab.Some? && st.cpus[c].slab.value in st.slabs && st.slabs[st.cpus[c].slab.value].freelist.Ref?
  {
    hide Inv, BodyInv;
    CpuOf(k, st, w, c);
    var s := st.cpus[c].slab.value;
    SlabOf(k, st, w, s);
    BodyNull(s, st.slabs[s], w.free[s], w.det[s], Null);
  }

  lemma LoadFacts(k: Cache, st: State, w: Witness, c: Cpu)
    requires Inv(k, st, w) && c in st.cpus && st.cpus[c].section.Load?
    ensures st.cpus[c].slab.Some? && st.cpus[c].slab.value in st.slabs && st.slabs[st.cpus[c].slab.value].frozen
    ensures var s, h := st.cpus[c].slab.value, st.cpus[c].section.freelist;
      h.Ref? && h.slab == s && h.idx < |st.slabs[s].mem|
  {
    hide Inv, BodyInv;
    CpuOf(k, st, w, c);
    var s := st.cpus[c].slab.value;
    CpuSlabFacts(k, st, w, c, s);
    BodyPop(s, st.slabs[s], w.free[s], w.det[s], st.cpus[c].section.freelist);
  }

  lemma ListedFacts(k: Cache, st: State, w: Witness, s: SlabId)
    requires Inv(k, st, w) && s in st.node
    ensures s in st.slabs && 0 <= st.slabs[s].inuse < st.slabs[s].objects
  {
    hide Inv, BodyInv;
    NodeOf(k, st, w);
    OnNodeOf(st, w, s);
    SlabOf(k, st, w, s);
    BodyEmpty(s, st.slabs[s], w.free[s], w.det[s], Null);
    BodyCount(s, st.slabs[s], w.free[s], w.det[s], Null);
  }

  lemma BodyCount(s: SlabId, b: Slab, f: seq<nat>, d: seq<nat>, h: Ptr)
    requires BodyInv(s, b, f, d, h)
    ensures b.inuse + |f| == b.objects
  {
  }

  lemma HeldFacts(k: Cache, st: State, w: Witness, t: TaskId)
    requires Inv(k, st, w) && t in st.tasks && (st.tasks[t].Deactivate? || st.tasks[t].Freeze? || st.tasks[t].Ready?)
    ensures var s := st.tasks[t].slab;
      && s in st.slabs && (st.slabs[s].frozen <==> !st.tasks[t].Freeze?)
      && (st.tasks[t].Freeze? ==> st.slabs[s].freelist.Ref?) && (st.tasks[t].Ready? ==> st.tasks[t].freelist.Ref?)
  {
    hide Inv, BodyInv;
    TaskOf(k, st, w, t);
    var s := st.tasks[t].slab;
    assert Held(st.tasks[t])[0] == s;
    SlabOf(k, st, w, s);
    BodyNull(s, st.slabs[s], w.free[s], w.det[s], DetHead(st, w.place[s]));
  }
}
