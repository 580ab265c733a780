/** What the steps do to the lists and the counter of one slab, and the tools for the step lemmas. */
module SlubSlab {
  import opened Freelist
  import opened SlubMachine
  import opened SlubInvariant
  import opened SlubFrame

  // ---- tids and names ----

  lemma TidAdvance(k: Cache, c: Cpu, tid: nat)
    requires c < k.tidStep && tid % k.tidStep == c
    ensures (tid + k.tidStep) % k.tidStep == c
  {
    var m, q, q' := k.tidStep, tid / k.tidStep, (tid + k.tidStep) / k.tidStep;
    var r' := (tid + m) % m;
    assert tid == m * q + c && tid + m == m * q' + r';
    assert m * (q + 1 - q') == r' - c by {
      assert m * (q + 1 - q') == m * q + m - m * q';
    }
    Multiple(m, q + 1 - q');
  }

  lemma Multiple(m: nat, d: int)
    requires m > 0
    ensures d >= 1 ==> m * d >= m
    ensures d <= -1 ==> m * d + m <= 0
  {
  }

  // ---- one slab ----

  /** Flags and the place count play no part in the lists. */
  predicate SameBody(b: Slab, b': Slab)
  {
    && b'.freelist == b.freelist && b'.inuse == b.inuse && b'.objects == b.objects
    && b'.mem == b.mem && b'.live == b.live && b'.pend == b.pend
  }

  lemma BodySame(s: SlabId, b: Slab, b': Slab, f: seq<nat>, d: seq<nat>, h: Ptr)
    requires BodyInv(s, b, f, d, h) && SameBody(b, b')
    ensures BodyInv(s, b', f, d, h)
  {
  }

  /** The head of the detached list is handed out. */
  lemma BodyPop(s: SlabId, b: Slab, f: seq<nat>, d: seq<nat>, h: Ptr)
    requires BodyInv(s, b, f, d, h) && h.Ref?
    ensures d != [] && h == Ref(s, d[0]) && d[0] < |b.mem| && d[0] !in b.live && d[0] !in b.pend
    ensures BodyInv(s, b.(live := b.live + {d[0]}), f, d[1..], b.mem[d[0]])
  {
    PartsPop(b.objects, f, d, b.live, b.pend.Keys);
    PartsAt(b.objects, f, d, b.live, b.pend.Keys, d[0]);
  }

  /** Null means empty. */
  lemma BodyNull(s: SlabId, b: Slab, f: seq<nat>, d: seq<nat>, h: Ptr)
    requires BodyInv(s, b, f, d, h)
    ensures b.freelist.Null? <==> f == []
    ensures h.Null? <==> d == []
    ensures |b.mem| == b.objects >= 1
  {
  }

  /** The whole free list becomes the detached list. */
  lemma BodyTake(s: SlabId, b: Slab, f: seq<nat>, frozen: bool)
    requires BodyInv(s, b, f, [], Null)
    ensures BodyInv(s, TakeList(b, frozen), [], f, b.freelist)
    ensures b.freelist.Null? <==> f == []
  {
    PartsTake(b.objects, f, b.live, b.pend.Keys);
  }

  /** A write to an object that is on neither list. */
  lemma BodyWrite(s: SlabId, b: Slab, f: seq<nat>, d: seq<nat>, h: Ptr, i: nat, v: Ptr)
    requires BodyInv(s, b, f, d, h) && (i in b.live || i in b.pend)
    ensures i < |b.mem| && i !in d && BodyInv(s, b.(mem := b.mem[i := v]), f, d, h)
  {
    PartsAt(b.objects, f, d, b.live, b.pend.Keys, i);
    ChainFrame(s, b.mem, b.mem[i := v], b.freelist, f);
    ChainFrame(s, b.mem, b.mem[i := v], h, d);
  }

  /** Objects pass from their holders to a free and are linked. */
  lemma BodyBeginFree(s: SlabId, b: Slab, f: seq<nat>, d: seq<nat>, h: Ptr, objs: seq<nat>, t: TaskId)
    requires BodyInv(s, b, f, d, h) && objs != [] && NoDup(objs)
    requires forall x :: x in objs ==> x in b.live
    ensures forall i :: 0 <= i < |objs| ==> objs[i] < |b.mem|
    ensures forall x :: x in objs ==> x !in d && x !in b.pend
    ensures BodyInv(s, b.(mem := Link(s, b.mem, objs), live := b.live - Elems(objs), pend := With(b.pend, objs, t)), f, d, h)
  {
    PartsAll(b.objects, f, d, b.live, b.pend.Keys);
    assert forall i :: 0 <= i < |objs| ==> objs[i] in objs;
    PartsBeginFree(b.objects, f, d, b.live, b.pend.Keys, objs);
    assert With(b.pend, objs, t).Keys == b.pend.Keys + Elems(objs);
    ChainFrame(s, b.mem, Link(s, b.mem, objs), b.freelist, f);
    ChainFrame(s, b.mem, Link(s, b.mem, objs), h, d);
  }

  /** A linked segment that ends at the slab's free list is pushed onto it. */
  lemma BodyPush(s: SlabId, b: Slab, f: seq<nat>, d: seq<nat>, h: Ptr, objs: seq<nat>)
    requires BodyInv(s, b, f, d, h) && objs != [] && NoDup(objs) && Linked(s, b.mem, objs)
    requires b.mem[Last(objs)] == b.freelist && forall x :: x in objs ==> x in b.pend
    ensures BodyInv(s, Pushed(b, s, objs), objs + f, d, h) && Pushed(b, s, objs).inuse >= 0
  {
    ChainSplice(s, b.mem, objs, b.freelist, f);
    PartsPush(b.objects, f, d, b.live, b.pend.Keys, objs);
    assert Without(b.pend, objs).Keys == b.pend.Keys - Elems(objs);
    PartsSize(b.objects, objs + f, d, b.live, b.pend.Keys - Elems(objs));
  }

  /** A linked segment that ends at the detached list is pushed onto that. */
  lemma BodyPushDet(s: SlabId, b: Slab, f: seq<nat>, d: seq<nat>, h: Ptr, objs: seq<nat>)
    requires BodyInv(s, b, f, d, h) && objs != [] && NoDup(objs) && Linked(s, b.mem, objs)
    requires b.mem[Last(objs)] == h && forall x :: x in objs ==> x in b.pend
    ensures BodyInv(s, b.(pend := Without(b.pend, objs)), f, objs + d, Ref(s, objs[0]))
  {
    ChainSplice(s, b.mem, objs, h, d);
    PartsPush(b.objects, f, d, b.live, b.pend.Keys, objs);
    assert Without(b.pend, objs).Keys == b.pend.Keys - Elems(objs);
  }

  /** The detached list goes back in front of the free list. */
  lemma BodySplice(s: SlabId, b: Slab, b': Slab, f: seq<nat>, d: seq<nat>, h: Ptr)
    requires BodyInv(s, b, f, d, h) && d != [] && Last(d) < |b.mem|
    requires SameBody(b.(freelist := h, inuse := b.inuse - |d|, mem := b.mem[Last(d) := b.freelist]), b')
    ensures BodyInv(s, b', d + f, [], Null) && b'.inuse >= 0
  {
    PartsAll(b.objects, f, d, b.live, b.pend.Keys);
    ChainLinked(s, b.mem, h, d);
    LinkedTail(s, b.mem, d, b.freelist);
    assert Last(d) in d;
    ChainFrame(s, b.mem, b'.mem, b.freelist, f);
    ChainSplice(s, b'.mem, d, b.freelist, f);
    PartsSplice(b.objects, f, d, b.live, b.pend.Keys);
    PartsSize(b.objects, d + f, [], b.live, b.pend.Keys);
  }

  /** A slab with no object in use has no object outside its free list. */
  lemma BodyEmpty(s: SlabId, b: Slab, f: seq<nat>, d: seq<nat>, h: Ptr)
    requires BodyInv(s, b, f, d, h)
    ensures b.inuse == |d| + |b.live| + |b.pend|
    ensures b.inuse == 0 <==> d == [] && b.live == {} && b.pend == map[]
  {
    PartsSize(b.objects, f, d, b.live, b.pend.Keys);
    assert |b.pend| == |b.pend.Keys|;
  }

  /** A fresh slab whose list was taken at once. */
  lemma BodyFresh(s: SlabId, order: seq<nat>)
    requires order != [] && multiset(order) == multiset(Range(|order|))
    requires forall i :: 0 <= i < |order| ==> order[i] < |order|
    ensures BodyInv(s, Slab(Null, |order|, |order|, true, false, 0, Link(s, seq(|order|, _ => Null), order), {}, map[]),
                    [], order, Ref(s, order[0]))
  {
    var mem := Link(s, seq(|order|, _ => Null), order);
    MultisetNoDup(order, |order|, multiset{});
    LinkKeepsLast(s, seq(|order|, _ => Null), order);
    ChainSplice(s, mem, order, Null, []);
    assert order + [] == order;
  }

  lemma {:induction false} LinkKeepsLast(s: SlabId, mem: seq<Ptr>, l: seq<nat>)
    requires l != [] && NoDup(l) && forall i :: 0 <= i < |l| ==> l[i] < |mem|
    ensures Link(s, mem, l)[Last(l)] == mem[Last(l)]
    decreases |l|
  {
    if |l| > 1 {
      assert NoDup(l[1..]) && Last(l[1..]) == Last(l);
      LinkKeepsLast(s, mem, l[1..]);
    }
  }

  // ---- taking the invariant apart and putting it together ----

  lemma CpuOf(k: Cache, st: State, w: Witness, c: Cpu)
    requires Inv(k, st, w) && c in st.cpus
    ensures CpuInv(k, st, w, c)
  {
  }

  lemma TaskOf(k: Cache, st: State, w: Witness, t: TaskId)
    requires Inv(k, st, w) && t in st.tasks
    ensures TaskInv(k, st, w, t)
  {
  }

  lemma SlabOf(k: Cache, st: State, w: Witness, s: SlabId)
    requires Inv(k, st, w) && (s in st.slabs || s in w.place)
    ensures s in st.slabs && s in w.place && s in w.free && s in w.det
    ensures BodyInv(s, st.slabs[s], w.free[s], w.det[s], DetHead(st, w.place[s]))
    ensures PlaceInv(st, w.place[s], s, st.slabs[s], w.free[s], w.det[s])
    ensures PendInv(st, s, st.slabs[s])
  {
    hide BodyInv, PlaceInv, PendInv;
    assert SlabInv(st, w, s);
  }

  lemma NodeOf(k: Cache, st: State, w: Witness)
    requires Inv(k, st, w)
    ensures NodeInv(st, w)
    ensures w.place.Keys == st.slabs.Keys && w.free.Keys == st.slabs.Keys && w.det.Keys == st.slabs.Keys
  {
  }

  lemma SlabIntro(st: State, w: Witness, s: SlabId)
    requires s in st.slabs && s in w.place && s in w.free && s in w.det
    requires BodyInv(s, st.slabs[s], w.free[s], w.det[s], DetHead(st, w.place[s]))
    requires PlaceInv(st, w.place[s], s, st.slabs[s], w.free[s], w.det[s])
    requires PendInv(st, s, st.slabs[s])
    ensures SlabInv(st, w, s)
  {
  }

  /** The node list was not touched. */
  lemma NodeSame(st: State, w: Witness, st': State, s: SlabId, p: Place, f: seq<nat>, d: seq<nat>)
    requires NodeInv(st, w) && st'.node == st.node && st'.nrPartial == st.nrPartial
    requires s in w.place && w.place[s].OnNode? ==> p.OnNode?
    ensures NodeInv(st', Put(w, s, p, f, d))
  {
  }

  function Put(w: Witness, s: SlabId, p: Place, f: seq<nat>, d: seq<nat>): Witness
  {
    Witness(w.place[s := p], w.free[s := f], w.det[s := d])
  }

  /** Slab `s` ends at place `p` with lists `f` and `d`. */
  lemma PutInv(k: Cache, st: State, w: Witness, st': State, s: SlabId, p: Place, f: seq<nat>, d: seq<nat>, c: Cpu, t: TaskId)
    requires Inv(k, st, w) && Only(st, st', s, c, t) && s in st'.slabs
    requires BodyInv(s, st'.slabs[s], f, d, DetHead(st', p)) && PlaceInv(st', p, s, st'.slabs[s], f, d)
    requires PendInv(st', s, st'.slabs[s])
    requires TaskKeeps(st, st', t, s) && NodeKeeps(st, st', s) && FreeKept(st, st', s, t)
    requires Leaves(st, w, st', Put(w, s, p, f, d), s, c, t) && Respects(st, w, st', s, t)
    requires c in st.cpus ==> c in st'.cpus && CpuKeeps(st.cpus[c], st'.cpus[c], s) && Advances(st.cpus[c], st'.cpus[c])
    requires c in st.cpus ==> CpuInv(k, st', Put(w, s, p, f, d), c)
    requires t in st'.tasks ==> TaskInv(k, st', Put(w, s, p, f, d), t)
    requires NodeInv(st', Put(w, s, p, f, d))
    ensures Inv(k, st', Put(w, s, p, f, d))
  {
    hide SlabInv, CpuInv, TaskInv, NodeInv, BodyInv, PlaceInv, PendInv, TaskKeeps, NodeKeeps, FreeKept, Leaves, Respects, CpuKeeps, Advances;
    var w' := Put(w, s, p, f, d);
    SlabIntro(st', w', s);
    Frame(k, st, w, st', w', s, c, t);
  }

  lemma PendSame(st: State, st': State, s: SlabId, b: Slab, b': Slab)
    requires PendInv(st, s, b) && b'.pend == b.pend
    requires forall t :: t in st.tasks && st.tasks[t].Free? ==> t in st'.tasks && st'.tasks[t] == st.tasks[t]
    ensures PendInv(st', s, b')
  {
  }

  /** Only activation `t` changes, and it goes on holding what it held. */
  lemma TaskStepInv(k: Cache, st: State, w: Witness, st': State, t: TaskId)
    requires Inv(k, st, w) && st' == st.(tasks := st'.tasks) && Same(st.tasks, st'.tasks, t)
    requires t in st.tasks ==> forall x :: x in Held(st.tasks[t]) ==> Kept(st, st', InTransit(t), x)
    requires t in st.tasks && st.tasks[t].Free? ==>
      t in st'.tasks && st'.tasks[t].Free? && st'.tasks[t].slab == st.tasks[t].slab && st'.tasks[t].objs == st.tasks[t].objs
    requires t in st'.tasks ==> TaskInv(k, st', w, t)
    ensures Inv(k, st', w)
  {
    hide Inv, TaskInv, CpuInv, SlabInv, Kept;
    NodeOf(k, st, w);
    var s := Fresh(st.slabs.Keys);
    var c := Fresh(st.cpus.Keys);
    assert NodeInv(st', w);
    Frame(k, st, w, st', w, s, c, t);
  }

  /** Slab `s` changes and stays where it is; `t` is an activation that holds no slab. */
  lemma StayInv(k: Cache, st: State, w: Witness, st': State, s: SlabId, f: seq<nat>, t: TaskId)
    requires Inv(k, st, w) && s in st.slabs && s in st'.slabs && s in w.place && s in w.det
    requires st'.cpus == st.cpus && st'.node == st.node && st'.nrPartial == st.nrPartial
    requires st'.slabs == st.slabs[s := st'.slabs[s]] && Same(st.tasks, st'.tasks, t)
    requires t in st.tasks ==> Held(st.tasks[t]) == []
    requires t in st'.tasks ==> Held(st'.tasks[t]) == [] && TaskInv(k, st', Put(w, s, w.place[s], f, w.det[s]), t)
    requires BodyInv(s, st'.slabs[s], f, w.det[s], DetHead(st, w.place[s])) && PendInv(st', s, st'.slabs[s])
    requires st'.slabs[s].slabs == st.slabs[s].slabs && PlaceInv(st, w.place[s], s, st'.slabs[s], f, w.det[s])
    requires FreeKept(st, st', s, t) && SlabRespects(w, st.slabs[s], st'.slabs[s], s, t)
    ensures Inv(k, st', Put(w, s, w.place[s], f, w.det[s]))
  {
    hide Inv, TaskInv, CpuInv, NodeInv, BodyInv, PendInv, SlabRespects, FreeKept;
    NodeOf(k, st, w);
    var c := Fresh(st.cpus.Keys);
    NodeSame(st, w, st', s, w.place[s], f, w.det[s]);
    PutInv(k, st, w, st', s, w.place[s], f, w.det[s], c, t);
  }
}
