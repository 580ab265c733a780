/** Deactivating, listing, discarding and fetching slabs keeps the invariant. */
module SlubLists {
  import opened Freelist
  import opened SlubMachine
  import opened SlubInvariant
  import opened SlubFrame
  import opened SlubSlab
  import opened SlubMove

  // ---- the node list ----

  lemma NodeAdd(st: State, w: Witness, st': State, s: SlabId, f: seq<nat>, d: seq<nat>)
    requires NodeInv(st, w) && s in w.place && !w.place[s].OnNode?
    requires st'.node == st.node + [s] || st'.node == [s] + st.node
    requires st'.nrPartial == st.nrPartial + 1
    ensures NodeInv(st', Put(w, s, OnNode, f, d)) && NodeKeeps(st, st', s) && s in st'.node
  {
    var w' := Put(w, s, OnNode, f, d);
    forall i | 0 <= i < |st'.node| ensures At(w', st'.node[i], OnNode) {
    }
    if st'.node == st.node + [s] {
      assert st'.node[|st.node|] == s;
      forall x | x in st.node ensures x in st'.node { }
    } else {
      assert st'.node[0] == s;
      forall x | x in st.node ensures x in st'.node { }
    }
  }

  /** `s` is taken off the list. */
  lemma NodeTake(st: State, w: Witness, st': State, s: SlabId, p: Place, f: seq<nat>, d: seq<nat>)
    requires NodeInv(st, w) && s in st.node && !p.OnNode?
    requires st'.node == Remove(st.node, s) && st'.nrPartial == st.nrPartial - 1
    ensures NodeInv(st', Put(w, s, p, f, d)) && NodeKeeps(st, st', s)
  {
    var n, n', i := st.node, st'.node, IndexOf(st.node, s);
    var w' := Put(w, s, p, f, d);
    forall j | 0 <= j < |n'| ensures At(w', n'[j], OnNode) && n'[j] != s {
      assert n'[j] == if j < i then n[j] else n[j + 1];
    }
    forall x | x in n && x != s ensures x in n' {
      var j :| 0 <= j < |n| && n[j] == x;
      assert n'[if j < i then j else j - 1] == x;
    }
  }

  lemma RemoveFirst(l: seq<SlabId>)
    requires l != []
    ensures Remove(l, l[0]) == l[1..]
  {
  }

  // ---- deactivate_slab ----

  lemma PreserveUnfreeze(k: Cache, st: State, w: Witness, st': State, t: TaskId, walked: seq<nat>) returns (w': Witness)
    requires Inv(k, st, w) && StepUnfreeze(st, st', t, walked)
    ensures Inv(k, st', w')
  {
    hide Inv, BodyInv, NodeInv, PendInv, CpuInv, Chain;
    var s := st.tasks[t].slab;
    var b, b' := st.slabs[s], st'.slabs[s];
    TaskOf(k, st, w, t);
    assert Held(st.tasks[t])[0] == s;
    SlabOf(k, st, w, s);
    NodeOf(k, st, w);
    BodyWalk(s, b, w.free[s], w.det[s], st.tasks[t].freelist, walked);
    BodyNull(s, b, w.free[s], w.det[s], st.tasks[t].freelist);
    var f := w.det[s] + w.free[s];
    if walked == [] {
      assert f == w.free[s];
      BodySame(s, b, b', f, [], Null);
    } else {
      BodySplice(s, b, b', w.free[s], w.det[s], st.tasks[t].freelist);
    }
    BodyNull(s, b', f, [], Null);
    PendSame(st, st', s, b, b');
    var c := Fresh(st.cpus.Keys);
    var p := if b'.freelist.Null? then Full else InTransit(t);
    NodeSame(st, w, st', s, p, f, []);
    PutInv(k, st, w, st', s, p, f, [], c, t);
    w' := Put(w, s, p, f, []);
  }

  /** The walk of deactivate_slab finds exactly the detached list. */
  lemma BodyWalk(s: SlabId, b: Slab, f: seq<nat>, d: seq<nat>, h: Ptr, walked: seq<nat>)
    requires BodyInv(s, b, f, d, h) && Chain(s, b.mem, h, walked)
    ensures walked == d && (d != [] ==> Last(d) < |b.mem|)
    ensures forall x :: x in d ==> x !in b.pend
  {
    ChainUnique(s, b.mem, h, walked, d);
    PartsAll(b.objects, f, d, b.live, b.pend.Keys);
    if d != [] { ChainLinked(s, b.mem, h, d); }
  }

  lemma PreserveDecide(k: Cache, st: State, w: Witness, st': State, t: TaskId) returns (w': Witness)
    requires Inv(k, st, w) && StepDecide(k, st, st', t)
    ensures Inv(k, st', w')
  {
    hide Inv;
    TaskOf(k, st, w, t);
    TaskStepInv(k, st, w, st', t);
    w' := w;
  }

  lemma PreserveAddToNode(k: Cache, st: State, w: Witness, st': State, t: TaskId, tail: bool) returns (w': Witness)
    requires Inv(k, st, w) && StepAddToNode(st, st', t, tail)
    ensures Inv(k, st', w')
  {
    hide Inv, BodyInv, NodeInv, PendInv, CpuInv, NodeKeeps;
    var s := st.tasks[t].slab;
    TaskOf(k, st, w, t);
    assert Held(st.tasks[t])[0] == s;
    SlabOf(k, st, w, s);
    NodeOf(k, st, w);
    BodySame(s, st.slabs[s], st'.slabs[s], w.free[s], [], Null);
    PendSame(st, st', s, st.slabs[s], st'.slabs[s]);
    NodeAdd(st, w, st', s, w.free[s], []);
    var c := Fresh(st.cpus.Keys);
    PutInv(k, st, w, st', s, OnNode, w.free[s], [], c, t);
    w' := Put(w, s, OnNode, w.free[s], []);
  }

  // ---- __put_partials and discarding ----

  lemma PreservePutOne(k: Cache, st: State, w: Witness, st': State, t: TaskId) returns (w': Witness)
    requires Inv(k, st, w) && StepPutOne(k, st, st', t)
    ensures Inv(k, st', w')
  {
    hide Inv, BodyInv, NodeInv, PendInv, CpuInv, NodeKeeps;
    var chain, discards := st.tasks[t].chain, st.tasks[t].discards;
    var s := chain[0];
    TaskOf(k, st, w, t);
    var l, l' := Held(st.tasks[t]), Held(st'.tasks[t]);
    assert l[0] == s;
    SlabOf(k, st, w, s);
    NodeOf(k, st, w);
    if st.slabs[s].inuse == 0 && st.nrPartial >= k.minPartial {
      PutAside(k, st, w, st', t);
      w' := Put(w, s, InTransit(t), w.free[s], []);
    } else {
      assert l' == l[1..];
      BodySame(s, st.slabs[s], st'.slabs[s], w.free[s], [], Null);
      PendSame(st, st', s, st.slabs[s], st'.slabs[s]);
      NodeAdd(st, w, st', s, w.free[s], []);
      var c := Fresh(st.cpus.Keys);
      PutInv(k, st, w, st', s, OnNode, w.free[s], [], c, t);
      w' := Put(w, s, OnNode, w.free[s], []);
    }
  }

  /** An empty slab of the chain is set aside for discarding. */
  lemma PutAside(k: Cache, st: State, w: Witness, st': State, t: TaskId)
    requires Inv(k, st, w) && t in st.tasks && st.tasks[t].PutPartials? && st.tasks[t].chain != []
    requires st.tasks[t].chain[0] in st.slabs && st.slabs[st.tasks[t].chain[0]].inuse == 0
    requires st' == st.(tasks := st.tasks[t :=
      PutPartials(st.tasks[t].chain[1..], [st.tasks[t].chain[0]] + st.tasks[t].discards)])
    requires st.tasks[t].chain[0] in w.free
    ensures Inv(k, st', Put(w, st.tasks[t].chain[0], InTransit(t), w.free[st.tasks[t].chain[0]], []))
  {
    hide Inv, BodyInv, NodeInv, PendInv, CpuInv, NoDup;
    var s := st.tasks[t].chain[0];
    TaskOf(k, st, w, t);
    var l, l' := Held(st.tasks[t]), Held(st'.tasks[t]);
    assert l[0] == s && l == [s] + l[1..];
    SlabOf(k, st, w, s);
    NodeOf(k, st, w);
    NodeSame(st, w, st', s, InTransit(t), w.free[s], []);
    PendSame(st, st', s, st.slabs[s], st'.slabs[s]);
    var chain, discards := st.tasks[t].chain, st.tasks[t].discards;
    HeldAside(chain, discards);
    assert forall i :: 0 <= i < |l'| ==> l'[i] in l' && l'[i] in l;
    assert s in l && s in l';
    var c := Fresh(st.cpus.Keys);
    PutInv(k, st, w, st', s, InTransit(t), w.free[s], [], c, t);
  }

  lemma HeldAside(chain: seq<SlabId>, discards: seq<SlabId>)
    requires chain != [] && NoDup(chain + discards)
    ensures NoDup(chain[1..] + ([chain[0]] + discards))
    ensures forall x :: x in chain + discards <==> x in chain[1..] + ([chain[0]] + discards)
    ensures forall x :: x in [chain[0]] + discards && x != chain[0] ==> x in discards
  {
    var l, l' := chain + discards, chain[1..] + ([chain[0]] + discards);
    var n := |chain| - 1;
    forall i | 0 <= i < |l'| ensures l'[i] == l[if i < n then i + 1 else if i == n then 0 else i] {
    }
    forall x | x in l ensures x in l' {
      var i :| 0 <= i < |l| && l[i] == x;
      assert l'[if i == 0 then n else if i <= n then i - 1 else i] == l[i];
    }
  }

  lemma PreservePutDone(k: Cache, st: State, w: Witness, st': State, t: TaskId) returns (w': Witness)
    requires Inv(k, st, w) && StepPutDone(st, st', t)
    ensures Inv(k, st', w')
  {
    hide Inv;
    TaskOf(k, st, w, t);
    assert [] + st.tasks[t].discards == st.tasks[t].discards;
    TaskStepInv(k, st, w, st', t);
    w' := w;
  }

  lemma PreserveDiscardDone(k: Cache, st: State, w: Witness, st': State, t: TaskId) returns (w': Witness)
    requires Inv(k, st, w) && StepDiscardDone(st, st', t)
    ensures Inv(k, st', w')
  {
    hide Inv;
    TaskStepInv(k, st, w, st', t);
    w' := w;
  }

  function Drop(w: Witness, s: SlabId): Witness
  {
    Witness(w.place - {s}, w.free - {s}, w.det - {s})
  }

  /** Only a slab without a live object is discarded, and it was there to discard. */
  lemma PreserveDiscardOne(k: Cache, st: State, w: Witness, st': State, t: TaskId) returns (w': Witness)
    requires Inv(k, st, w) && StepDiscardOne(st, st', t)
    ensures Inv(k, st', w')
    ensures var s := st.tasks[t].discards[0];
      s in st.slabs && st.slabs[s].live == {} && st.slabs[s].pend == map[] && st.slabs[s].inuse == 0
  {
    hide Inv, BodyInv, NodeInv, PendInv, CpuInv, SlabInv, TaskInv, TaskKeeps, Only, OnlyWitness;
    var s := st.tasks[t].discards[0];
    TaskOf(k, st, w, t);
    DiscardTask(k, st, w, st', t);
    SlabOf(k, st, w, s);
    NodeOf(k, st, w);
    BodyEmpty(s, st.slabs[s], w.free[s], w.det[s], Null);
    w' := Drop(w, s);
    NodeDrop(st, w, st', s);
    var c := Fresh(st.cpus.Keys);
    DropOnly(st, w, st', s, c, t);
    Frame(k, st, w, st', w', s, c, t);
  }

  lemma DropOnly(st: State, w: Witness, st': State, s: SlabId, c: Cpu, t: TaskId)
    requires w.place.Keys == st.slabs.Keys && w.free.Keys == st.slabs.Keys && w.det.Keys == st.slabs.Keys
    requires st'.slabs == st.slabs - {s} && st'.cpus == st.cpus && Same(st.tasks, st'.tasks, t)
    ensures Only(st, st', s, c, t) && OnlyWitness(st, w, st', Drop(w, s), s)
  {
  }

  lemma DiscardTask(k: Cache, st: State, w: Witness, st': State, t: TaskId)
    requires TaskInv(k, st, w, t) && StepDiscardOne(st, st', t)
    ensures var s := st.tasks[t].discards[0];
      At(w, s, InTransit(t)) && TaskKeeps(st, st', t, s) && TaskInv(k, st', Drop(w, s), t)
  {
    var l, l' := Held(st.tasks[t]), Held(st'.tasks[t]);
    assert l[0] == st.tasks[t].discards[0] && l' == l[1..];
    forall x | x in l && x != l[0] ensures x in l' {
      var i :| 0 <= i < |l| && l[i] == x;
      assert l'[i - 1] == x;
    }
  }

  lemma NodeDrop(st: State, w: Witness, st': State, s: SlabId)
    requires NodeInv(st, w) && s in w.place && !w.place[s].OnNode? && st'.node == st.node && st'.nrPartial == st.nrPartial
    ensures NodeInv(st', Drop(w, s))
  {
  }

  // ---- getting a slab ----

  lemma PreserveWalkFirst(k: Cache, st: State, w: Witness, st': State, t: TaskId) returns (w': Witness)
    requires Inv(k, st, w) && StepWalkFirst(st, st', t)
    ensures Inv(k, st', w')
  {
    hide Inv, NodeInv, TaskInv;
    RemoveFirst(st.node);
    w' := PreserveFromNode(k, st, w, st', t, st.node[0], Walk(st.node[0], 0));
  }

  /** A slab is taken off the node list by activation `t`. */
  lemma PreserveFromNode(k: Cache, st: State, w: Witness, st': State, t: TaskId, s: SlabId, task: Task) returns (w': Witness)
    requires Inv(k, st, w) && t !in st.tasks && s in st.node && s in st.slabs
    requires task == Walk(s, 0) || (task == Discard([s]) && st.slabs[s].inuse == 0)
    requires st' == st.(
      slabs := st.slabs[s := st.slabs[s].(partial := false)], node := Remove(st.node, s), nrPartial := st.nrPartial - 1,
      tasks := st.tasks[t := task])
    ensures Inv(k, st', w')
  {
    hide Inv, BodyInv, NodeInv, PendInv, CpuInv, NodeKeeps, Remove;
    NodeOf(k, st, w);
    OnNodeOf(st, w, s);
    SlabOf(k, st, w, s);
    BodySame(s, st.slabs[s], st'.slabs[s], w.free[s], [], Null);
    PendSame(st, st', s, st.slabs[s], st'.slabs[s]);
    NodeTake(st, w, st', s, InTransit(t), w.free[s], []);
    var c := Fresh(st.cpus.Keys);
    assert Held(task)[0] == s;
    PutInv(k, st, w, st', s, InTransit(t), w.free[s], [], c, t);
    w' := Put(w, s, InTransit(t), w.free[s], []);
  }

  lemma OnNodeOf(st: State, w: Witness, s: SlabId)
    requires NodeInv(st, w) && s in st.node
    ensures At(w, s, OnNode)
  {
  }

  lemma PreserveWalkMore(k: Cache, st: State, w: Witness, st': State, t: TaskId, c: Cpu) returns (w': Witness)
    requires Inv(k, st, w) && StepWalkMore(k, st, st', t, c)
    ensures Inv(k, st', w')
  {
    hide Inv, BodyInv, NodeInv, PendInv, NodeKeeps, Remove, CpuInv, TaskInv, TaskKeeps;
    var s := st.node[0];
    RemoveFirst(st.node);
    CpuOf(k, st, w, c);
    TaskOf(k, st, w, t);
    NodeOf(k, st, w);
    OnNodeOf(st, w, s);
    SlabOf(k, st, w, s);
    BodySame(s, st.slabs[s], st'.slabs[s], w.free[s], [], Null);
    PendSame(st, st', s, st.slabs[s], st'.slabs[s]);
    NodeTake(st, w, st', s, OnCpuPartial(c), w.free[s], w.det[s]);
    WalkTask(k, st, w, st', t, s, OnCpuPartial(c), w.free[s], w.det[s]);
    PutFrontCpu(k, st, w, st', s, c, t);
    assert s in st'.cpus[c].partial by { assert st'.cpus[c].partial[0] == s; }
    PutInv(k, st, w, st', s, OnCpuPartial(c), w.free[s], w.det[s], c, t);
    w' := Put(w, s, OnCpuPartial(c), w.free[s], w.det[s]);
  }

  lemma WalkTask(k: Cache, st: State, w: Witness, st': State, t: TaskId, s: SlabId, p: Place, f: seq<nat>, d: seq<nat>)
    requires TaskInv(k, st, w, t) && st.tasks[t].Walk? && At(w, s, OnNode)
    requires t in st'.tasks && st'.tasks[t].Walk? && st'.tasks[t].slab == st.tasks[t].slab
    ensures TaskKeeps(st, st', t, s) && TaskInv(k, st', Put(w, s, p, f, d), t)
  {
    assert Held(st.tasks[t])[0] == st.tasks[t].slab;
  }

  lemma PreserveWalkDone(k: Cache, st: State, w: Witness, st': State, t: TaskId) returns (w': Witness)
    requires Inv(k, st, w) && StepWalkDone(k, st, st', t)
    ensures Inv(k, st', w')
  {
    hide Inv;
    TaskOf(k, st, w, t);
    TaskStepInv(k, st, w, st', t);
    w' := w;
  }

  /** The VM_BUG_ON of freeze_slab does not fire, and the frozen slab had a free object. */
  lemma PreserveFreezeSlab(k: Cache, st: State, w: Witness, st': State, t: TaskId) returns (w': Witness)
    requires Inv(k, st, w) && StepFreezeSlab(st, st', t)
    ensures Inv(k, st', w')
    ensures !st.slabs[st.tasks[t].slab].frozen && st.slabs[st.tasks[t].slab].freelist.Ref?
  {
    hide Inv, BodyInv, NodeInv, PendInv, CpuInv;
    var s := st.tasks[t].slab;
    TaskOf(k, st, w, t);
    assert Held(st.tasks[t])[0] == s;
    SlabOf(k, st, w, s);
    NodeOf(k, st, w);
    BodyTake(s, st.slabs[s], w.free[s], true);
    PendSame(st, st', s, st.slabs[s], st'.slabs[s]);
    NodeSame(st, w, st', s, InTransit(t), [], w.free[s]);
    var c := Fresh(st.cpus.Keys);
    PutInv(k, st, w, st', s, InTransit(t), [], w.free[s], c, t);
    w' := Put(w, s, InTransit(t), [], w.free[s]);
  }

  lemma PreserveNewSlab(k: Cache, st: State, w: Witness, st': State, t: TaskId, s: SlabId, order: seq<nat>) returns (w': Witness)
    requires Inv(k, st, w) && StepNewSlab(st, st', t, s, order)
    ensures Inv(k, st', w')
  {
    hide Inv, BodyInv, NodeInv, CpuInv, Link;
    NodeOf(k, st, w);
    BodyFresh(s, order);
    NodeSame(st, w, st', s, InTransit(t), [], order);
    var c := Fresh(st.cpus.Keys);
    PutInv(k, st, w, st', s, InTransit(t), [], order, c, t);
    w' := Put(w, s, InTransit(t), [], order);
  }

  // ---- shrinking ----

  lemma PreserveShrinkDiscard(k: Cache, st: State, w: Witness, st': State, t: TaskId, s: SlabId) returns (w': Witness)
    requires Inv(k, st, w) && StepShrinkDiscard(st, st', t, s)
    ensures Inv(k, st', w')
  {
    hide Inv, NodeInv, TaskInv;
    w' := PreserveFromNode(k, st, w, st', t, s, Discard([s]));
  }

  lemma PreserveShrinkReorder(k: Cache, st: State, w: Witness, st': State, order: seq<SlabId>) returns (w': Witness)
    requires Inv(k, st, w) && StepShrinkReorder(st, st', order)
    ensures Inv(k, st', w')
  {
    hide Inv, SlabInv, CpuInv, TaskInv;
    NodeOf(k, st, w);
    assert forall x :: x in order <==> x in multiset(order);
    assert forall x :: x in st.node <==> x in multiset(st.node);
    ReorderNoDup(st.node, order);
    assert |multiset(order)| == |order|;
    forall i | 0 <= i < |order| ensures At(w, order[i], OnNode) {
      assert order[i] in st.node;
    }
    var s := Fresh(st.slabs.Keys);
    var c := Fresh(st.cpus.Keys);
    var t := Fresh(st.tasks.Keys);
    Frame(k, st, w, st', w, s, c, t);
    w' := w;
  }

  lemma ReorderNoDup(l: seq<nat>, m: seq<nat>)
    requires NoDup(l) && multiset(m) == multiset(l)
    ensures NoDup(m) && |m| == |l|
  {
    assert |multiset(m)| == |multiset(l)|;
    forall i, j | 0 <= i < j < |m| ensures m[i] != m[j] {
      NoDupCount(l, m[i]);
      if m[i] == m[j] { TwiceCounted(m, i, j); }
    }
  }
}
