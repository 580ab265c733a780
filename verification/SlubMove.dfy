/** The steps that move a slab from one place to another keep the invariant. */
module SlubMove {
  import opened Freelist
  import opened SlubMachine
  import opened SlubInvariant
  import opened SlubFrame
  import opened SlubSlab
  import opened SlubCpu

  // ---- between cpus and activations ----

  lemma PreserveFlush(k: Cache, st: State, w: Witness, st': State, t: TaskId, c: Cpu) returns (w': Witness)
    requires Inv(k, st, w) && StepFlush(k, st, st', t, c)
    ensures Inv(k, st', w')
  {
    hide Inv, BodyInv, NodeInv, PendInv;
    CpuOf(k, st, w, c);
    TidAdvance(k, c, st.cpus[c].tid);
    if st.cpus[c].slab.None? {
      CpuStepInv(k, st, w, st', c);
      w' := w;
    } else {
      var s := st.cpus[c].slab.value;
      CpuSlabFacts(k, st, w, c, s);
      NodeOf(k, st, w);
      NodeSame(st, w, st', s, InTransit(t), w.free[s], w.det[s]);
      PendSame(st, st', s, st.slabs[s], st'.slabs[s]);
      PutInv(k, st, w, st', s, InTransit(t), w.free[s], w.det[s], c, t);
      w' := Put(w, s, InTransit(t), w.free[s], w.det[s]);
    }
  }

  lemma PreserveLoadSlab(k: Cache, st: State, w: Witness, st': State, t: TaskId, c: Cpu) returns (w': Witness)
    requires Inv(k, st, w) && StepLoadSlab(k, st, st', t, c)
    ensures Inv(k, st', w')
  {
    hide Inv, BodyInv, NodeInv, PendInv;
    var s := st.tasks[t].slab;
    CpuOf(k, st, w, c);
    TaskOf(k, st, w, t);
    assert Held(st.tasks[t])[0] == s;
    SlabOf(k, st, w, s);
    NodeOf(k, st, w);
    TidAdvance(k, c, st.cpus[c].tid);
    BodyNull(s, st.slabs[s], w.free[s], w.det[s], st.tasks[t].freelist);
    BodyPop(s, st.slabs[s], w.free[s], w.det[s], st.tasks[t].freelist);
    NodeSame(st, w, st', s, OnCpu(c), w.free[s], w.det[s][1..]);
    PendSame(st, st', s, st.slabs[s], st'.slabs[s]);
    PutInv(k, st, w, st', s, OnCpu(c), w.free[s], w.det[s][1..], c, t);
    w' := Put(w, s, OnCpu(c), w.free[s], w.det[s][1..]);
  }

  /** The first slab of a cpu partial chain goes to activation `t`. */
  predicate MoveHead(st: State, st': State, t: TaskId, c: Cpu)
  {
    && t in st.tasks && st.tasks[t].PutPartials? && st.tasks[t].discards == []
    && c in st.cpus && st.cpus[c].section.Open? && st.cpus[c].partial != []
    && st' == st.(
         cpus := st.cpus[c := st.cpus[c].(partial := st.cpus[c].partial[1..])],
         tasks := st.tasks[t := PutPartials(st.tasks[t].chain + [st.cpus[c].partial[0]], [])])
  }

  lemma PreserveMoveHead(k: Cache, st: State, w: Witness, st': State, t: TaskId, c: Cpu) returns (w': Witness)
    requires Inv(k, st, w) && MoveHead(st, st', t, c)
    ensures Inv(k, st', w')
  {
    hide Inv, BodyInv, NodeInv, PendInv, CpuInv, TaskInv, TaskKeeps, CpuKeeps;
    var s := st.cpus[c].partial[0];
    CpuOf(k, st, w, c);
    TaskOf(k, st, w, t);
    MoveHeadCpu(k, st, w, st', t, c);
    SlabOf(k, st, w, s);
    MoveHeadTask(k, st, w, st', t, c);
    NodeOf(k, st, w);
    NodeSame(st, w, st', s, InTransit(t), w.free[s], w.det[s]);
    PendSame(st, st', s, st.slabs[s], st'.slabs[s]);
    PutInv(k, st, w, st', s, InTransit(t), w.free[s], w.det[s], c, t);
    w' := Put(w, s, InTransit(t), w.free[s], w.det[s]);
  }

  lemma MoveHeadCpu(k: Cache, st: State, w: Witness, st': State, t: TaskId, c: Cpu)
    requires CpuInv(k, st, w, c) && MoveHead(st, st', t, c)
    ensures var s := st.cpus[c].partial[0];
      && At(w, s, OnCpuPartial(c)) && CpuKeeps(st.cpus[c], st'.cpus[c], s)
      && forall f, d :: CpuInv(k, st', Put(w, s, InTransit(t), f, d), c)
  {
    hide TaskInv, BodyInv;
    var s := st.cpus[c].partial[0];
    forall x | x in st.cpus[c].partial && x != s ensures x in st'.cpus[c].partial {
      var i :| 0 <= i < |st.cpus[c].partial| && st.cpus[c].partial[i] == x;
      assert st'.cpus[c].partial[i - 1] == x;
    }
  }

  lemma MoveHeadTask(k: Cache, st: State, w: Witness, st': State, t: TaskId, c: Cpu)
    requires TaskInv(k, st, w, t) && MoveHead(st, st', t, c) && At(w, st.cpus[c].partial[0], OnCpuPartial(c))
    ensures var s := st.cpus[c].partial[0];
      && s in Held(st'.tasks[t]) && TaskKeeps(st, st', t, s)
      && forall f, d :: TaskInv(k, st', Put(w, s, InTransit(t), f, d), t)
  {
    var s := st.cpus[c].partial[0];
    var l, l' := Held(st.tasks[t]), Held(st'.tasks[t]);
    assert l' == l + [s];
    assert l'[|l|] == s;
    forall i | 0 <= i < |l| ensures l'[i] == l[i] && l[i] != s { }
  }

  /** The whole chain, one slab after the other. */
  lemma PreserveMoveAll(k: Cache, st: State, w: Witness, st': State, t: TaskId, c: Cpu) returns (w': Witness)
    requires Inv(k, st, w) && c in st.cpus && st.cpus[c].section.Open?
    requires t in st.tasks && st.tasks[t].PutPartials? && st.tasks[t].discards == []
    requires st' == st.(
      cpus := st.cpus[c := st.cpus[c].(partial := [])],
      tasks := st.tasks[t := PutPartials(st.tasks[t].chain + st.cpus[c].partial, [])])
    ensures Inv(k, st', w')
    decreases |st.cpus[c].partial|
  {
    hide Inv;
    var chain := st.cpus[c].partial;
    if chain == [] {
      assert st.tasks[t].chain + chain == st.tasks[t].chain;
      assert st' == st;
      w' := w;
    } else {
      var mid := st.(
        cpus := st.cpus[c := st.cpus[c].(partial := chain[1..])],
        tasks := st.tasks[t := PutPartials(st.tasks[t].chain + [chain[0]], [])]);
      var w1 := PreserveMoveHead(k, st, w, mid, t, c);
      assert mid.tasks[t].chain + chain[1..] == st.tasks[t].chain + chain;
      assert st'.cpus == mid.cpus[c := mid.cpus[c].(partial := [])];
      assert st'.tasks == mid.tasks[t := PutPartials(mid.tasks[t].chain + chain[1..], [])];
      w' := PreserveMoveAll(k, mid, w1, st', t, c);
    }
  }

  lemma PreserveTakePartials(k: Cache, st: State, w: Witness, st': State, t: TaskId, c: Cpu) returns (w': Witness)
    requires Inv(k, st, w) && StepTakePartials(st, st', t, c)
    ensures Inv(k, st', w')
  {
    hide Inv, NodeInv;
    var mid := st.(tasks := st.tasks[t := PutPartials([], [])]);
    TaskStepInv(k, st, w, mid, t);
    assert [] + st.cpus[c].partial == st.cpus[c].partial;
    assert st'.tasks == mid.tasks[t := PutPartials(st.cpus[c].partial, [])];
    w' := PreserveMoveAll(k, mid, w, st', t, c);
  }

  /** put_cpu_partial without draining. */
  lemma PreservePutFront(k: Cache, st: State, w: Witness, st': State, t: TaskId, c: Cpu) returns (w': Witness)
    requires Inv(k, st, w) && t in st.tasks && st.tasks[t].PutCpuPartial? && st.tasks[t].slab in st.slabs
    requires c in st.cpus && st.cpus[c].section.Open?
    requires st' == st.(
      slabs := st.slabs[st.tasks[t].slab := st.slabs[st.tasks[t].slab].(slabs := ChainCount(st.slabs, st.cpus[c].partial))],
      cpus := st.cpus[c := st.cpus[c].(partial := [st.tasks[t].slab] + st.cpus[c].partial)],
      tasks := st.tasks - {t})
    ensures Inv(k, st', w')
  {
    hide Inv, BodyInv, NodeInv, PendInv;
    var s := st.tasks[t].slab;
    CpuOf(k, st, w, c);
    TaskOf(k, st, w, t);
    assert Held(st.tasks[t])[0] == s;
    SlabOf(k, st, w, s);
    NodeOf(k, st, w);
    BodySame(s, st.slabs[s], st'.slabs[s], w.free[s], w.det[s], Null);
    NodeSame(st, w, st', s, OnCpuPartial(c), w.free[s], w.det[s]);
    PendSame(st, st', s, st.slabs[s], st'.slabs[s]);
    PutFrontCpu(k, st, w, st', s, c, t);
    assert s in st'.cpus[c].partial by { assert st'.cpus[c].partial[0] == s; }
    hide CpuInv;
    PutInv(k, st, w, st', s, OnCpuPartial(c), w.free[s], w.det[s], c, t);
    w' := Put(w, s, OnCpuPartial(c), w.free[s], w.det[s]);
  }

  lemma PutFrontCpu(k: Cache, st: State, w: Witness, st': State, s: SlabId, c: Cpu, t: TaskId)
    requires CpuInv(k, st, w, c) && s in st.slabs && s in st'.slabs && s in w.free && s in w.det && c in st'.cpus
    requires s in w.place && (w.place[s] == InTransit(t) || w.place[s] == OnNode)
    requires st'.cpus[c] == st.cpus[c].(partial := [s] + st.cpus[c].partial)
    requires st'.slabs == st.slabs[s := st'.slabs[s]] && st'.slabs[s].slabs == ChainCount(st.slabs, st.cpus[c].partial)
    ensures CpuInv(k, st', Put(w, s, OnCpuPartial(c), w.free[s], w.det[s]), c)
  {
    var w' := Put(w, s, OnCpuPartial(c), w.free[s], w.det[s]);
    var chain, chain' := st.cpus[c].partial, st'.cpus[c].partial;
    forall i | 0 <= i < |chain'|
      ensures At(w', chain'[i], OnCpuPartial(c)) && chain'[i] in st'.slabs && st'.slabs[chain'[i]].slabs == |chain'| - i
      ensures i > 0 ==> chain'[i] != s
    {
      if i > 0 { assert chain'[i] == chain[i - 1]; }
    }
  }

  lemma PreservePutOnCpu(k: Cache, st: State, w: Witness, st': State, t: TaskId, c: Cpu, u: TaskId) returns (w': Witness)
    requires Inv(k, st, w) && StepPutOnCpu(k, st, st', t, c, u)
    ensures Inv(k, st', w')
  {
    hide Inv, NodeInv, CpuInv, TaskInv;
    var s, chain := st.tasks[t].slab, st.cpus[c].partial;
    if chain != [] && chain[0] in st.slabs && st.slabs[chain[0]].slabs >= k.cpuPartialSlabs {
      var mid := st.(
        cpus := st.cpus[c := st.cpus[c].(partial := [])],
        tasks := st.tasks[u := PutPartials(chain, [])]);
      var w1 := PreserveTakePartials(k, st, w, mid, u, c);
      assert [s] + [] == [s];
      assert st'.cpus == mid.cpus[c := mid.cpus[c].(partial := [s])];
      assert st'.tasks == mid.tasks - {t};
      w' := PreservePutFront(k, mid, w1, st', t, c);
    } else {
      w' := PreservePutFront(k, st, w, st', t, c);
    }
  }
}
