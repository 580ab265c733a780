/** No guard of the slab machine hides a case that the code would meet: what the steps ask of an activation or of a cpu
    always holds, so each can go on.  In particular no activation ever works on a slab that is gone. */
module SlubProgress {
  import opened Freelist
  import opened SlubMachine
  import opened SlubInvariant
  import opened SlubFrame
  import opened SlubSlab
  import opened SlubCpu
  import opened SlubTheorems

  /** The slab exists and has such an object. */
  predicate Names(st: State, s: SlabId, x: nat)
  {
    s in st.slabs && x < |st.slabs[s].mem|
  }

  predicate Exist(st: State, l: seq<SlabId>)
  {
    forall i :: 0 <= i < |l| ==> l[i] in st.slabs
  }

  /** What the steps of activation `t` ask of it. */
  ghost predicate Sound(st: State, t: TaskId)
    requires t in st.tasks
  {
    match st.tasks[t]
    case Deactivate(s, fl) => s in st.slabs && exists walked :: Chain(s, st.slabs[s].mem, fl, walked)
    case Ready(s, fl) => fl.Ref? && fl.slab == s && Names(st, s, fl.idx)
    case Alloc(c, _, obj, cpuSlab, next) =>
      && c in st.cpus && (cpuSlab.Some? ==> obj.Some?)
      && (next.Some? ==> cpuSlab.Some? && cpuSlab.value.Some? && obj.value.Ref?)
    case Free(s, objs, phase) =>
      && objs != [] && (forall i :: 0 <= i < |objs| ==> Names(st, s, objs[i]))
      && (phase.TidRead? || phase.Matched? || phase.Spliced? ==> phase.cpu in st.cpus)
    case _ => Exist(st, Held(st.tasks[t]))
  }

  /** In every state of every run, the slabs an activation works on exist, the objects it frees or loads are objects of
      them, the list it has to walk ends, and the cpus it remembers exist. */
  lemma GuardsHold(k: Cache, states: seq<State>, events: seq<Label>, i: nat, t: TaskId)
    requires Run(k, states, events) && i < |states| && t in states[i].tasks
    ensures Sound(states[i], t)
  {
    hide Run, Inv, Sound;
    var w := RunInv(k, states, events, i);
    match states[i].tasks[t]
    case Deactivate(_, _) => DeactivateSound(k, states[i], w, t);
    case Ready(_, _) => ReadySound(k, states[i], w, t);
    case Alloc(_, _, _, _, _) => AllocSound(k, states[i], w, t);
    case Free(_, _, _) => FreeSound(k, states[i], w, t);
    case _ => HeldSound(k, states[i], w, t);
  }

  lemma HeldExist(k: Cache, st: State, w: Witness, t: TaskId)
    requires Inv(k, st, w) && t in st.tasks
    ensures Exist(st, Held(st.tasks[t]))
  {
    hide Inv;
    TaskOf(k, st, w, t);
    NodeOf(k, st, w);
    var l := Held(st.tasks[t]);
    forall i | 0 <= i < |l| ensures l[i] in st.slabs { assert At(w, l[i], InTransit(t)); }
  }

  lemma HeldSound(k: Cache, st: State, w: Witness, t: TaskId)
    requires Inv(k, st, w) && t in st.tasks
    requires !st.tasks[t].Deactivate? && !st.tasks[t].Ready? && !st.tasks[t].Alloc? && !st.tasks[t].Free?
    ensures Sound(st, t)
  {
    hide Inv;
    HeldExist(k, st, w, t);
  }

  lemma DeactivateSound(k: Cache, st: State, w: Witness, t: TaskId)
    requires Inv(k, st, w) && t in st.tasks && st.tasks[t].Deactivate?
    ensures Sound(st, t)
  {
    hide Inv;
    var s := st.tasks[t].slab;
    TaskOf(k, st, w, t);
    assert Held(st.tasks[t])[0] == s;
    SlabOf(k, st, w, s);
    assert Chain(s, st.slabs[s].mem, st.tasks[t].freelist, w.det[s]);
  }

  lemma ReadySound(k: Cache, st: State, w: Witness, t: TaskId)
    requires Inv(k, st, w) && t in st.tasks && st.tasks[t].Ready?
    ensures Sound(st, t)
  {
    hide Inv, BodyInv;
    var s := st.tasks[t].slab;
    TaskOf(k, st, w, t);
    assert Held(st.tasks[t])[0] == s;
    SlabOf(k, st, w, s);
    BodyNull(s, st.slabs[s], w.free[s], w.det[s], st.tasks[t].freelist);
    BodyPop(s, st.slabs[s], w.free[s], w.det[s], st.tasks[t].freelist);
  }

  lemma AllocSound(k: Cache, st: State, w: Witness, t: TaskId)
    requires Inv(k, st, w) && t in st.tasks && st.tasks[t].Alloc?
    ensures Sound(st, t)
  {
    hide Inv;
    TaskOf(k, st, w, t);
  }

  lemma FreeSound(k: Cache, st: State, w: Witness, t: TaskId)
    requires Inv(k, st, w) && t in st.tasks && st.tasks[t].Free?
    ensures Sound(st, t)
  {
    hide Inv;
    TaskOf(k, st, w, t);
  }

  /** The step is one of activation `t`. */
  predicate By(ev: Label, t: TaskId)
  {
    match ev
    case AllocReadObject(u) => u == t
    case AllocReadSlab(u) => u == t
    case AllocSlow(u) => u == t
    case AllocReadNext(u, _) => u == t
    case AllocExchange(u, _) => u == t
    case LoadSlab(u, _) => u == t
    case PutOnCpu(u, _, _) => u == t
    case Unfreeze(u, _) => u == t
    case Decide(u) => u == t
    case AddToNode(u, _) => u == t
    case PutOne(u) => u == t
    case PutDone(u) => u == t
    case DiscardOne(u) => u == t
    case DiscardDone(u) => u == t
    case WalkMore(u, _) => u == t
    case WalkDone(u) => u == t
    case FreezeSlab(u) => u == t
    case FreeReadTid(u, _) => u == t
    case FreeCheckSlab(u) => u == t
    case FreeSplice(u) => u == t
    case FreeExchange(u, _) => u == t
    case SlowSplice(u) => u == t
    case SlowExchange(u) => u == t
    case _ => false
  }

  /** Given a cpu `c` to run on that is outside its sections, and has no slab if one is to be loaded, every activation
      has a next step of its own, which moves it on. */
  lemma ActivationsGoOn(k: Cache, states: seq<State>, events: seq<Label>, i: nat, t: TaskId, c: Cpu) returns (ev: Label, st': State)
    requires Run(k, states, events) && i < |states| && t in states[i].tasks
    requires c in states[i].cpus && states[i].cpus[c].section.Open? && (states[i].tasks[t].Ready? ==> states[i].cpus[c].slab.None?)
    ensures Step(k, states[i], st', ev) && By(ev, t) && (t !in st'.tasks || st'.tasks[t] != states[i].tasks[t])
  {
    hide Run, Sound, Step;
    GuardsHold(k, states, events, i, t);
    AssertionsHold(k, states, events, i);
    match states[i].tasks[t]
    case Alloc(_, _, _, _, _) => ev, st' := AllocGoesOn(k, states[i], t, c);
    case Free(_, _, _) => ev, st' := FreeGoesOn(k, states[i], t, c);
    case Walk(_, _) => ev, st' := WalkGoesOn(k, states[i], t, c);
    case PutCpuPartial(_) => ev, st' := PutGoesOn(k, states[i], t, c);
    case Ready(_, _) => ev, st' := LoadGoesOn(k, states[i], t, c);
    case Deactivate(_, _) => ev, st' := DeactivateGoesOn(k, states[i], t);
    case _ => ev, st' := ListsGoOn(k, states[i], t);
  }

  lemma AllocGoesOn(k: Cache, st: State, t: TaskId, c: Cpu) returns (ev: Label, st': State)
    requires t in st.tasks && st.tasks[t].Alloc? && Sound(st, t) && c in st.cpus && st.cpus[c].section.Open?
    ensures Step(k, st, st', ev) && By(ev, t) && (t !in st'.tasks || st'.tasks[t] != st.tasks[t])
  {
    hide MovePath, NodePath, FreePath;
    var a := st.tasks[t];
    if a.obj.None? {
      ev, st' := AllocReadObject(t), st.(tasks := st.tasks[t := a.(obj := Some(st.cpus[a.cpu].freelist))]);
    } else if a.cpuSlab.None? {
      ev, st' := AllocReadSlab(t), st.(tasks := st.tasks[t := a.(cpuSlab := Some(st.cpus[a.cpu].slab))]);
    } else if a.obj.value.Null? || a.cpuSlab.value.None? {
      ev, st' := AllocSlow(t), st.(tasks := st.tasks - {t});
    } else if a.next.None? {
      var o := a.obj.value;
      var v := if Names(st, o.slab, o.idx) then Next(st.slabs, o) else Null;
      ev, st' := AllocReadNext(t, Null), st.(tasks := st.tasks[t := a.(next := Some(v))]);
    } else {
      ev := AllocExchange(t, c);
      if AllocExchangeHits(st, t, c) {
        st' := st.(
          cpus := st.cpus[c := st.cpus[c].(freelist := a.next.value, tid := st.cpus[c].tid + k.tidStep)],
          slabs := HandOut(st.slabs, a.obj.value), tasks := st.tasks - {t});
      } else {
        st' := st.(tasks := st.tasks - {t});
      }
    }
    assert CpuPath(k, st, st', ev);
  }

  lemma FreeGoesOn(k: Cache, st: State, t: TaskId, c: Cpu) returns (ev: Label, st': State)
    requires t in st.tasks && st.tasks[t].Free? && Sound(st, t) && c in st.cpus && st.cpus[c].section.Open?
    ensures Step(k, st, st', ev) && By(ev, t) && (t !in st'.tasks || st'.tasks[t] != st.tasks[t])
  {
    hide CpuPath, MovePath, NodePath, FreePath;
    var a, s, objs := st.tasks[t], st.tasks[t].slab, st.tasks[t].objs;
    assert Names(st, s, objs[0]) && Names(st, s, Last(objs));
    var b := st.slabs[s];
    match a.phase
    case Start =>
      ev, st' := FreeReadTid(t, c), st.(tasks := st.tasks[t := a.(phase := TidRead(c, st.cpus[c].tid))]);
      FreeReadTidStep(k, st, st', t, c);
    case TidRead(d, tid) =>
      ev := FreeCheckSlab(t);
      st' := st.(tasks := st.tasks[t := a.(phase := if st.cpus[d].slab == Some(s) then Matched(d, tid) else Slow)]);
      FreeCheckStep(k, st, st', t);
    case Matched(d, tid) =>
      var h := st.cpus[d].freelist;
      ev := FreeSplice(t);
      st' := st.(slabs := st.slabs[s := b.(mem := b.mem[Last(objs) := h])],
                 tasks := st.tasks[t := a.(phase := Spliced(d, tid, h))]);
      FreeSpliceStep(k, st, st', t);
    case Spliced(_, _, _) =>
      ev := FreeExchange(t, c);
      if FreeExchangeHits(st, t, c) {
        st' := st.(
          cpus := st.cpus[c := st.cpus[c].(freelist := Ref(s, objs[0]), tid := st.cpus[c].tid + k.tidStep)],
          slabs := st.slabs[s := b.(pend := Without(b.pend, objs))], tasks := st.tasks - {t});
      } else {
        st' := st.(tasks := st.tasks[t := a.(phase := Start)]);
      }
      FreeExchangeStep(k, st, st', t, c);
    case Slow =>
      ev := SlowSplice(t);
      st' := st.(slabs := st.slabs[s := b.(mem := b.mem[Last(objs) := b.freelist])],
                 tasks := st.tasks[t := a.(phase := SlowSpliced(b.freelist, b.inuse, b.frozen))]);
      SlowSpliceStep(k, st, st', t);
    case SlowSpliced(_, _, _) =>
      ev := SlowExchange(t);
      st' := SlowResult(k, st, t);
      SlowResultStep(k, st, t);
  }

  lemma FreeReadTidStep(k: Cache, st: State, st': State, t: TaskId, c: Cpu)
    requires StepFreeReadTid(st, st', t, c)
    ensures Step(k, st, st', FreeReadTid(t, c))
  {
  }

  lemma FreeCheckStep(k: Cache, st: State, st': State, t: TaskId)
    requires StepFreeCheckSlab(st, st', t)
    ensures Step(k, st, st', FreeCheckSlab(t))
  {
  }

  lemma FreeSpliceStep(k: Cache, st: State, st': State, t: TaskId)
    requires StepFreeSplice(st, st', t)
    ensures Step(k, st, st', FreeSplice(t))
  {
  }

  lemma FreeExchangeStep(k: Cache, st: State, st': State, t: TaskId, c: Cpu)
    requires StepFreeExchange(k, st, st', t, c)
    ensures Step(k, st, st', FreeExchange(t, c))
  {
  }

  lemma SlowSpliceStep(k: Cache, st: State, st': State, t: TaskId)
    requires StepSlowSplice(st, st', t)
    ensures Step(k, st, st', SlowSplice(t))
  {
  }

  function SlowResult(k: Cache, st: State, t: TaskId): State
    requires t in st.tasks && st.tasks[t].Free? && st.tasks[t].phase.SlowSpliced? && st.tasks[t].slab in st.slabs && st.tasks[t].objs != []
  {
    var s := st.tasks[t].slab;
    var b, ph := st.slabs[s], st.tasks[t].phase;
    var b' := Pushed(b, s, st.tasks[t].objs);
    if !(b.freelist == ph.prior && b.inuse == ph.inuse && b.frozen == ph.frozen) then
      st.(tasks := st.tasks[t := st.tasks[t].(phase := Slow)])
    else if !b.frozen && b.freelist.Null? then
      st.(slabs := st.slabs[s := b'], tasks := st.tasks[t := PutCpuPartial(s)])
    else if !b.frozen && b'.inuse == 0 && b.partial && st.nrPartial >= k.minPartial then
      st.(slabs := st.slabs[s := b'.(partial := false)], node := Remove(st.node, s), nrPartial := st.nrPartial - 1,
          tasks := st.tasks[t := Discard([s])])
    else
      st.(slabs := st.slabs[s := b'], tasks := st.tasks - {t})
  }

  lemma SlowResultStep(k: Cache, st: State, t: TaskId)
    requires t in st.tasks && st.tasks[t].Free? && st.tasks[t].phase.SlowSpliced? && st.tasks[t].slab in st.slabs && st.tasks[t].objs != []
    ensures var st' := SlowResult(k, st, t);
      Step(k, st, st', SlowExchange(t)) && (t !in st'.tasks || st'.tasks[t] != st.tasks[t])
  {
    hide CpuPath, MovePath, NodePath;
    assert FreePath(k, st, SlowResult(k, st, t), SlowExchange(t));
  }

  lemma WalkGoesOn(k: Cache, st: State, t: TaskId, c: Cpu) returns (ev: Label, st': State)
    requires t in st.tasks && st.tasks[t].Walk? && NoBug(st) && c in st.cpus && st.cpus[c].section.Open?
    ensures Step(k, st, st', ev) && By(ev, t) && (t !in st'.tasks || st'.tasks[t] != st.tasks[t])
  {
    hide CpuPath, MovePath, FreePath;
    var a := st.tasks[t];
    if st.node == [] || k.cpuPartialSlabs == 0 || a.moved > k.cpuPartialSlabs / 2 {
      ev, st' := WalkDone(t), st.(tasks := st.tasks[t := Freeze(a.slab)]);
    } else {
      var s, chain := st.node[0], st.cpus[c].partial;
      assert s in st.node;
      ev := WalkMore(t, c);
      st' := st.(
        slabs := st.slabs[s := st.slabs[s].(partial := false, slabs := ChainCount(st.slabs, chain))],
        node := st.node[1..], nrPartial := st.nrPartial - 1,
        cpus := st.cpus[c := st.cpus[c].(partial := [s] + chain)],
        tasks := st.tasks[t := a.(moved := a.moved + 1)]);
    }
    assert NodePath(k, st, st', ev);
  }

  lemma PutGoesOn(k: Cache, st: State, t: TaskId, c: Cpu) returns (ev: Label, st': State)
    requires t in st.tasks && st.tasks[t].PutCpuPartial? && Sound(st, t) && c in st.cpus && st.cpus[c].section.Open?
    ensures Step(k, st, st', ev) && By(ev, t) && (t !in st'.tasks || st'.tasks[t] != st.tasks[t])
  {
    hide CpuPath, NodePath, FreePath;
    var s, chain := st.tasks[t].slab, st.cpus[c].partial;
    assert Held(st.tasks[t])[0] == s;
    var u := Fresh(st.tasks.Keys);
    ev := PutOnCpu(t, c, u);
    if chain != [] && chain[0] in st.slabs && st.slabs[chain[0]].slabs >= k.cpuPartialSlabs {
      st' := st.(
        slabs := st.slabs[s := st.slabs[s].(slabs := 1)], cpus := st.cpus[c := st.cpus[c].(partial := [s])],
        tasks := (st.tasks - {t})[u := PutPartials(chain, [])]);
    } else {
      st' := st.(
        slabs := st.slabs[s := st.slabs[s].(slabs := ChainCount(st.slabs, chain))],
        cpus := st.cpus[c := st.cpus[c].(partial := [s] + chain)], tasks := st.tasks - {t});
    }
    assert MovePath(k, st, st', ev);
  }

  lemma LoadGoesOn(k: Cache, st: State, t: TaskId, c: Cpu) returns (ev: Label, st': State)
    requires t in st.tasks && st.tasks[t].Ready? && c in st.cpus && st.cpus[c].section.Open? && st.cpus[c].slab.None?
    ensures Step(k, st, st', ev) && By(ev, t) && (t !in st'.tasks || st'.tasks[t] != st.tasks[t])
  {
    hide CpuPath, NodePath, FreePath;
    var fl := st.tasks[t].freelist;
    ev := LoadSlab(t, c);
    st' := st.(
      cpus := st.cpus[c := st.cpus[c].(
        slab := Some(st.tasks[t].slab), freelist := Next(st.slabs, fl), tid := st.cpus[c].tid + k.tidStep)],
      slabs := HandOut(st.slabs, fl), tasks := st.tasks - {t});
    assert MovePath(k, st, st', ev);
  }

  lemma DeactivateGoesOn(k: Cache, st: State, t: TaskId) returns (ev: Label, st': State)
    requires t in st.tasks && st.tasks[t].Deactivate? && Sound(st, t)
    ensures Step(k, st, st', ev) && By(ev, t) && (t !in st'.tasks || st'.tasks[t] != st.tasks[t])
  {
    hide CpuPath, NodePath, FreePath;
    var s, fl := st.tasks[t].slab, st.tasks[t].freelist;
    var b := st.slabs[s];
    var walked :| Chain(s, b.mem, fl, walked);
    var b' := if walked == [] then b.(frozen := false)
              else b.(frozen := false, inuse := b.inuse - |walked|, freelist := fl,
                      mem := if Last(walked) < |b.mem| then b.mem[Last(walked) := b.freelist] else b.mem);
    ev := Unfreeze(t, walked);
    st' := st.(slabs := st.slabs[s := b'],
               tasks := if b'.freelist.Null? then st.tasks - {t} else st.tasks[t := Unfrozen(s, b'.inuse)]);
    assert MovePath(k, st, st', ev);
  }

  lemma ListsGoOn(k: Cache, st: State, t: TaskId) returns (ev: Label, st': State)
    requires t in st.tasks && Sound(st, t)
    requires var a := st.tasks[t]; a.Unfrozen? || a.AddPartial? || a.PutPartials? || a.Discard? || a.Freeze?
    ensures Step(k, st, st', ev) && By(ev, t) && (t !in st'.tasks || st'.tasks[t] != st.tasks[t])
  {
    hide CpuPath, FreePath;
    match st.tasks[t]
    case Unfrozen(s, n) =>
      ev := Decide(t);
      st' := st.(tasks := st.tasks[t := if n == 0 && st.nrPartial >= k.minPartial then Discard([s]) else AddPartial(s)]);
      assert MovePath(k, st, st', ev);
    case AddPartial(s) =>
      assert Held(st.tasks[t])[0] == s;
      ev := AddToNode(t, true);
      st' := st.(slabs := st.slabs[s := st.slabs[s].(partial := true)], node := st.node + [s],
                 nrPartial := st.nrPartial + 1, tasks := st.tasks - {t});
      assert MovePath(k, st, st', ev);
    case PutPartials(chain, discards) =>
      ev, st' := PutPartialsGoesOn(k, st, t);
    case Discard(discards) =>
      if discards == [] {
        ev, st' := DiscardDone(t), st.(tasks := st.tasks - {t});
      } else {
        ev, st' := DiscardOne(t), st.(slabs := st.slabs - {discards[0]}, tasks := st.tasks[t := Discard(discards[1..])]);
      }
      assert NodePath(k, st, st', ev);
    case Freeze(s) =>
      assert Held(st.tasks[t])[0] == s;
      ev := FreezeSlab(t);
      st' := st.(slabs := st.slabs[s := TakeList(st.slabs[s], true)], tasks := st.tasks[t := Ready(s, st.slabs[s].freelist)]);
      assert NodePath(k, st, st', ev);
  }

  lemma PutPartialsGoesOn(k: Cache, st: State, t: TaskId) returns (ev: Label, st': State)
    requires t in st.tasks && st.tasks[t].PutPartials? && Sound(st, t)
    ensures Step(k, st, st', ev) && By(ev, t) && (t !in st'.tasks || st'.tasks[t] != st.tasks[t])
  {
    hide CpuPath, NodePath, FreePath;
    var chain, discards := st.tasks[t].chain, st.tasks[t].discards;
    if chain == [] {
      ev, st' := PutDone(t), st.(tasks := st.tasks[t := Discard(discards)]);
    } else {
      assert Held(st.tasks[t])[0] == chain[0];
      var s := chain[0];
      ev := PutOne(t);
      if st.slabs[s].inuse == 0 && st.nrPartial >= k.minPartial {
        st' := st.(tasks := st.tasks[t := PutPartials(chain[1..], [s] + discards)]);
      } else {
        st' := st.(slabs := st.slabs[s := st.slabs[s].(partial := true)], node := st.node + [s],
                   nrPartial := st.nrPartial + 1, tasks := st.tasks[t := PutPartials(chain[1..], discards)]);
      }
    }
    assert MovePath(k, st, st', ev);
  }

  /** A cpu inside a section can end it, and its slab exists unless it has just been given up. */
  lemma SectionsGoOn(k: Cache, states: seq<State>, events: seq<Label>, i: nat, c: Cpu) returns (ev: Label, st': State)
    requires Run(k, states, events) && i < |states| && c in states[i].cpus && !states[i].cpus[c].section.Open?
    ensures Step(k, states[i], st', ev) && c in st'.cpus && st'.cpus[c].section != states[i].cpus[c].section
    ensures states[i].cpus[c].slab.Some? && !states[i].cpus[c].section.Bypass? ==> states[i].cpus[c].slab.value in states[i].slabs
  {
    hide Run, Inv, Step;
    var w := RunInv(k, states, events, i);
    CpuOf(k, states[i], w, c);
    NodeOf(k, states[i], w);
    if states[i].cpus[c].section.Adopt? { AdoptFacts(k, states[i], w, c); }
    ev, st' := SectionGoesOn(k, states[i], c);
  }

  lemma SectionGoesOn(k: Cache, st: State, c: Cpu) returns (ev: Label, st': State)
    requires c in st.cpus && !st.cpus[c].section.Open?
    requires st.cpus[c].section.Adopt? ==> st.cpus[c].slab.Some? && st.cpus[c].slab.value in st.slabs
    ensures Step(k, st, st', ev) && c in st'.cpus && st'.cpus[c].section != st.cpus[c].section
  {
    hide NodePath, FreePath;
    var p := st.cpus[c];
    match p.section
    case Bulk =>
      ev, st' := BulkEnd(c), st.(cpus := st.cpus[c := p.(tid := p.tid + k.tidStep, section := Open)]);
      assert CpuPath(k, st, st', ev);
    case Bypass =>
      ev, st' := BypassEnd(c), st.(cpus := st.cpus[c := p.(slab := None, tid := p.tid + k.tidStep, section := Open)]);
      assert CpuPath(k, st, st', ev);
    case Adopt =>
      var s := p.slab.value;
      var fl := st.slabs[s].freelist;
      ev := AdoptTake(c);
      st' := st.(slabs := st.slabs[s := TakeList(st.slabs[s], fl.Ref?)], cpus := st.cpus[c := p.(section := Load(fl))]);
      assert MovePath(k, st, st', ev);
    case Load(fl) =>
      ev := LoadEnd(c);
      st' := st.(cpus := st.cpus[c := p.(freelist := Next(st.slabs, fl), tid := p.tid + k.tidStep, section := Open)],
                 slabs := HandOut(st.slabs, fl));
      assert CpuPath(k, st, st', ev);
  }
}
