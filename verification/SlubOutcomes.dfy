/** What becomes of the slab: for every decision of the slab protocol, in every run, which way it goes.

    The conditions are read off the two states: list lengths, the contents of free lists, the length of a cpu partial
    list.  None of them is the guard stored in the step. */
module SlubOutcomes {
  import opened Freelist
  import opened SlubMachine
  import opened SlubInvariant
  import opened SlubSlab
  import opened SlubLists
  import opened SlubFree
  import opened SlubTheorems

  /** Nothing but the activations changed. */
  predicate OnlyTasks(st: State, st': State)
  {
    st'.slabs == st.slabs && st'.cpus == st.cpus && SameLists(st, st')
  }

  predicate SameLists(st: State, st': State)
  {
    st'.node == st.node && st'.nrPartial == st.nrPartial
  }

  /** `s` left the partial list, and only `s`. */
  predicate LeftList(st: State, st': State, s: SlabId)
  {
    && s in st.node && s !in st'.node && (forall x :: x in st.node && x != s ==> x in st'.node)
    && |st'.node| == |st.node| - 1 && st'.nrPartial == st.nrPartial - 1
  }

  /** `s` joined the partial list at one of its ends. */
  predicate JoinedList(st: State, st': State, s: SlabId)
  {
    && s !in st.node && (st'.node == st.node + [s] || st'.node == [s] + st.node) && st'.nrPartial == st.nrPartial + 1
  }

  /** The cache keeps enough partial slabs without `s`, none of whose objects is in use. */
  predicate Surplus(k: Cache, st: State, free: nat, objects: nat)
  {
    free == objects && |st.node| >= k.minPartial
  }

  // ---- __slab_free ----

  /** The exchange compares the whole pair; what it missed it retries, changing nothing. */
  predicate PairUnchanged(st: State, t: TaskId)
    requires t in st.tasks && st.tasks[t].Free? && st.tasks[t].phase.SlowSpliced? && st.tasks[t].slab in st.slabs
  {
    var b, ph := st.slabs[st.tasks[t].slab], st.tasks[t].phase;
    b.freelist == ph.prior && b.inuse == ph.inuse && b.frozen == ph.frozen
  }

  /** What the slab is and where it goes once a slow free has put its objects on it. */
  ghost predicate SlowSettled(k: Cache, st: State, st': State, t: TaskId, s: SlabId, free: seq<nat>, freed: nat)
    requires s in st.slabs
  {
    if st.slabs[s].frozen then
      // somebody's cpu slab: it stays with its owner
      SameLists(st, st') && st'.tasks == st.tasks - {t}
    else if free == [] then
      // it was full, held by nobody: the activation takes it to a cpu partial list
      IsAt(st, Full, s) && SameLists(st, st') && st'.tasks == st.tasks[t := PutCpuPartial(s)]
    else if s in st.node && Surplus(k, st, |free| + freed, st.slabs[s].objects) then
      LeftList(st, st', s) && st'.tasks == st.tasks[t := Discard([s])]
    else
      SameLists(st, st') && st'.tasks == st.tasks - {t}
  }

  /** A slow free: retried if the pair changed; otherwise the slab stays with its cpu, leaves the full state, is
      discarded if it became empty and the list is long enough without it, or stays on its list. */
  lemma SlowFreeSettles(k: Cache, states: seq<State>, events: seq<Label>, i: nat, t: TaskId)
    requires Run(k, states, events) && i < |events| && events[i] == SlowExchange(t)
    ensures var st, st' := states[i], states[i + 1];
      && t in st.tasks && st.tasks[t].Free? && st.tasks[t].phase.SlowSpliced? && st.tasks[t].slab in st.slabs
      && (!PairUnchanged(st, t) ==> OnlyTasks(st, st') && st'.tasks == st.tasks[t := st.tasks[t].(phase := Slow)])
      && (PairUnchanged(st, t) ==>
            && st'.cpus == st.cpus
            && SlowSettled(k, st, st', t, st.tasks[t].slab, FreeList(st, st.tasks[t].slab), |st.tasks[t].objs|))
  {
    hide Inv, Init, Step, FreeList, StepSlowExchange, SlowSettled;
    var w := RunInv(k, states, events, i);
    StepAt(k, states, events, i);
    SlowExchangeStep(k, states[i], states[i + 1], t);
    SlowOutcome(k, states[i], w, states[i + 1], t);
  }

  lemma SlowOutcome(k: Cache, st: State, w: Witness, st': State, t: TaskId)
    requires Inv(k, st, w) && StepSlowExchange(k, st, st', t)
    ensures t in st.tasks && st.tasks[t].Free? && st.tasks[t].phase.SlowSpliced? && st.tasks[t].slab in st.slabs
    ensures !PairUnchanged(st, t) ==> OnlyTasks(st, st') && st'.tasks == st.tasks[t := st.tasks[t].(phase := Slow)]
    ensures PairUnchanged(st, t) ==>
      && st'.cpus == st.cpus
      && SlowSettled(k, st, st', t, st.tasks[t].slab, FreeList(st, st.tasks[t].slab), |st.tasks[t].objs|)
  {
    hide Inv, BodyInv, PlaceInv, Remove, IsAt, FreeList;
    if PairUnchanged(st, t) {
      var s := st.tasks[t].slab;
      SlabListing(k, st, w, s);
      if st.slabs[s].partial { RemoveIsLeft(st.node, s); }
    }
  }

  /** The counters and flags of a slab, in terms of its lists and its place. */
  lemma SlabListing(k: Cache, st: State, w: Witness, s: SlabId)
    requires Inv(k, st, w) && s in st.slabs
    ensures (st.slabs[s].freelist.Null? <==> FreeList(st, s) == [])
    ensures st.slabs[s].inuse + |FreeList(st, s)| == st.slabs[s].objects
    ensures (st.slabs[s].partial <==> s in st.node)
    ensures !st.slabs[s].frozen && FreeList(st, s) == [] ==> IsAt(st, Full, s)
    ensures st.nrPartial == |st.node| && NoDup(st.node)
  {
    hide Inv, BodyInv, IsAt, FreeList;
    WitnessLists(k, st, w, s);
    SlabOf(k, st, w, s);
    NodeOf(k, st, w);
    BodyNull(s, st.slabs[s], w.free[s], w.det[s], DetHead(st, w.place[s]));
    BodyCount(s, st.slabs[s], w.free[s], w.det[s], DetHead(st, w.place[s]));
    if s in st.node { OnNodeOf(st, w, s); }
  }

  lemma RemoveIsLeft(l: seq<SlabId>, s: SlabId)
    requires NoDup(l) && s in l
    ensures var m := Remove(l, s);
      s !in m && |m| == |l| - 1 && forall x :: x in l && x != s ==> x in m
  {
    var i := IndexOf(l, s);
    var m := Remove(l, s);
    forall x | x in l && x != s ensures x in m {
      var j :| 0 <= j < |l| && l[j] == x;
      assert m[if j < i then j else j - 1] == x;
    }
  }

  // ---- deactivate_slab, __put_partials, put_cpu_partial ----

  /** What a deactivation does with a slab it found to have free objects: the page goes back exactly if the slab was
      empty when it was unfrozen and the list is long enough without it; such a slab is still empty. */
  lemma DeactivationSettles(k: Cache, states: seq<State>, events: seq<Label>, i: nat, t: TaskId)
    requires Run(k, states, events) && i < |events| && events[i] == Decide(t)
    ensures var st, st' := states[i], states[i + 1];
      && t in st.tasks && st.tasks[t].Unfrozen? && st.tasks[t].slab in st.slabs && OnlyTasks(st, st')
      && var s := st.tasks[t].slab;
      && (st.tasks[t].inuse == 0 ==> |FreeList(st, s)| == st.slabs[s].objects)
      && st'.tasks == st.tasks[t :=
           if st.tasks[t].inuse == 0 && |st.node| >= k.minPartial then Discard([s]) else AddPartial(s)]
  {
    hide Inv, Init, Step, FreeList, StepDecide;
    var w := RunInv(k, states, events, i);
    StepAt(k, states, events, i);
    DecideStep(k, states[i], states[i + 1], t);
    DecideOutcome(k, states[i], w, states[i + 1], t);
  }

  lemma DecideStep(k: Cache, st: State, st': State, t: TaskId)
    requires Step(k, st, st', Decide(t))
    ensures StepDecide(k, st, st', t)
  {
  }

  lemma DecideOutcome(k: Cache, st: State, w: Witness, st': State, t: TaskId)
    requires Inv(k, st, w) && StepDecide(k, st, st', t)
    ensures st.tasks[t].slab in st.slabs && OnlyTasks(st, st')
    ensures var s := st.tasks[t].slab;
      && (st.tasks[t].inuse == 0 ==> |FreeList(st, s)| == st.slabs[s].objects)
      && st'.tasks == st.tasks[t :=
           if st.tasks[t].inuse == 0 && |st.node| >= k.minPartial then Discard([s]) else AddPartial(s)]
  {
    hide Inv, BodyInv, FreeList;
    HeldSlab(k, st, w, t, 0);
    SlabListing(k, st, w, st.tasks[t].slab);
  }

  /** The slabs an activation holds exist and are not on the partial list. */
  lemma HeldSlab(k: Cache, st: State, w: Witness, t: TaskId, j: nat)
    requires Inv(k, st, w) && t in st.tasks && j < |Held(st.tasks[t])|
    ensures var s := Held(st.tasks[t])[j];
      && s in st.slabs && s !in st.node && !st.slabs[s].partial
      && (Doomed(st.tasks[t], s) ==> st.slabs[s].inuse == 0)
  {
    hide Inv, BodyInv;
    var s := Held(st.tasks[t])[j];
    TaskOf(k, st, w, t);
    SlabOf(k, st, w, s);
    NodeOf(k, st, w);
    if s in st.node { OnNodeOf(st, w, s); }
  }

  /** The slab a deactivation keeps goes on the partial list. */
  lemma KeptSlabsAreListed(k: Cache, states: seq<State>, events: seq<Label>, i: nat, t: TaskId, tail: bool)
    requires Run(k, states, events) && i < |events| && events[i] == AddToNode(t, tail)
    ensures var st, st' := states[i], states[i + 1];
      && t in st.tasks && st.tasks[t].AddPartial? && JoinedList(st, st', st.tasks[t].slab)
      && st'.tasks == st.tasks - {t} && st'.cpus == st.cpus
  {
    hide Inv, Init, Step;
    var st, st' := states[i], states[i + 1];
    var w := RunInv(k, states, events, i);
    StepAt(k, states, events, i);
    AddStep(k, st, st', t, tail);
    HeldSlab(k, st, w, t, 0);
  }

  lemma AddStep(k: Cache, st: State, st': State, t: TaskId, tail: bool)
    requires Step(k, st, st', AddToNode(t, tail))
    ensures StepAddToNode(st, st', t, tail)
  {
  }

  /** What putting back a chain does with its first slab: set aside for discarding exactly if it is empty and the list
      is long enough without it, otherwise put at the tail of the list. */
  lemma PutBackSettles(k: Cache, states: seq<State>, events: seq<Label>, i: nat, t: TaskId)
    requires Run(k, states, events) && i < |events| && events[i] == PutOne(t)
    ensures var st, st' := states[i], states[i + 1];
      && t in st.tasks && st.tasks[t].PutPartials? && st.tasks[t].chain != [] && st.tasks[t].chain[0] in st.slabs
      && var s, chain, aside := st.tasks[t].chain[0], st.tasks[t].chain, st.tasks[t].discards;
         if Surplus(k, st, |FreeList(st, s)|, st.slabs[s].objects) then
           OnlyTasks(st, st') && st'.tasks == st.tasks[t := PutPartials(chain[1..], [s] + aside)]
         else
           && JoinedList(st, st', s) && Last(st'.node) == s && st'.cpus == st.cpus
           && st'.tasks == st.tasks[t := PutPartials(chain[1..], aside)]
  {
    hide Inv, Init, Step, FreeList, StepPutOne;
    var w := RunInv(k, states, events, i);
    StepAt(k, states, events, i);
    PutOneStep(k, states[i], states[i + 1], t);
    PutOneOutcome(k, states[i], w, states[i + 1], t);
  }

  lemma PutOneStep(k: Cache, st: State, st': State, t: TaskId)
    requires Step(k, st, st', PutOne(t))
    ensures StepPutOne(k, st, st', t)
  {
  }

  lemma PutOneOutcome(k: Cache, st: State, w: Witness, st': State, t: TaskId)
    requires Inv(k, st, w) && StepPutOne(k, st, st', t)
    ensures var s, chain, aside := st.tasks[t].chain[0], st.tasks[t].chain, st.tasks[t].discards;
         if Surplus(k, st, |FreeList(st, s)|, st.slabs[s].objects) then
           OnlyTasks(st, st') && st'.tasks == st.tasks[t := PutPartials(chain[1..], [s] + aside)]
         else
           && JoinedList(st, st', s) && Last(st'.node) == s && st'.cpus == st.cpus
           && st'.tasks == st.tasks[t := PutPartials(chain[1..], aside)]
  {
    hide Inv, BodyInv, FreeList;
    HeldSlab(k, st, w, t, 0);
    SlabListing(k, st, w, st.tasks[t].chain[0]);
  }

  /** A slab put on a cpu partial list goes in front; a list that has reached its limit is first handed to an
      activation that puts it back, so the list never exceeds the limit, or one slab. */
  lemma CpuPartialListIsBounded(k: Cache, states: seq<State>, events: seq<Label>, i: nat, t: TaskId, c: Cpu, u: TaskId)
    requires Run(k, states, events) && i < |events| && events[i] == PutOnCpu(t, c, u)
    ensures var st, st' := states[i], states[i + 1];
      && t in st.tasks && st.tasks[t].PutCpuPartial? && c in st.cpus && c in st'.cpus && SameLists(st, st')
      && var s, chain := st.tasks[t].slab, st.cpus[c].partial;
      && |st'.cpus[c].partial| <= (if k.cpuPartialSlabs == 0 then 1 else k.cpuPartialSlabs)
      && if chain != [] && |chain| >= k.cpuPartialSlabs then
           && u !in st.tasks && st'.cpus == st.cpus[c := st.cpus[c].(partial := [s])]
           && st'.tasks == (st.tasks - {t})[u := PutPartials(chain, [])]
         else
           && st'.cpus == st.cpus[c := st.cpus[c].(partial := [s] + chain)] && st'.tasks == st.tasks - {t}
  {
    hide Inv, Init, Step;
    var st, st' := states[i], states[i + 1];
    var w := RunInv(k, states, events, i);
    StepAt(k, states, events, i);
    PutOnCpuStep(k, st, st', t, c, u);
    CpuOf(k, st, w, c);
  }

  lemma PutOnCpuStep(k: Cache, st: State, st': State, t: TaskId, c: Cpu, u: TaskId)
    requires Step(k, st, st', PutOnCpu(t, c, u))
    ensures StepPutOnCpu(k, st, st', t, c, u)
  {
  }

  // ---- get_partial_node ----

  /** How many slabs beside the first a walk of the partial list moves to the cpu partial list. */
  function WalkShare(k: Cache): nat
  {
    if k.cpuPartialSlabs == 0 then 0 else k.cpuPartialSlabs / 2 + 1
  }

  predicate WalkGrows(k: Cache, st: State, st': State, t: TaskId)
  {
    t in st'.tasks && st'.tasks[t].Walk? ==>
      || st'.tasks[t].moved == 0
      || (t in st.tasks && st.tasks[t] == st'.tasks[t])
      || (t in st.tasks && st.tasks[t].Walk? && st'.tasks[t].moved == st.tasks[t].moved + 1 && st.tasks[t].moved < WalkShare(k))
  }

  lemma StepWalks(k: Cache, st: State, st': State, ev: Label, t: TaskId)
    requires Step(k, st, st', ev)
    ensures WalkGrows(k, st, st', t)
  {
    hide CpuPath, MovePath, NodePath, FreePath, WalkGrows;
    if CpuPath(k, st, st', ev) {
      CpuPathWalks(k, st, st', ev, t);
    } else if MovePath(k, st, st', ev) {
      MovePathWalks(k, st, st', ev, t);
    } else if NodePath(k, st, st', ev) {
      NodePathWalks(k, st, st', ev, t);
    } else {
      FreePathWalks(k, st, st', ev, t);
    }
  }

  lemma CpuPathWalks(k: Cache, st: State, st': State, ev: Label, t: TaskId)
    requires CpuPath(k, st, st', ev)
    ensures WalkGrows(k, st, st', t)
  {
    hide Chain, Link, Remove, Next, HandOut, Linked, NoDup;
  }

  lemma MovePathWalks(k: Cache, st: State, st': State, ev: Label, t: TaskId)
    requires MovePath(k, st, st', ev)
    ensures WalkGrows(k, st, st', t)
  {
    hide Chain, Link, Remove, Next, HandOut, Linked, NoDup;
  }

  lemma NodePathWalks(k: Cache, st: State, st': State, ev: Label, t: TaskId)
    requires NodePath(k, st, st', ev)
    ensures WalkGrows(k, st, st', t)
  {
    hide Chain, Link, Remove, Next, HandOut, Linked, NoDup;
  }

  lemma FreePathWalks(k: Cache, st: State, st': State, ev: Label, t: TaskId)
    requires FreePath(k, st, st', ev)
    ensures WalkGrows(k, st, st', t)
  {
    hide Chain, Link, Remove, Next, HandOut, Linked, NoDup;
  }

  lemma {:induction false} WalkBound(k: Cache, states: seq<State>, events: seq<Label>, i: nat, t: TaskId)
    requires Run(k, states, events) && i < |states| && t in states[i].tasks && states[i].tasks[t].Walk?
    ensures states[i].tasks[t].moved <= WalkShare(k)
  {
    hide Step;
    if i > 0 {
      StepAt(k, states, events, i - 1);
      StepWalks(k, states[i - 1], states[i], events[i - 1], t);
      if states[i].tasks[t].moved > 0 { WalkBound(k, states, events, i - 1, t); }
    }
  }

  /** A walk of the partial list keeps its first slab, moves half the cpu limit and one more, or none if the limit is
      zero, and stops short of that only where the list ends. */
  lemma WalkTakesItsShare(k: Cache, states: seq<State>, events: seq<Label>, i: nat, t: TaskId)
    requires Run(k, states, events) && i < |events| && events[i] == WalkDone(t)
    ensures var st, st' := states[i], states[i + 1];
      && t in st.tasks && st.tasks[t].Walk? && st'.tasks == st.tasks[t := Freeze(st.tasks[t].slab)] && OnlyTasks(st, st')
      && st.tasks[t].moved <= WalkShare(k) && (st.tasks[t].moved == WalkShare(k) || st.node == [])
  {
    hide Init, Step;
    StepAt(k, states, events, i);
    WalkDoneStep(k, states[i], states[i + 1], t);
    WalkBound(k, states, events, i, t);
  }

  lemma WalkDoneStep(k: Cache, st: State, st': State, t: TaskId)
    requires Step(k, st, st', WalkDone(t))
    ensures StepWalkDone(k, st, st', t)
  {
  }

  /** Walks take slabs from the head of the list: the first for the caller, the next to the front of a cpu's list. */
  lemma WalksTakeTheHead(k: Cache, states: seq<State>, events: seq<Label>, i: nat, t: TaskId, c: Cpu)
    requires Run(k, states, events) && i < |events| && (events[i] == WalkFirst(t) || events[i] == WalkMore(t, c))
    ensures var st, st' := states[i], states[i + 1];
      && st.node != [] && st'.node == st.node[1..] && LeftList(st, st', st.node[0])
      && if events[i].WalkFirst? then
           st'.cpus == st.cpus && t !in st.tasks && st'.tasks == st.tasks[t := Walk(st.node[0], 0)]
         else
           && c in st.cpus && st'.cpus == st.cpus[c := st.cpus[c].(partial := [st.node[0]] + st.cpus[c].partial)]
           && t in st.tasks && st.tasks[t].Walk? && st'.tasks == st.tasks[t := Walk(st.tasks[t].slab, st.tasks[t].moved + 1)]
  {
    hide Inv, Init, Step;
    var st, st' := states[i], states[i + 1];
    var w := RunInv(k, states, events, i);
    StepAt(k, states, events, i);
    if events[i].WalkFirst? { WalkFirstStep(k, st, st', t); } else { WalkMoreStep(k, st, st', t, c); }
    NodeOf(k, st, w);
    assert st.node == [st.node[0]] + st.node[1..];
  }

  lemma WalkFirstStep(k: Cache, st: State, st': State, t: TaskId)
    requires Step(k, st, st', WalkFirst(t))
    ensures StepWalkFirst(st, st', t)
  {
  }

  lemma WalkMoreStep(k: Cache, st: State, st': State, t: TaskId, c: Cpu)
    requires Step(k, st, st', WalkMore(t, c))
    ensures StepWalkMore(k, st, st', t, c)
  {
  }

  // ---- when the lockless paths are left ----

  /** An allocation leaves the lockless path only where its reads found no object or no slab; if the cpu is as it was
      read, it has nothing to give. */
  lemma SlowAllocationsFoundNothing(k: Cache, states: seq<State>, events: seq<Label>, i: nat, t: TaskId)
    requires Run(k, states, events) && i < |events| && events[i] == AllocSlow(t)
    ensures var st, st' := states[i], states[i + 1];
      && t in st.tasks && st.tasks[t].Alloc? && st'.tasks == st.tasks - {t} && OnlyTasks(st, st')
      && (st.tasks[t].obj == Some(Null) || st.tasks[t].cpuSlab == Some(None))
      && st.tasks[t].cpu in st.cpus
      && (st.cpus[st.tasks[t].cpu].tid == st.tasks[t].tid && st.cpus[st.tasks[t].cpu].section.Open? ==>
            CpuList(st, st.tasks[t].cpu) == [])
  {
    hide Inv, Init, Step;
    var w := RunInv(k, states, events, i);
    StepAt(k, states, events, i);
    AllocSlowStep(k, states[i], states[i + 1], t);
    TaskOf(k, states[i], w, t);
  }

  lemma AllocSlowStep(k: Cache, st: State, st': State, t: TaskId)
    requires Step(k, st, st', AllocSlow(t))
    ensures StepAllocSlow(st, st', t)
  {
  }

  /** A free goes on without a lock exactly if the cpu it read is working on the objects' slab. */
  lemma FreesMatchTheirSlab(k: Cache, states: seq<State>, events: seq<Label>, i: nat, t: TaskId)
    requires Run(k, states, events) && i < |events| && events[i] == FreeCheckSlab(t)
    ensures var st, st' := states[i], states[i + 1];
      && t in st.tasks && st.tasks[t].Free? && st.tasks[t].phase.TidRead? && st.tasks[t].phase.cpu in st.cpus
      && OnlyTasks(st, st') && t in st'.tasks && st'.tasks == st.tasks[t := st.tasks[t].(phase := st'.tasks[t].phase)]
      && var ph, mine := st.tasks[t].phase, st.cpus[st.tasks[t].phase.cpu].slab == Some(st.tasks[t].slab);
      && (mine <==> st'.tasks[t].phase == Matched(ph.cpu, ph.tid)) && (!mine <==> st'.tasks[t].phase == Slow)
  {
    hide Init, Step;
    StepAt(k, states, events, i);
    FreeCheckStep(k, states[i], states[i + 1], t);
  }

  lemma FreeCheckStep(k: Cache, st: State, st': State, t: TaskId)
    requires Step(k, st, st', FreeCheckSlab(t))
    ensures StepFreeCheckSlab(st, st', t)
  {
  }
}
