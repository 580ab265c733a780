/** Which way every decision of the sheaf protocol goes, in every run.

    The conditions speak of the objects in the sheaves, of the lists of the barn and of who owns a sheaf afterwards;
    where a sheaf that makes room ends up follows from `EverySheafHasOneOwner` and `SizesFitRoles`. */
module SheafOutcomes {
  import opened Freelist
  import opened SheafMachine
  import opened SheafInvariant
  import opened SheafTheorems
  import opened SheafPrefill

  /** The objects in a sheaf. */
  function Contents(st: State, e: SheafId): seq<Obj>
  {
    if e in st.sheaves then st.sheaves[e] else []
  }

  function MainList(st: State, c: Cpu): seq<Obj>
    requires c in st.pcs
  {
    Contents(st, st.pcs[c].main)
  }

  function SpareList(st: State, c: Cpu): seq<Obj>
    requires c in st.pcs
  {
    if st.pcs[c].spare.Some? then Contents(st, st.pcs[c].spare.value) else []
  }

  predicate SpareHasRoom(cap: nat, st: State, c: Cpu)
    requires c in st.pcs
  {
    st.pcs[c].spare.Some? && |SpareList(st, c)| < cap
  }

  /** Sheaves may have changed hands, no object has. */
  predicate NoObjectMoved(st: State, st': State)
  {
    st'.sheaves == st.sheaves && st'.below == st.below && st'.callers == st.callers && st'.delayed == st.delayed
  }

  predicate SameSlots(st: State, st': State, c: Cpu)
  {
    && c in st.pcs && c in st'.pcs && st'.pcs[c].main == st.pcs[c].main
    && st'.pcs[c].spare == st.pcs[c].spare && st'.pcs[c].rcuFree == st.pcs[c].rcuFree
  }

  /** The barn's counters are right, and a cpu's sheaves exist. */
  lemma Facts(cap: nat, states: seq<State>, events: seq<Label>, i: nat, c: Cpu)
    requires Run(cap, states, events) && i < |states|
    ensures var b := states[i].barn; (HasFull(b) <==> b.full != []) && (HasEmpty(b) <==> b.empty != [])
    ensures forall e :: Among(states[i].barn.full, e) || Among(states[i].barn.empty, e) ==> e in states[i].sheaves
    ensures c in states[i].pcs ==>
      && states[i].pcs[c].main in states[i].sheaves
      && (states[i].pcs[c].spare.Some? ==> states[i].pcs[c].spare.value in states[i].sheaves)
      && |MainList(states[i], c)| <= cap && |SpareList(states[i], c)| <= cap
  {
    hide Run, Inv;
    var w := RunInv(cap, states, events, i);
    BarnFacts(cap, states[i], w);
    if c in states[i].pcs { CpuFacts(cap, states[i], w, c); }
  }

  // ---- allocation ----

  /** What the main sheaf holds once an allocation may take from it: its own objects; else those of the spare; else,
      if the barn is found to have one, those of the first full sheaf of the barn. */
  function Supply(st: State, c: Cpu, miss: bool): seq<Obj>
    requires c in st.pcs
  {
    if MainList(st, c) != [] then MainList(st, c)
    else if SpareList(st, c) != [] then SpareList(st, c)
    else if st.barn.full != [] && !miss then Contents(st, st.barn.full[0])
    else []
  }

  lemma EnterStep(cap: nat, st: State, st': State, t: ActId, c: Cpu, miss: bool)
    requires Step(cap, st, st', AllocEnter(t, c, miss))
    ensures StepAllocEnter(st, st', t, c, miss)
  {
  }

  /** An allocation finds objects on its cpu if there are any, else in the barn, and goes hunting exactly if there are
      none; the barn is asked last. */
  lemma AllocationsLookNearFirst(cap: nat, states: seq<State>, events: seq<Label>, i: nat, t: ActId, c: Cpu, miss: bool)
    requires Run(cap, states, events) && i < |events| && events[i] == AllocEnter(t, c, miss)
    ensures var st, st' := states[i], states[i + 1];
      && c in st.pcs && c in st'.pcs && t !in st.acts && t in st'.acts && NoObjectMoved(st, st')
      && (if Supply(st, c, miss) != [] then st'.acts[t] == Pop(c) && MainList(st', c) == Supply(st, c, miss)
          else st'.acts[t] == Hunt(c) && SameSlots(st, st', c))
      && (MainList(st, c) != [] ==> SameSlots(st, st', c))
      && (MainList(st, c) + SpareList(st, c) != [] || miss || st.barn.full == [] ==> st'.barn == st.barn)
  {
    hide Run, Step, Inv;
    StepAt(cap, states, events, i);
    EnterStep(cap, states[i], states[i + 1], t, c, miss);
    Facts(cap, states, events, i, c);
    SupplyHeld(cap, states, events, i);
  }

  /** The barn's full sheaves are not empty. */
  lemma SupplyHeld(cap: nat, states: seq<State>, events: seq<Label>, i: nat)
    requires Run(cap, states, events) && i < |states|
    ensures states[i].barn.full != [] ==> Contents(states[i], states[i].barn.full[0]) != []
  {
    hide Run, Inv;
    var w := RunInv(cap, states, events, i);
    BarnFacts(cap, states[i], w);
    if states[i].barn.full != [] { assert Among(states[i].barn.full, states[i].barn.full[0]); }
  }

  lemma HuntStep(cap: nat, st: State, st': State, t: ActId, miss: bool)
    requires Step(cap, st, st', HuntTake(t, miss))
    ensures StepHuntTake(st, st', t, miss)
  {
  }

  /** The sheaf taken along to be refilled is the spare, else an empty one of the barn; a new one is needed exactly if
      there is neither. */
  lemma HuntsTakeASheafAlong(cap: nat, states: seq<State>, events: seq<Label>, i: nat, t: ActId, miss: bool)
    requires Run(cap, states, events) && i < |events| && events[i] == HuntTake(t, miss)
    ensures var st, st' := states[i], states[i + 1];
      && t in st.acts && st.acts[t].Hunt? && st.acts[t].cpu in st.pcs && t in st'.acts && NoObjectMoved(st, st')
      && var p := st.pcs[st.acts[t].cpu];
      && (st'.acts[t] == NeedSheaf <==> p.spare.None? && (st.barn.empty == [] || miss))
      && (st'.acts[t] != NeedSheaf ==>
            st'.acts[t] == Refill(if p.spare.Some? then p.spare.value else st.barn.empty[0], [], ForAlloc))
  {
    hide Run, Step, Inv;
    StepAt(cap, states, events, i);
    HuntStep(cap, states[i], states[i + 1], t, miss);
    Facts(cap, states, events, i, states[i].acts[t].cpu);
  }

  lemma RelockStep(cap: nat, st: State, st': State, t: ActId, c: Cpu)
    requires Step(cap, st, st', Relock(t, c))
    ensures StepRelock(st, st', t, c)
  {
  }

  /** The refilled sheaf becomes the main sheaf if that one is empty, else the spare if there is none or it is empty, and
      goes to the barn otherwise; a slot with objects in it keeps its sheaf. */
  lemma RefilledSheavesFindAHome(cap: nat, states: seq<State>, events: seq<Label>, i: nat, t: ActId, c: Cpu)
    requires Run(cap, states, events) && i < |events| && events[i] == Relock(t, c)
    ensures var st, st' := states[i], states[i + 1];
      && c in st.pcs && c in st'.pcs && t in st.acts && st.acts[t].HaveFull? && NoObjectMoved(st, st')
      && st'.acts == st.acts[t := Pop(c)]
      && Owns(st', if MainList(st, c) == [] then MainOf(c) else if SpareList(st, c) == [] then SpareOf(c) else BarnFull, st.acts[t].sheaf)
      && (MainList(st, c) != [] ==> st'.pcs[c].main == st.pcs[c].main)
      && (SpareList(st, c) != [] || MainList(st, c) == [] ==> st'.pcs[c].spare == st.pcs[c].spare)
  {
    hide Run, Step, Inv;
    StepAt(cap, states, events, i);
    RelockStep(cap, states[i], states[i + 1], t, c);
    Facts(cap, states, events, i, c);
  }

  // ---- sheaves are stacks ----

  lemma PopStep(cap: nat, st: State, st': State, t: ActId)
    requires Step(cap, st, st', PopObject(t))
    ensures StepPopObject(st, st', t)
  {
  }

  lemma PushStep(cap: nat, st: State, st': State, t: ActId)
    requires Step(cap, st, st', PushObject(t))
    ensures StepPushObject(st, st', t)
  {
  }

  lemma SheafAllocStep(cap: nat, st: State, st': State, t: ActId)
    requires Step(cap, st, st', SheafAlloc(t))
    ensures StepSheafAlloc(st, st', t)
  {
  }

  /** What is freed to a sheaf goes on top, and what is allocated from it is what was put there last. */
  lemma SheavesAreStacks(cap: nat, states: seq<State>, events: seq<Label>, i: nat, t: ActId)
    requires Run(cap, states, events) && i < |events|
    ensures var st, st' := states[i], states[i + 1];
      && (events[i] == PushObject(t) ==>
            && t in st.acts && st.acts[t].Push? && st.acts[t].cpu in st.pcs && st.acts[t].cpu in st'.pcs
            && MainList(st', st.acts[t].cpu) == MainList(st, st.acts[t].cpu) + [st.acts[t].obj])
      && (events[i] == PopObject(t) ==>
            && t in st.acts && st.acts[t].Pop? && st.acts[t].cpu in st.pcs && st.acts[t].cpu in st'.pcs
            && var l := MainList(st, st.acts[t].cpu);
            && l != [] && l == MainList(st', st.acts[t].cpu) + [Last(l)] && st'.callers == st.callers + {Last(l)})
      && (events[i] == SheafAlloc(t) ==>
            && t in st.acts && st.acts[t].Prefilled?
            && var l := Contents(st, st.acts[t].sheaf);
            && l != [] && l == Contents(st', st.acts[t].sheaf) + [Last(l)] && st'.callers == st.callers + {Last(l)})
  {
    hide Run, Step;
    StepAt(cap, states, events, i);
    if events[i] == PushObject(t) { PushStep(cap, states[i], states[i + 1], t); }
    if events[i] == PopObject(t) { PopStep(cap, states[i], states[i + 1], t); }
    if events[i] == SheafAlloc(t) { SheafAllocStep(cap, states[i], states[i + 1], t); }
  }

  // ---- free ----

  lemma ReplaceStep(cap: nat, st: State, st': State, t: ActId, r: Outcome)
    requires Step(cap, st, st', ReplaceFull(t, r))
    ensures StepReplaceFull(cap, st, st', t, r)
  {
  }

  /** A free that finds its main sheaf full goes on at once exactly if the spare has room or the barn gives an empty
      sheaf, and asks the barn only if the spare has none; it gives up the spare only if that is full and the barn
      takes no more. */
  lemma FullSheavesAreReplaced(cap: nat, states: seq<State>, events: seq<Label>, i: nat, t: ActId, r: Outcome)
    requires Run(cap, states, events) && i < |events| && events[i] == ReplaceFull(t, r)
    ensures var st, st' := states[i], states[i + 1];
      && t in st.acts && st.acts[t].FullMain? && st.acts[t].cpu in st.pcs && st.acts[t].cpu in st'.pcs && t in st'.acts
      && NoObjectMoved(st, st')
      && var c, o, given := st.acts[t].cpu, st.acts[t].obj, r.Got? && st.barn.empty != [];
      && (SpareHasRoom(cap, st, c) || given ==>
            st'.acts[t] == Push(c, o) && MainList(st', c) == if SpareHasRoom(cap, st, c) then SpareList(st, c) else [])
      && (SpareHasRoom(cap, st, c) || !given ==> st'.barn == st.barn)
      && (!SpareHasRoom(cap, st, c) && !given ==>
            st'.acts[t] == if r.TooBig? && st.pcs[c].spare.Some? then FlushSpare(st.pcs[c].spare.value, o) else NeedEmpty(o))
  {
    hide Run, Step, Inv;
    StepAt(cap, states, events, i);
    ReplaceStep(cap, states[i], states[i + 1], t, r);
    Facts(cap, states, events, i, states[i].acts[t].cpu);
    EmptyHeld(cap, states, events, i);
  }

  /** The barn's empty sheaves are empty. */
  lemma EmptyHeld(cap: nat, states: seq<State>, events: seq<Label>, i: nat)
    requires Run(cap, states, events) && i < |states|
    ensures states[i].barn.empty != [] ==> Contents(states[i], states[i].barn.empty[0]) == []
  {
    hide Run, Inv;
    var w := RunInv(cap, states, events, i);
    BarnFacts(cap, states[i], w);
    if states[i].barn.empty != [] { assert Among(states[i].barn.empty, states[i].barn.empty[0]); }
  }

  lemma InstallStep(cap: nat, st: State, st': State, t: ActId, c: Cpu)
    requires Step(cap, st, st', Install(t, c))
    ensures StepInstall(cap, st, st', t, c)
  {
  }

  /** The empty sheaf brought along becomes the main sheaf if there is no spare, or if main and spare are both full;
      otherwise it goes to the barn and the sheaf with room is the main one.  The old main sheaf becomes the spare, or,
      if full beside a full spare, goes to the barn. */
  lemma EmptySheavesAreInstalled(cap: nat, states: seq<State>, events: seq<Label>, i: nat, t: ActId, c: Cpu)
    requires Run(cap, states, events) && i < |events| && events[i] == Install(t, c)
    ensures var st, st' := states[i], states[i + 1];
      && t in st.acts && st.acts[t].HaveEmpty? && c in st.pcs && c in st'.pcs && NoObjectMoved(st, st')
      && st'.acts == st.acts[t := Push(c, st.acts[t].obj)]
      && var used := st.pcs[c].spare.None? || (|MainList(st, c)| == cap && |SpareList(st, c)| == cap);
      && Owns(st', if used then MainOf(c) else BarnEmpty, st.acts[t].sheaf)
      && (used ==> Owns(st', if st.pcs[c].spare.None? then SpareOf(c) else BarnFull, st.pcs[c].main))
      && (!used && |MainList(st, c)| < cap ==> SameSlots(st, st', c))
      && (!used && |MainList(st, c)| == cap ==> Owns(st', SpareOf(c), st.pcs[c].main) && MainList(st', c) == SpareList(st, c))
  {
    hide Run, Step, Inv;
    StepAt(cap, states, events, i);
    InstallStep(cap, states[i], states[i + 1], t, c);
    Facts(cap, states, events, i, c);
  }

  lemma FlushStep(cap: nat, st: State, st': State, t: ActId, c: Cpu)
    requires Step(cap, st, st', FlushTake(t, c))
    ensures StepFlushTake(st, st', t, c)
  {
  }

  /** A flush takes from the top, everything up to 32 objects, and goes on exactly if something is left. */
  lemma FlushesTakeTheTop(cap: nat, states: seq<State>, events: seq<Label>, i: nat, t: ActId, c: Cpu)
    requires Run(cap, states, events) && i < |events| && events[i] == FlushTake(t, c)
    ensures var st, st' := states[i], states[i + 1];
      && c in st.pcs && SameSlots(st, st', c) && t in st'.acts && st'.acts[t].FlushMain?
      && MainList(st, c) == MainList(st', c) + st'.acts[t].batch
      && |st'.acts[t].batch| <= 32 && (MainList(st', c) != [] ==> |st'.acts[t].batch| == 32)
      && (st'.acts[t].more <==> MainList(st', c) != [])
  {
    hide Run, Step;
    StepAt(cap, states, events, i);
    FlushStep(cap, states[i], states[i + 1], t, c);
  }

  // ---- kfree_rcu ----

  lemma RcuEnterStep(cap: nat, st: State, st': State, t: ActId, c: Cpu, o: Obj, miss: bool)
    requires Step(cap, st, st', RcuEnter(t, c, o, miss))
    ensures StepRcuEnter(st, st', t, c, o, miss)
  {
  }

  /** A kfree_rcu uses the cpu's rcu sheaf, else an empty spare, else an empty sheaf of the barn, in this order. */
  lemma RcuFreesFindASheaf(cap: nat, states: seq<State>, events: seq<Label>, i: nat, t: ActId, c: Cpu, o: Obj, miss: bool)
    requires Run(cap, states, events) && i < |events| && events[i] == RcuEnter(t, c, o, miss)
    ensures var st, st' := states[i], states[i + 1];
      && c in st.pcs && c in st'.pcs && t in st'.acts
      && var p, q, near := st.pcs[c], st'.pcs[c], st.pcs[c].spare.Some? && SpareList(st, c) == [];
         if p.rcuFree.Some? then st'.acts[t] == RcuPush(c, o) && SameSlots(st, st', c) && st'.barn == st.barn
         else if near then st'.acts[t] == RcuPush(c, o) && q.rcuFree == p.spare && st'.barn == st.barn
         else if st.barn.empty != [] && !miss then
           st'.acts[t] == RcuPush(c, o) && q.rcuFree == Some(st.barn.empty[0]) && q.spare == p.spare
         else st'.acts[t] == RcuNeed(o) && SameSlots(st, st', c) && st'.barn == st.barn
  {
    hide Run, Step, Inv;
    StepAt(cap, states, events, i);
    RcuEnterStep(cap, states[i], states[i + 1], t, c, o, miss);
    Facts(cap, states, events, i, c);
  }

  lemma RcuPushStep(cap: nat, st: State, st': State, t: ActId)
    requires Step(cap, st, st', RcuPushObject(t))
    ensures StepRcuPushObject(cap, st, st', t)
  {
  }

  /** The rcu sheaf is handed to call_rcu exactly when the object just put in has filled it. */
  lemma RcuSheavesLeaveWhenFull(cap: nat, states: seq<State>, events: seq<Label>, i: nat, t: ActId)
    requires Run(cap, states, events) && i < |events| && events[i] == RcuPushObject(t)
    ensures var st, st' := states[i], states[i + 1];
      && t in st.acts && st.acts[t].RcuPush? && st.acts[t].cpu in st.pcs && st.pcs[st.acts[t].cpu].rcuFree.Some?
      && var c, e := st.acts[t].cpu, st.pcs[st.acts[t].cpu].rcuFree.value;
      && Contents(st', e) == Contents(st, e) + [st.acts[t].obj]
      && Owns(st', if |Contents(st', e)| == cap then InAct(t) else RcuOf(c), e)
      && (|Contents(st', e)| == cap ==> st'.acts[t] == RcuSheaf(e, true) && st'.pcs[c].rcuFree.None?)
  {
    hide Run, Step, Inv;
    StepAt(cap, states, events, i);
    var st := states[i];
    RcuPushStep(cap, st, states[i + 1], t);
    var w := RunInv(cap, states, events, i);
    CpuFacts(cap, st, w, st.acts[t].cpu);
  }

  lemma RcuFinishStep(cap: nat, st: State, st': State, t: ActId, tooMany: bool)
    requires Step(cap, st, st', RcuFinish(t, tooMany))
    ensures StepRcuFinish(st, st', t, tooMany)
  {
  }

  /** After the grace period a sheaf that still has objects goes to the barn if there is room for it; else its objects
      go back to their slabs and the empty sheaf is kept or, if it came from a flush of the cpu, freed. */
  lemma RcuSheavesReturn(cap: nat, states: seq<State>, events: seq<Label>, i: nat, t: ActId, tooMany: bool)
    requires Run(cap, states, events) && i < |events| && events[i] == RcuFinish(t, tooMany)
    ensures var st, st' := states[i], states[i + 1];
      && t in st.acts && st.acts[t].RcuReady?
      && var e, l := st.acts[t].sheaf, Contents(st, st.acts[t].sheaf);
         if st.acts[t].barn && l != [] && !tooMany then
           NoObjectMoved(st, st') && t !in st'.acts && Owns(st', BarnFull, e)
         else
           && Contents(st', e) == [] && st'.below == st.below + Elems(l) && st'.barn == st.barn
           && st'.acts == st.acts[t := if st.acts[t].barn then ToEmpty(e) else FreeEmpty(e)]
  {
    hide Run, Step;
    StepAt(cap, states, events, i);
    RcuFinishStep(cap, states[i], states[i + 1], t, tooMany);
  }

  // ---- prefilled sheaves ----

  lemma PrefillEnterStep(cap: nat, st: State, st': State, t: ActId, c: Cpu, size: nat, miss: bool)
    requires Step(cap, st, st', PrefillEnter(t, c, size, miss))
    ensures StepPrefillEnter(cap, st, st', t, c, size, miss)
  {
  }

  /** A prefill starts from the spare, else from a full, else from an empty sheaf of the barn, else from a new one. */
  lemma PrefillsLookNearFirst(cap: nat, states: seq<State>, events: seq<Label>, i: nat, t: ActId, c: Cpu, size: nat, miss: bool)
    requires Run(cap, states, events) && i < |events| && events[i] == PrefillEnter(t, c, size, miss)
    ensures var st, st' := states[i], states[i + 1];
      && c in st.pcs && t in st'.acts && NoObjectMoved(st, st') && (st.pcs[c].spare.Some? ==> st'.barn == st.barn)
      && var found := if st.pcs[c].spare.Some? then [st.pcs[c].spare.value] else if miss then [] else st.barn.full + st.barn.empty;
         st'.acts[t] == if found == [] then PrefillNeed(size) else PrefillHave(found[0], size)
  {
    hide Run, Step, Inv;
    StepAt(cap, states, events, i);
    PrefillEnterStep(cap, states[i], states[i + 1], t, c, size, miss);
    Facts(cap, states, events, i, c);
  }

  lemma PrefillCheckStep(cap: nat, st: State, st': State, t: ActId)
    requires Step(cap, st, st', PrefillCheck(t))
    ensures StepPrefillCheck(st, st', t)
  {
  }

  /** The sheaf is handed out as it is exactly if it has the objects asked for. */
  lemma PrefillsRefillOnlyIfNeeded(cap: nat, states: seq<State>, events: seq<Label>, i: nat, t: ActId)
    requires Run(cap, states, events) && i < |events| && events[i] == PrefillCheck(t)
    ensures var st, st' := states[i], states[i + 1];
      && t in st.acts && st.acts[t].PrefillHave? && NoObjectMoved(st, st')
      && var e, enough := st.acts[t].sheaf, |Contents(st, st.acts[t].sheaf)| >= st.acts[t].size;
         st'.acts == st.acts[t := if enough then Prefilled(e) else Refill(e, [], ForPrefill)]
  {
    hide Run, Step;
    StepAt(cap, states, events, i);
    PrefillCheckStep(cap, states[i], states[i + 1], t);
  }

  lemma ReturnStep(cap: nat, st: State, st': State, t: ActId, c: Cpu, tooMany: bool)
    requires Step(cap, st, st', ReturnSheaf(t, c, tooMany))
    ensures StepReturnSheaf(st, st', t, c, tooMany)
  {
  }

  /** A returned sheaf becomes the spare exactly if there is none; otherwise it is refilled for the barn, or, if the
      barn has too many, flushed and freed. */
  lemma ReturnedSheavesBecomeSpare(cap: nat, states: seq<State>, events: seq<Label>, i: nat, t: ActId, c: Cpu, tooMany: bool)
    requires Run(cap, states, events) && i < |events| && events[i] == ReturnSheaf(t, c, tooMany)
    ensures var st, st' := states[i], states[i + 1];
      && c in st.pcs && c in st'.pcs && t in st.acts && st.acts[t].Prefilled? && NoObjectMoved(st, st') && st'.barn == st.barn
      && var e := st.acts[t].sheaf;
         if st.pcs[c].spare.None? then
           t !in st'.acts && Owns(st', SpareOf(c), e) && st'.pcs[c].main == st.pcs[c].main
         else
           SameSlots(st, st', c) && st'.acts == st.acts[t := if tooMany then FlushFree(e) else Refill(e, [], ForReturn)]
  {
    hide Run, Step;
    StepAt(cap, states, events, i);
    ReturnStep(cap, states[i], states[i + 1], t, c, tooMany);
  }

  // ---- bulk ----

  lemma BulkOutStep(cap: nat, st: State, st': State, t: ActId, c: Cpu, miss: bool)
    requires Step(cap, st, st', BulkAllocSheaf(t, c, miss))
    ensures StepBulkAllocSheaf(st, st', t, c, miss) && c in st.pcs && t in st.acts && st.acts[t].BulkAlloc?
  {
  }

  /** A bulk allocation takes from the sheaf a single one would take from, from its top, until it has what it wants or
      the sheaf is empty, and turns to the slabs exactly if there is nothing to take. */
  lemma BulkTakesTheTop(cap: nat, states: seq<State>, events: seq<Label>, i: nat, t: ActId, c: Cpu, miss: bool)
    requires Run(cap, states, events) && i < |events| && events[i] == BulkAllocSheaf(t, c, miss)
    ensures var st, st' := states[i], states[i + 1];
      && c in st.pcs && c in st'.pcs && t in st.acts && st.acts[t].BulkAlloc? && t in st'.acts
      && (MainList(st, c) + SpareList(st, c) != [] || miss || st.barn.full == [] ==> st'.barn == st.barn)
      && var l, want, got := Supply(st, c, miss), st.acts[t].want, st.acts[t].got;
         if l == [] then
           NoObjectMoved(st, st') && SameSlots(st, st', c) && st'.acts[t] == BulkSlab(want, got)
         else
           TookTop(st, st', t, c, l)
  {
    hide Run, Step, Inv, StepBulkAllocSheaf;
    StepAt(cap, states, events, i);
    BulkOutStep(cap, states[i], states[i + 1], t, c, miss);
    Facts(cap, states, events, i, c);
    SupplyHeld(cap, states, events, i);
    if states[i].barn.full != [] { assert Among(states[i].barn.full, states[i].barn.full[0]); }
    BatchTakes(states[i], states[i + 1], t, c, miss);
  }

  predicate TookTop(st: State, st': State, t: ActId, c: Cpu, l: seq<Obj>)
    requires t in st.acts && st.acts[t].BulkAlloc?
  {
    && c in st'.pcs && t in st'.acts && st'.acts[t].BulkAlloc? && st'.acts[t].want == st.acts[t].want
    && |st'.acts[t].got| <= st.acts[t].want
    && (MainList(st', c) == [] || |st'.acts[t].got| == st.acts[t].want)
    && st.acts[t].got <= st'.acts[t].got && MainList(st', c) + st'.acts[t].got[|st.acts[t].got|..] == l
  }

  lemma BatchTop(st: State, st': State, t: ActId, c: Cpu, p: Pcs, barn: Barn)
    requires t in st.acts && st.acts[t].BulkAlloc? && |st.acts[t].got| < st.acts[t].want && p.main in st.sheaves
    requires BatchOut(st, st', t, c, p, barn)
    ensures TookTop(st, st', t, c, st.sheaves[p.main]) && st'.barn == barn
  {
    var l, got, got' := st.sheaves[p.main], st.acts[t].got, st'.acts[t].got;
    var n := |got'| - |got|;
    assert got' == got + l[|l| - n..];
    assert got'[|got|..] == l[|l| - n..];
    assert l == l[..|l| - n] + l[|l| - n..];
    assert MainList(st', c) == l[..|l| - n];
  }

  lemma BatchTakes(st: State, st': State, t: ActId, c: Cpu, miss: bool)
    requires StepBulkAllocSheaf(st, st', t, c, miss) && HasFull(st.barn) == (st.barn.full != [])
    requires st.barn.full != [] ==> st.barn.full[0] in st.sheaves && st.sheaves[st.barn.full[0]] != []
    requires st.pcs[c].spare.Some? ==> st.pcs[c].spare.value in st.sheaves
    ensures MainList(st, c) + SpareList(st, c) != [] || miss || st.barn.full == [] ==> st'.barn == st.barn
    ensures if Supply(st, c, miss) != [] then TookTop(st, st', t, c, Supply(st, c, miss))
            else st' == st.(acts := st.acts[t := BulkSlab(st.acts[t].want, st.acts[t].got)])
  {
    hide BatchOut, TookTop;
    var p := st.pcs[c];
    if MainList(st, c) != [] {
      BatchTop(st, st', t, c, p, st.barn);
    } else if SpareList(st, c) != [] {
      BatchTop(st, st', t, c, Swap(p), st.barn);
    } else if st.barn.full != [] && !miss {
      BatchTop(st, st', t, c, p.(main := st.barn.full[0]), PutEmpty(TakeFull(st.barn), p.main));
    }
  }

  lemma BulkInStep(cap: nat, st: State, st': State, t: ActId, c: Cpu, r: Outcome)
    requires Step(cap, st, st', BulkFreeSheaf(t, c, r))
    ensures StepBulkFreeSheaf(cap, st, st', t, c, r) && c in st.pcs && t in st.acts && st.acts[t].BulkFree?
  {
  }

  /** Where a bulk free puts its next batch: on the main sheaf if it has room; else on the spare if that has; else on an
      empty sheaf of the barn, if it gives one. */
  function Room(cap: nat, st: State, c: Cpu, r: Outcome): Option<seq<Obj>>
    requires c in st.pcs
  {
    if |MainList(st, c)| < cap then Some(MainList(st, c))
    else if SpareHasRoom(cap, st, c) then Some(SpareList(st, c))
    else if r.Got? && st.barn.empty != [] then Some([])
    else None
  }

  /** A bulk free fills the sheaf it found, in order, until that is full or nothing is left, and sends everything to the
      slabs exactly if it found none. */
  lemma BulkFillsTheTop(cap: nat, states: seq<State>, events: seq<Label>, i: nat, t: ActId, c: Cpu, r: Outcome)
    requires Run(cap, states, events) && i < |events| && events[i] == BulkFreeSheaf(t, c, r)
    ensures var st, st' := states[i], states[i + 1];
      && c in st.pcs && c in st'.pcs && t in st.acts && st.acts[t].BulkFree? && t in st'.acts && st'.acts[t].BulkFree?
      && (|MainList(st, c)| < cap || SpareHasRoom(cap, st, c) || !r.Got? ==> st'.barn == st.barn)
      && var room, rest, rest' := Room(cap, st, c, r), st.acts[t].rest, st'.acts[t].rest;
         if room.None? then
           st'.sheaves == st.sheaves && rest' == [] && st'.below == st.below + Elems(rest) && SameSlots(st, st', c)
         else
           FilledTop(cap, st, st', t, c, room.value)
  {
    hide Run, Step, Inv, StepBulkFreeSheaf;
    StepAt(cap, states, events, i);
    BulkInStep(cap, states[i], states[i + 1], t, c, r);
    Facts(cap, states, events, i, c);
    EmptyHeld(cap, states, events, i);
    if states[i].barn.empty != [] { assert Among(states[i].barn.empty, states[i].barn.empty[0]); }
    BatchFills(cap, states[i], states[i + 1], t, c, r);
  }

  predicate FilledTop(cap: nat, st: State, st': State, t: ActId, c: Cpu, l: seq<Obj>)
    requires t in st.acts && st.acts[t].BulkFree?
  {
    && c in st'.pcs && t in st'.acts && st'.acts[t].BulkFree? && st'.below == st.below
    && MainList(st', c) + st'.acts[t].rest == l + st.acts[t].rest && l <= MainList(st', c)
    && |MainList(st', c)| <= cap && (st'.acts[t].rest == [] || |MainList(st', c)| == cap)
  }

  lemma BatchFull(cap: nat, st: State, st': State, t: ActId, c: Cpu, p: Pcs, barn: Barn)
    requires t in st.acts && st.acts[t].BulkFree? && p.main in st.sheaves && |st.sheaves[p.main]| <= cap
    requires BatchIn(cap, st, st', t, c, p, barn)
    ensures FilledTop(cap, st, st', t, c, st.sheaves[p.main]) && st'.barn == barn
  {
    hide FilledTop;
    var l, rest := st.sheaves[p.main], st.acts[t].rest;
    var n := |rest| - |st'.acts[t].rest|;
    assert MainList(st', c) == l + rest[..n];
    TopFilled(cap, st, st', t, c, l, n);
  }

  lemma TopFilled(cap: nat, st: State, st': State, t: ActId, c: Cpu, l: seq<Obj>, n: nat)
    requires t in st.acts && st.acts[t].BulkFree? && n <= |st.acts[t].rest| && |l| + n <= cap
    requires n == |st.acts[t].rest| || |l| + n == cap
    requires c in st'.pcs && t in st'.acts && st'.acts[t] == BulkFree(st.acts[t].rest[n..]) && st'.below == st.below
    requires MainList(st', c) == l + st.acts[t].rest[..n]
    ensures FilledTop(cap, st, st', t, c, l)
  {
    hide MainList;
    var rest := st.acts[t].rest;
    assert rest == rest[..n] + rest[n..];
  }

  lemma BatchFills(cap: nat, st: State, st': State, t: ActId, c: Cpu, r: Outcome)
    requires StepBulkFreeSheaf(cap, st, st', t, c, r) && HasEmpty(st.barn) == (st.barn.empty != [])
    requires st.barn.empty != [] ==> st.barn.empty[0] in st.sheaves && st.sheaves[st.barn.empty[0]] == []
    requires st.pcs[c].spare.Some? ==> st.pcs[c].spare.value in st.sheaves
    requires |MainList(st, c)| <= cap && |SpareList(st, c)| <= cap
    ensures |MainList(st, c)| < cap || SpareHasRoom(cap, st, c) || !r.Got? ==> st'.barn == st.barn
    ensures match Room(cap, st, c, r)
            case Some(l) => FilledTop(cap, st, st', t, c, l)
            case None => st' == st.(below := st.below + Elems(st.acts[t].rest), acts := st.acts[t := BulkFree([])])
  {
    hide BatchIn, FilledTop;
    var p := st.pcs[c];
    if |MainList(st, c)| < cap {
      BatchFull(cap, st, st', t, c, p, st.barn);
    } else if SpareHasRoom(cap, st, c) {
      BatchFull(cap, st, st', t, c, Swap(p), st.barn);
    } else if r.Got? && st.barn.empty != [] {
      if p.spare.None? {
        BatchFull(cap, st, st', t, c, p.(spare := Some(p.main), main := st.barn.empty[0]), TakeEmpty(st.barn));
      } else {
        BatchFull(cap, st, st', t, c, p.(main := st.barn.empty[0]), PutFullTo(TakeEmpty(st.barn), p.main));
      }
    }
  }
}
