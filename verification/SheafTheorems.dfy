/** The sheaf protocol over whole runs. */
module SheafTheorems {
  import opened Freelist
  import opened SheafMachine
  import opened SheafInvariant
  import opened SheafAlloc
  import opened SheafFree
  import opened SheafRcu
  import opened SheafBulk

  // ---- runs ----

  /** Any interleaving of the steps, from empty sheaves and an empty barn. */
  ghost predicate Run(cap: nat, states: seq<State>, events: seq<Label>)
  {
    && cap >= 1 && |states| == |events| + 1 && Init(states[0])
    && forall i :: 0 <= i < |events| ==> Step(cap, states[i], states[i + 1], events[i])
  }

  lemma PreserveAllocPath(cap: nat, st: State, w: Witness, st': State, ev: Label) returns (w': Witness)
    requires Inv(cap, st, w) && AllocPath(cap, st, st', ev)
    ensures Inv(cap, st', w') && SameObjs(w, w')
  {
    hide Inv, SameObjs, StepAllocEnter, StepHuntGiveUp, StepHuntTake, StepNewSheaf, StepNewSheafFails, StepRefillOne,
         StepRefillDone, StepRefillFails, StepRelock, StepPopObject;
    match ev
    case AllocEnter(t, c, miss) => w' := PreserveAllocEnter(cap, st, w, st', t, c, miss);
    case HuntGiveUp(t) => w' := PreserveHuntGiveUp(cap, st, w, st', t);
    case HuntTake(t, miss) => w' := PreserveHuntTake(cap, st, w, st', t, miss);
    case NewSheaf(t, e) => w' := PreserveNewSheaf(cap, st, w, st', t, e);
    case NewSheafFails(t) => w' := PreserveNewSheafFails(cap, st, w, st', t);
    case RefillOne(t, o) => w' := PreserveRefillOne(cap, st, w, st', t, o);
    case RefillDone(t) => w' := PreserveRefillDone(cap, st, w, st', t);
    case RefillFails(t) => w' := PreserveRefillFails(cap, st, w, st', t);
    case Relock(t, c) => w' := PreserveRelock(cap, st, w, st', t, c);
    case PopObject(t) => w' := PreservePopObject(cap, st, w, st', t);
  }

  lemma PreserveFreePath(cap: nat, st: State, w: Witness, st': State, ev: Label) returns (w': Witness)
    requires Inv(cap, st, w) && FreePath(cap, st, st', ev)
    ensures Inv(cap, st', w') && SameObjs(w, w')
  {
    hide Inv, SameObjs, StepFreeDirect, StepFreeEnter, StepReplaceFull, StepSpareFlushed, StepNewEmptyFails, StepInstall,
         StepInstallFails, StepPushObject, StepFlushStart, StepFlushTake, StepFlushBatch, StepFlushStop,
         StepFlushResume;
    match ev
    case FreeDirect(o) => w' := PreserveFreeDirect(cap, st, w, st', o);
    case FreeEnter(t, c, o) => w' := PreserveFreeEnter(cap, st, w, st', t, c, o);
    case ReplaceFull(t, r) => w' := PreserveReplaceFull(cap, st, w, st', t, r);
    case SpareFlushed(t) => w' := PreserveSpareFlushed(cap, st, w, st', t);
    case NewEmptyFails(t) => w' := PreserveNewEmptyFails(cap, st, w, st', t);
    case Install(t, c) => w' := PreserveInstall(cap, st, w, st', t, c);
    case InstallFails(t) => w' := PreserveInstallFails(cap, st, w, st', t);
    case PushObject(t) => w' := PreservePushObject(cap, st, w, st', t);
    case FlushStart(t) => w' := PreserveFlushStart(cap, st, w, st', t);
    case FlushTake(t, c) => w' := PreserveFlushTake(cap, st, w, st', t, c);
    case FlushBatch(t) => w' := PreserveFlushBatch(cap, st, w, st', t);
    case FlushStop(t) => w' := PreserveFlushStop(cap, st, w, st', t);
    case FlushResume(t, c) => w' := PreserveFlushResume(cap, st, w, st', t, c);
  }

  lemma PreserveRcuPath(cap: nat, st: State, w: Witness, st': State, ev: Label) returns (w': Witness)
    requires Inv(cap, st, w) && RcuPath(cap, st, st', ev)
    ensures Inv(cap, st', w') && SameObjs(w, w')
  {
    hide Inv, SameObjs, StepRcuEnter, StepRcuFails, StepRcuInstall, StepRcuPushObject, StepRcuFilter, StepRcuFinish,
         StepEmptyDone, StepFlushAndFree, StepFreeSheaf, StepFullDone, StepDetachSpare, StepDetachRcu,
         StepShrinkFull, StepShrinkEmpty;
    match ev
    case RcuEnter(t, c, o, miss) => w' := PreserveRcuEnter(cap, st, w, st', t, c, o, miss);
    case RcuFails(t) => w' := PreserveRcuFails(cap, st, w, st', t);
    case RcuInstall(t, c) => w' := PreserveRcuInstall(cap, st, w, st', t, c);
    case RcuPushObject(t) => w' := PreserveRcuPushObject(cap, st, w, st', t);
    case RcuFilter(t, kept, rejected) => w' := PreserveRcuFilter(cap, st, w, st', t, kept, rejected);
    case RcuFinish(t, tooMany) => w' := PreserveRcuFinish(cap, st, w, st', t, tooMany);
    case EmptyDone(t, tooMany) => w' := PreserveEmptyDone(cap, st, w, st', t, tooMany);
    case FlushAndFree(t) => w' := PreserveFlushAndFree(cap, st, w, st', t);
    case FreeSheaf(t) => w' := PreserveFreeSheaf(cap, st, w, st', t);
    case FullDone(t) => w' := PreserveFullDone(cap, st, w, st', t);
    case DetachSpare(t, c) => w' := PreserveDetachSpare(cap, st, w, st', t, c);
    case DetachRcu(t, c) => w' := PreserveDetachRcu(cap, st, w, st', t, c);
    case ShrinkFull(t) => w' := PreserveShrinkFull(cap, st, w, st', t);
    case ShrinkEmpty(t) => w' := PreserveShrinkEmpty(cap, st, w, st', t);
  }

  lemma PreserveBulkPath(cap: nat, st: State, w: Witness, st': State, ev: Label) returns (w': Witness)
    requires Inv(cap, st, w) && BulkPath(cap, st, st', ev)
    ensures Inv(cap, st', w') && SameObjs(w, w')
  {
    hide Inv, SameObjs, StepPrefillEnter, StepPrefillCheck, StepSheafAlloc, StepReturnSheaf, StepBulkAllocEnter,
         StepBulkAllocSheaf, StepBulkAllocNoLock, StepBulkAllocOne, StepBulkAllocDone, StepBulkAllocFails,
         StepBulkFreeEnter, StepBulkFreeSheaf, StepBulkFreeSlabs;
    match ev
    case PrefillEnter(t, c, size, miss) => w' := PreservePrefillEnter(cap, st, w, st', t, c, size, miss);
    case PrefillCheck(t) => w' := PreservePrefillCheck(cap, st, w, st', t);
    case SheafAlloc(t) => w' := PreserveSheafAlloc(cap, st, w, st', t);
    case ReturnSheaf(t, c, tooMany) => w' := PreserveReturnSheaf(cap, st, w, st', t, c, tooMany);
    case BulkAllocEnter(t, want) => w' := PreserveBulkAllocEnter(cap, st, w, st', t, want);
    case BulkAllocSheaf(t, c, miss) => w' := PreserveBulkAllocSheaf(cap, st, w, st', t, c, miss);
    case BulkAllocNoLock(t) => w' := PreserveBulkAllocNoLock(cap, st, w, st', t);
    case BulkAllocOne(t, o) => w' := PreserveBulkAllocOne(cap, st, w, st', t, o);
    case BulkAllocDone(t) => w' := PreserveBulkAllocDone(cap, st, w, st', t);
    case BulkAllocFails(t) => w' := PreserveBulkAllocFails(cap, st, w, st', t);
    case BulkFreeEnter(t, objs, rejected) => w' := PreserveBulkFreeEnter(cap, st, w, st', t, objs, rejected);
    case BulkFreeSheaf(t, c, r) => w' := PreserveBulkFreeSheaf(cap, st, w, st', t, c, r);
    case BulkFreeSlabs(t) => w' := PreserveBulkFreeSlabs(cap, st, w, st', t);
  }

  lemma PreserveStep(cap: nat, st: State, w: Witness, st': State, ev: Label) returns (w': Witness)
    requires Inv(cap, st, w) && Step(cap, st, st', ev)
    ensures Inv(cap, st', w') && SameObjs(w, w')
  {
    hide Inv, SameObjs, AllocPath, FreePath, RcuPath, BulkPath;
    if AllocPath(cap, st, st', ev) {
      w' := PreserveAllocPath(cap, st, w, st', ev);
    } else if FreePath(cap, st, st', ev) {
      w' := PreserveFreePath(cap, st, w, st', ev);
    } else if RcuPath(cap, st, st', ev) {
      w' := PreserveRcuPath(cap, st, w, st', ev);
    } else {
      w' := PreserveBulkPath(cap, st, w, st', ev);
    }
  }

  lemma InitInv(cap: nat, st: State) returns (w: Witness)
    requires cap >= 1 && Init(st)
    ensures Inv(cap, st, w) && w.loc.Keys == st.below
  {
    w := Witness(map e | e in st.sheaves :: MainOf(OwnerCpu(st, e)), map o | o in st.below :: Below);
    forall p, e ensures Owns(st, p, e) <==> e in w.place && w.place[e] == p {
    }
  }

  ghost function OwnerCpu(st: State, e: SheafId): (c: Cpu)
    requires Init(st) && e in st.sheaves
    ensures c in st.pcs && st.pcs[c].main == e
  {
    var c :| c in st.pcs && st.pcs[c].main == e;
    c
  }

  lemma {:induction false} RunInv(cap: nat, states: seq<State>, events: seq<Label>, i: nat) returns (w: Witness)
    requires Run(cap, states, events) && i < |states|
    ensures Inv(cap, states[i], w) && w.loc.Keys == states[0].below
  {
    hide Inv, Step, Init;
    if i == 0 {
      w := InitInv(cap, states[0]);
    } else {
      var u := RunInv(cap, states, events, i - 1);
      w := PreserveStep(cap, states[i - 1], u, states[i], events[i - 1]);
    }
  }

  // ---- ownership ----

  /** In every state of every run, a live sheaf is in exactly one place: one slot of one cpu, one list
      of the barn, or one activation's hand; nothing refers to a freed sheaf; the barn counts right. */
  lemma EverySheafHasOneOwner(cap: nat, states: seq<State>, events: seq<Label>, i: nat)
    requires Run(cap, states, events) && i < |states|
    ensures forall e :: e in states[i].sheaves ==> exists p :: Owns(states[i], p, e)
    ensures forall p, q, e :: Owns(states[i], p, e) && Owns(states[i], q, e) ==> p == q
    ensures forall p, e :: Owns(states[i], p, e) ==> e in states[i].sheaves
    ensures NoDup(states[i].barn.full) && states[i].barn.nrFull == |states[i].barn.full|
    ensures NoDup(states[i].barn.empty) && states[i].barn.nrEmpty == |states[i].barn.empty|
  {
    hide Run, Owns, ObjInv, LockInv, SizeInv;
    var w := RunInv(cap, states, events, i);
    forall e | e in states[i].sheaves ensures exists p :: Owns(states[i], p, e) {
      assert Owns(states[i], w.place[e], e);
    }
  }

  // ---- sizes ----

  /** In every state of every run, sheaves have sizes that fit their roles. */
  lemma SizesFitRoles(cap: nat, states: seq<State>, events: seq<Label>, i: nat, p: Place, e: SheafId)
    requires Run(cap, states, events) && i < |states| && Owns(states[i], p, e)
    ensures e in states[i].sheaves && |states[i].sheaves[e]| <= cap
    ensures p == BarnEmpty ==> |states[i].sheaves[e]| == 0
    ensures p == BarnFull ==> |states[i].sheaves[e]| >= 1
    ensures p.RcuOf? ==> |states[i].sheaves[e]| < cap
  {
    hide Run, ObjInv, LockInv, ActInv, Owns;
    var w := RunInv(cap, states, events, i);
  }

  /** Whatever happened while the lock was dropped: an activation that comes back from
      __pcs_replace_empty_main holds the lock of a cpu whose main sheaf has an object, one that comes
      back from __pcs_replace_full_main that of a cpu whose main sheaf has room, and a kfree_rcu sheaf
      has room.  So no index leaves its array.  A refill delivers a full sheaf and never more than that, a sheaf goes to
      call_rcu when it is full, and a flush never has more than 32 objects on the stack. */
  lemma ReplacementsDeliver(cap: nat, states: seq<State>, events: seq<Label>, i: nat, t: ActId)
    requires Run(cap, states, events) && i < |states| && t in states[i].acts
    ensures var st, a := states[i], states[i].acts[t];
      && (a.Pop? ==> Locked(st, a.cpu, t) && 0 < |st.sheaves[st.pcs[a.cpu].main]| <= cap)
      && (a.Push? ==> Locked(st, a.cpu, t) && |st.sheaves[st.pcs[a.cpu].main]| < cap)
      && (a.RcuPush? ==>
            && Locked(st, a.cpu, t) && st.pcs[a.cpu].rcuFree.Some?
            && st.pcs[a.cpu].rcuFree.value in st.sheaves && |st.sheaves[st.pcs[a.cpu].rcuFree.value]| < cap)
      && (a.FreeEmpty? ==> a.sheaf in st.sheaves && st.sheaves[a.sheaf] == [])
      && (a.Refill? ==> a.sheaf in st.sheaves && |st.sheaves[a.sheaf]| + |a.got| <= cap)
      && (a.HaveFull? || a.PutFull? || (a.RcuSheaf? && a.barn) ==> a.sheaf in st.sheaves && |st.sheaves[a.sheaf]| == cap)
      && (a.FlushMain? ==> |a.batch| <= 32)
  {
    hide Run, Inv;
    var w := RunInv(cap, states, events, i);
    ActFacts(cap, states[i], w, t);
    if LockOf(states[i].acts[t]).Some? { CpuFacts(cap, states[i], w, LockOf(states[i].acts[t]).value); }
  }

  /** Nobody else holds a lock that is held: the activation `t` and the cpu `c` know each other. */
  lemma LocksExclude(cap: nat, states: seq<State>, events: seq<Label>, i: nat, t: ActId, u: ActId)
    requires Run(cap, states, events) && i < |states| && t in states[i].acts && u in states[i].acts
    requires LockOf(states[i].acts[t]).Some? && LockOf(states[i].acts[u]) == LockOf(states[i].acts[t])
    ensures t == u
  {
    hide Run, Inv;
    var w := RunInv(cap, states, events, i);
    ActFacts(cap, states[i], w, t);
    ActFacts(cap, states[i], w, u);
  }

  /** An activation that holds a lock can always go on, so no guard of the model hides a case the code would meet. */
  lemma LockedSectionsGoOn(cap: nat, states: seq<State>, events: seq<Label>, i: nat, t: ActId) returns (ev: Label, st': State)
    requires Run(cap, states, events) && i < |states| && t in states[i].acts && LockOf(states[i].acts[t]).Some?
    ensures Step(cap, states[i], st', ev) && !ev.FreeDirect? && ev.t == t
    ensures t !in st'.acts || st'.acts[t] != states[i].acts[t]
  {
    hide Run, Inv;
    var w := RunInv(cap, states, events, i);
    ActFacts(cap, states[i], w, t);
    CpuFacts(cap, states[i], w, LockOf(states[i].acts[t]).value);
    ev, st' := NextStep(cap, states[i], t);
  }

  lemma NextStep(cap: nat, st: State, t: ActId) returns (ev: Label, st': State)
    requires t in st.acts && LockOf(st.acts[t]).Some? && Locked(st, LockOf(st.acts[t]).value, t) && ActInv(cap, st, st.acts[t])
    requires var p := st.pcs[LockOf(st.acts[t]).value];
      (p.rcuFree.Some? ==> p.rcuFree.value in st.sheaves) && (p.spare.Some? ==> p.spare.value in st.sheaves)
    ensures Step(cap, st, st', ev) && !ev.FreeDirect? && ev.t == t
    ensures t !in st'.acts || st'.acts[t] != st.acts[t]
  {
    hide AllocPath, FreePath, RcuPath, BulkPath;
    var c := LockOf(st.acts[t]).value;
    var p := st.pcs[c];
    match st.acts[t]
    case Hunt(_) =>
      ev, st' := HuntGiveUp(t), st.(pcs := st.pcs[c := p.(lock := None)], acts := st.acts - {t});
      assert AllocPath(cap, st, st', ev) by { AllocStep(cap, st, st', ev); }
    case Pop(_) =>
      var l := st.sheaves[p.main];
      ev, st' := PopObject(t), st.(
        sheaves := st.sheaves[p.main := l[..|l| - 1]], callers := st.callers + {Last(l)},
        pcs := st.pcs[c := p.(lock := None)], acts := st.acts - {t});
      assert AllocPath(cap, st, st', ev) by { AllocStep(cap, st, st', ev); }
    case Push(_, o) =>
      ev, st' := PushObject(t), st.(
        sheaves := st.sheaves[p.main := st.sheaves[p.main] + [o]], pcs := st.pcs[c := p.(lock := None)], acts := st.acts - {t});
      assert FreePath(cap, st, st', ev) by { FreeStep(cap, st, st', ev); }
    case FullMain(_, o) =>
      ev := ReplaceFull(t, NoSheaf);
      if p.spare.Some? && Size(st, p.spare.value) < cap {
        st' := st.(pcs := st.pcs[c := Swap(p)], acts := st.acts[t := Push(c, o)]);
      } else {
        st' := st.(pcs := st.pcs[c := p.(lock := None)], acts := st.acts[t := NeedEmpty(o)]);
      }
      assert FreePath(cap, st, st', ev) by { FreeStep(cap, st, st', ev); }
    case RcuPush(_, o) =>
      var e := p.rcuFree.value;
      var l := st.sheaves[e] + [o];
      ev := RcuPushObject(t);
      st' := if |l| < cap then st.(sheaves := st.sheaves[e := l], pcs := st.pcs[c := p.(lock := None)], acts := st.acts - {t})
             else st.(sheaves := st.sheaves[e := l], pcs := st.pcs[c := p.(rcuFree := None, lock := None)],
                      acts := st.acts[t := RcuSheaf(e, true)]);
      assert RcuPath(cap, st, st', ev) by { RcuStep(cap, st, st', ev); }
  }

  lemma AllocStep(cap: nat, st: State, st': State, ev: Label)
    requires (ev.HuntGiveUp? && StepHuntGiveUp(st, st', ev.t)) || (ev.PopObject? && StepPopObject(st, st', ev.t))
    ensures AllocPath(cap, st, st', ev)
  {
  }

  lemma FreeStep(cap: nat, st: State, st': State, ev: Label)
    requires (ev.PushObject? && StepPushObject(st, st', ev.t)) || (ev.ReplaceFull? && StepReplaceFull(cap, st, st', ev.t, ev.r))
    ensures FreePath(cap, st, st', ev)
  {
  }

  lemma RcuStep(cap: nat, st: State, st': State, ev: Label)
    requires ev.RcuPushObject? && StepRcuPushObject(cap, st, st', ev.t)
    ensures RcuPath(cap, st, st', ev)
  {
  }

  // ---- conservation ----

  /** In every state of every run, the objects are those of the first state and each has exactly one
      holder: the slab layer, a caller, the free hooks, one sheaf or one activation; none is in its
      sheaf or its activation's list twice. */
  lemma EveryObjectHasOneHolder(cap: nat, states: seq<State>, events: seq<Label>, i: nat)
    requires Run(cap, states, events) && i < |states|
    ensures forall o :: o in states[0].below <==> exists h :: Has(states[i], h, o)
    ensures forall g, h, o :: Has(states[i], g, o) && Has(states[i], h, o) ==> g == h
    ensures forall e :: e in states[i].sheaves ==> NoDup(states[i].sheaves[e])
    ensures forall t :: t in states[i].acts ==> NoDup(Load(states[i].acts[t]))
  {
    hide Run, OwnInv, LockInv, SizeInv, Has;
    var w := RunInv(cap, states, events, i);
    forall o ensures o in states[0].below <==> exists h :: Has(states[i], h, o) {
      if o in w.loc { assert Has(states[i], w.loc[o], o); }
    }
  }

  /** Only an empty sheaf is freed. */
  lemma FreedSheavesAreEmpty(cap: nat, states: seq<State>, events: seq<Label>, i: nat, t: ActId)
    requires Run(cap, states, events) && i < |events| && events[i] == FreeSheaf(t)
    ensures t in states[i].acts && states[i].acts[t].FreeEmpty?
    ensures states[i].acts[t].sheaf in states[i].sheaves && states[i].sheaves[states[i].acts[t].sheaf] == []
    ensures states[i].acts[t].sheaf !in states[i + 1].sheaves
  {
    assert Step(cap, states[i], states[i + 1], events[i]);
    ReplacementsDeliver(cap, states, events, i, t);
  }

  /** Callers only ever get objects that no caller has. */
  lemma NothingIsAllocatedTwice(cap: nat, states: seq<State>, events: seq<Label>, i: nat, t: ActId)
    requires Run(cap, states, events) && i < |events|
    ensures events[i] == PopObject(t) ==> exists o :: o !in states[i].callers && states[i + 1].callers == states[i].callers + {o}
    ensures events[i] == SheafAlloc(t) ==> exists o :: o !in states[i].callers && states[i + 1].callers == states[i].callers + {o}
  {
    var st, st' := states[i], states[i + 1];
    assert Step(cap, st, st', events[i]);
    hide Run, Step, Has, Owns, ActInv;
    var w := RunInv(cap, states, events, i);
    if events[i] == PopObject(t) {
      var m := st.pcs[st.acts[t].cpu].main;
      LastIsFresh(cap, st, w, m);
    }
    if events[i] == SheafAlloc(t) {
      LastIsFresh(cap, st, w, st.acts[t].sheaf);
    }
  }

  lemma LastIsFresh(cap: nat, st: State, w: Witness, e: SheafId)
    requires Inv(cap, st, w) && e in st.sheaves && st.sheaves[e] != []
    ensures Last(st.sheaves[e]) !in st.callers
  {
    assert Has(st, InSheaf(e), Last(st.sheaves[e]));
    assert Has(st, Callers, Last(st.sheaves[e])) ==> false;
  }

  // ---- bulk allocation ----

  /** The activation a step belongs to is the only one it changes. */
  lemma AllocActs(cap: nat, st: State, st': State, ev: Label)
    requires AllocPath(cap, st, st', ev)
    ensures !ev.FreeDirect? && Same(st.acts, st'.acts, ev.t) && (ev.t in st.acts ==> !Bulky(st.acts[ev.t]))
  {
  }

  lemma FreeActs(cap: nat, st: State, st': State, ev: Label)
    requires FreePath(cap, st, st', ev)
    ensures if ev.FreeDirect? then st'.acts == st.acts else Same(st.acts, st'.acts, ev.t) && (ev.t in st.acts ==> !Bulky(st.acts[ev.t]))
  {
  }

  lemma RcuActs(cap: nat, st: State, st': State, ev: Label)
    requires RcuPath(cap, st, st', ev)
    ensures !ev.FreeDirect? && Same(st.acts, st'.acts, ev.t) && (ev.t in st.acts ==> !Bulky(st.acts[ev.t]))
  {
  }

  predicate Bulky(a: Act)
  {
    a.BulkAlloc? || a.BulkSlab? || a.BulkFree?
  }

  /** A bulk activation changes only by its own steps. */
  lemma OwnBulkStep(cap: nat, st: State, st': State, ev: Label, t: ActId)
    requires Step(cap, st, st', ev) && t in st.acts && Bulky(st.acts[t])
    ensures (t in st'.acts && st'.acts[t] == st.acts[t]) || (BulkPath(cap, st, st', ev) && ev.t == t)
  {
    hide AllocPath, FreePath, RcuPath, BulkPath;
    if AllocPath(cap, st, st', ev) {
      AllocActs(cap, st, st', ev);
    } else if FreePath(cap, st, st', ev) {
      FreeActs(cap, st, st', ev);
    } else if RcuPath(cap, st, st', ev) {
      RcuActs(cap, st, st', ev);
    } else {
      BulkActs(cap, st, st', ev);
    }
  }

  lemma BulkActs(cap: nat, st: State, st': State, ev: Label)
    requires BulkPath(cap, st, st', ev)
    ensures !ev.FreeDirect? && Same(st.acts, st'.acts, ev.t)
  {
  }

  predicate Bulk(st: State, t: ActId, want: nat)
  {
    t in st.acts && (st.acts[t].BulkAlloc? || st.acts[t].BulkSlab?) && st.acts[t].want == want
  }

  lemma WantKept(cap: nat, st: State, st': State, ev: Label, t: ActId, want: nat)
    requires Step(cap, st, st', ev) && Bulk(st, t, want) && t in st'.acts
    ensures Bulk(st', t, want)
  {
    hide Step;
    OwnBulkStep(cap, st, st', ev, t);
  }

  lemma {:induction false} WantThrough(cap: nat, states: seq<State>, events: seq<Label>, i: nat, j: nat, t: ActId, want: nat)
    requires Run(cap, states, events) && i < j < |states| && events[i] == BulkAllocEnter(t, want)
    requires forall k :: i < k <= j ==> t in states[k].acts
    ensures Bulk(states[j], t, want)
  {
    assert Step(cap, states[j - 1], states[j], events[j - 1]);
    hide Step;
    if j > i + 1 {
      WantThrough(cap, states, events, i, j - 1, t, want);
      WantKept(cap, states[j - 1], states[j], events[j - 1], t, want);
    } else {
      EnterWants(cap, states[i], states[j], t, want);
    }
  }

  lemma EnterWants(cap: nat, st: State, st': State, t: ActId, want: nat)
    requires Step(cap, st, st', BulkAllocEnter(t, want))
    ensures Bulk(st', t, want)
  {
  }

  /** A bulk allocation of `want` objects that is entered in step i and ends in step j either gives its
      caller exactly `want` objects, distinct and none of them in use, or gives it nothing and
      returns every object it had obtained to the slab layer. */
  lemma BulkAllocIsAllOrNothing(cap: nat, states: seq<State>, events: seq<Label>, i: nat, j: nat, t: ActId, want: nat)
    requires Run(cap, states, events) && i < j < |events| && events[i] == BulkAllocEnter(t, want)
    requires (forall k :: i < k <= j ==> t in states[k].acts) && t !in states[j + 1].acts
    ensures var st, st', got := states[j], states[j + 1], Elems(Load(states[j].acts[t]));
      if events[j] == BulkAllocDone(t) then
        && |got| == want && got !! st.callers
        && st' == st.(callers := st.callers + got, acts := st.acts - {t})
      else
        && events[j] == BulkAllocFails(t) && got !! st.below
        && st' == st.(below := st.below + got, acts := st.acts - {t})
  {
    var st, st' := states[j], states[j + 1];
    WantThrough(cap, states, events, i, j, t, want);
    assert Step(cap, st, st', events[j]);
    var w := RunInv(cap, states, events, j);
    BulkEnds(cap, st, w, st', events[j], t, want);
  }

  lemma BulkEnds(cap: nat, st: State, w: Witness, st': State, ev: Label, t: ActId, want: nat)
    requires Inv(cap, st, w) && Step(cap, st, st', ev) && Bulk(st, t, want) && t !in st'.acts
    ensures var got := Elems(Load(st.acts[t]));
      if ev == BulkAllocDone(t) then
        && |got| == want && got !! st.callers
        && st' == st.(callers := st.callers + got, acts := st.acts - {t})
      else
        && ev == BulkAllocFails(t) && got !! st.below
        && st' == st.(below := st.below + got, acts := st.acts - {t})
  {
    hide Inv, Step, Elems, NoDup;
    ActFacts(cap, st, w, t);
    ObjFacts(cap, st, w);
    SetSize(Load(st.acts[t]));
    BulkEndEvents(cap, st, st', ev, t, want);
  }

  lemma BulkEndEvents(cap: nat, st: State, st': State, ev: Label, t: ActId, want: nat)
    requires Step(cap, st, st', ev) && Bulk(st, t, want) && t !in st'.acts
    ensures (ev == BulkAllocDone(t) && StepBulkAllocDone(st, st', t)) || (ev == BulkAllocFails(t) && StepBulkAllocFails(st, st', t))
  {
    hide Step;
    OwnBulkStep(cap, st, st', ev, t);
  }

  // ---- bulk free ----

  ghost predicate OneHolder(st: State, o: Obj)
  {
    forall g, h :: Has(st, g, o) && Has(st, h, o) ==> g == h
  }

  /** An object accepted by a bulk free stays with it until one step puts it in a sheaf or in the slab
      layer, and then that is the only place it is in. */
  lemma BulkFreeMovesOnce(cap: nat, states: seq<State>, events: seq<Label>, i: nat, t: ActId, o: Obj)
    requires Run(cap, states, events) && i < |events|
    requires t in states[i].acts && states[i].acts[t].BulkFree? && o in states[i].acts[t].rest
    ensures
      || (t in states[i + 1].acts && states[i + 1].acts[t].BulkFree? && o in states[i + 1].acts[t].rest)
      || o in states[i + 1].below
      || exists e :: Has(states[i + 1], InSheaf(e), o)
    ensures OneHolder(states[i + 1], o)
  {
    EveryObjectHasOneHolder(cap, states, events, i + 1);
    assert Step(cap, states[i], states[i + 1], events[i]);
    hide Run;
    BulkFreeStep(cap, states[i], states[i + 1], events[i], t, o);
  }

  lemma BulkFreeStep(cap: nat, st: State, st': State, ev: Label, t: ActId, o: Obj)
    requires Step(cap, st, st', ev) && t in st.acts && st.acts[t].BulkFree? && o in st.acts[t].rest
    ensures
      || (t in st'.acts && st'.acts[t].BulkFree? && o in st'.acts[t].rest)
      || o in st'.below
      || exists e :: Has(st', InSheaf(e), o)
  {
    hide Step, BatchIn, StepBulkFreeSheaf;
    OwnBulkStep(cap, st, st', ev, t);
    if BulkPath(cap, st, st', ev) && ev.BulkFreeSheaf? && ev.t == t {
      BulkFreeBatch(cap, st, st', t, ev.c, ev.r, o);
    }
  }

  lemma BulkFreeBatch(cap: nat, st: State, st': State, t: ActId, c: Cpu, r: Outcome, o: Obj)
    requires StepBulkFreeSheaf(cap, st, st', t, c, r) && o in st.acts[t].rest
    ensures
      || (t in st'.acts && st'.acts[t].BulkFree? && o in st'.acts[t].rest)
      || o in st'.below
      || exists e :: Has(st', InSheaf(e), o)
  {
    if o !in st'.below {
      var rest, m := st.acts[t].rest, st'.pcs[c].main;
      var n := |rest| - |st'.acts[t].rest|;
      assert rest == rest[..n] + rest[n..];
      assert o in rest[..n] ==> Has(st', InSheaf(m), o);
    }
  }
}
