/** Prefilled sheaves over whole runs: a sheaf handed out holds at least what was asked for, and gives that many
    objects to its holder, whatever anybody else does. */
module SheafPrefill {
  import opened Freelist
  import opened SheafMachine
  import opened SheafInvariant
  import opened SheafDelta
  import opened SheafTheorems

  lemma StepAt(cap: nat, states: seq<State>, events: seq<Label>, i: nat)
    requires Run(cap, states, events) && (i < |events| || i + 1 < |states|)
    ensures |states| == |events| + 1 && Step(cap, states[i], states[i + 1], events[i])
  {
  }

  /** An activation changes only by its own steps. */
  lemma OwnStep(cap: nat, st: State, st': State, ev: Label, t: ActId)
    requires Step(cap, st, st', ev) && t in st.acts
    ensures (t in st'.acts && st'.acts[t] == st.acts[t]) || (!ev.FreeDirect? && ev.t == t)
  {
    hide AllocPath, FreePath, RcuPath, BulkPath;
    if AllocPath(cap, st, st', ev) {
      AllocActs(cap, st, st', ev);
    } else if FreePath(cap, st, st', ev) {
      FreeActs(cap, st, st', ev);
    } else if RcuPath(cap, st, st', ev) {
      RcuActs(cap, st, st', ev);
    } else {
      BulkActs(cap, st, st', ev);
    }
  }

  // ---- the sheaf holds what was asked for ----

  /** kmem_cache_prefill_sheaf has not returned yet; in its last two phases it will return nothing. */
  predicate Filling(st: State, t: ActId, size: nat)
  {
    && t in st.acts
    && match st.acts[t]
       case PrefillNeed(n) => n == size
       case PrefillHave(_, n) => n == size
       case Refill(_, _, purpose) => purpose.ForPrefill?
       case FlushFree(_) => true
       case FreeEmpty(_) => true
       case _ => false
  }

  predicate Filled(st: State, t: ActId, size: nat)
  {
    && t in st.acts && st.acts[t].Prefilled?
    && st.acts[t].sheaf in st.sheaves && |st.sheaves[st.acts[t].sheaf]| >= size
  }

  lemma FillAlloc(cap: nat, st: State, st': State, ev: Label, t: ActId, size: nat)
    requires AllocPath(cap, st, st', ev) && !ev.FreeDirect? && ev.t == t && Filling(st, t, size) && size <= cap && t in st'.acts
    ensures Filling(st', t, size) || Filled(st', t, size)
  {
    hide AllocPath, Filled;
    if ev.NewSheaf? || ev.NewSheafFails? || ev.RefillOne? || ev.RefillDone? || ev.RefillFails? {
      FillGoesOn(cap, st, st', ev, t, size);
    } else {
      FillElsewhere(cap, st, st', ev, t, size);
    }
  }

  lemma FillGoesOn(cap: nat, st: State, st': State, ev: Label, t: ActId, size: nat)
    requires ev.NewSheaf? || ev.NewSheafFails? || ev.RefillOne? || ev.RefillDone? || ev.RefillFails?
    requires AllocPath(cap, st, st', ev) && ev.t == t && Filling(st, t, size) && size <= cap && t in st'.acts
    ensures Filling(st', t, size) || Filled(st', t, size)
  {
    hide StepAllocEnter, StepHuntGiveUp, StepHuntTake, StepRelock, StepPopObject;
  }

  lemma FillElsewhere(cap: nat, st: State, st': State, ev: Label, t: ActId, size: nat)
    requires !ev.NewSheaf? && !ev.NewSheafFails? && !ev.RefillOne? && !ev.RefillDone? && !ev.RefillFails?
    requires !ev.FreeDirect? && ev.t == t && Filling(st, t, size)
    ensures !AllocPath(cap, st, st', ev)
  {
    hide StepNewSheaf, StepNewSheafFails, StepRefillOne, StepRefillDone, StepRefillFails;
  }

  lemma FillRcu(cap: nat, st: State, st': State, ev: Label, t: ActId, size: nat)
    requires RcuPath(cap, st, st', ev) && !ev.FreeDirect? && ev.t == t && Filling(st, t, size) && t in st'.acts
    ensures Filling(st', t, size)
  {
  }

  lemma FillBulk(cap: nat, st: State, st': State, ev: Label, t: ActId, size: nat)
    requires BulkPath(cap, st, st', ev) && !ev.FreeDirect? && ev.t == t && Filling(st, t, size) && t in st'.acts
    requires Hand(st.acts[t]).Some? ==> Hand(st.acts[t]).value in st.sheaves
    ensures Filling(st', t, size) || Filled(st', t, size)
  {
  }

  lemma FillFree(cap: nat, st: State, st': State, ev: Label, t: ActId, size: nat)
    requires Filling(st, t, size) && !ev.FreeDirect? && ev.t == t
    ensures !FreePath(cap, st, st', ev)
  {
  }

  lemma FillStep(cap: nat, st: State, w: Witness, st': State, ev: Label, t: ActId, size: nat)
    requires Inv(cap, st, w) && Step(cap, st, st', ev) && Filling(st, t, size) && size <= cap && t in st'.acts
    ensures Filling(st', t, size) || Filled(st', t, size)
  {
    hide AllocPath, FreePath, RcuPath, BulkPath, Inv, Filled;
    OwnStep(cap, st, st', ev, t);
    ActFacts(cap, st, w, t);
    if !(t in st'.acts && st'.acts[t] == st.acts[t]) {
      FillFree(cap, st, st', ev, t, size);
      if AllocPath(cap, st, st', ev) {
        FillAlloc(cap, st, st', ev, t, size);
      } else if RcuPath(cap, st, st', ev) {
        FillRcu(cap, st, st', ev, t, size);
      } else {
        FillBulk(cap, st, st', ev, t, size);
      }
    }
  }

  lemma FillEnters(cap: nat, st: State, st': State, t: ActId, c: Cpu, size: nat, miss: bool)
    requires Step(cap, st, st', PrefillEnter(t, c, size, miss))
    ensures size <= cap && Filling(st', t, size)
  {
  }

  lemma {:induction false} FillThrough(cap: nat, states: seq<State>, events: seq<Label>, i: nat, j: nat, t: ActId, c: Cpu, size: nat, miss: bool)
    requires Run(cap, states, events) && i < j < |states| && events[i] == PrefillEnter(t, c, size, miss)
    requires forall k :: i < k <= j ==> t in states[k].acts
    requires forall k :: i < k < j ==> !states[k].acts[t].Prefilled?
    ensures size <= cap && (Filling(states[j], t, size) || Filled(states[j], t, size))
  {
    hide Step, Inv, Filling, Filled, Run;
    if j == i + 1 {
      StepAt(cap, states, events, i);
      FillEnters(cap, states[i], states[j], t, c, size, miss);
    } else {
      FillThrough(cap, states, events, i, j - 1, t, c, size, miss);
      var w := RunInv(cap, states, events, j - 1);
      StepAt(cap, states, events, j - 1);
      FilledIs(states[j - 1], t, size);
      FillStep(cap, states[j - 1], w, states[j], events[j - 1], t, size);
    }
  }

  lemma FilledIs(st: State, t: ActId, size: nat)
    ensures Filled(st, t, size) ==> t in st.acts && st.acts[t].Prefilled?
    ensures Filling(st, t, size) ==> t in st.acts && !st.acts[t].Prefilled?
  {
  }

  /** The sheaf that kmem_cache_prefill_sheaf(size) returns holds at least `size` objects, wherever it came from and
      whatever happened before it was returned. */
  lemma PrefilledHoldsEnough(cap: nat, states: seq<State>, events: seq<Label>, i: nat, j: nat, t: ActId, c: Cpu, size: nat, miss: bool)
    requires Run(cap, states, events) && i < j < |states| && events[i] == PrefillEnter(t, c, size, miss)
    requires forall k :: i < k <= j ==> t in states[k].acts
    requires (forall k :: i < k < j ==> !states[k].acts[t].Prefilled?) && states[j].acts[t].Prefilled?
    ensures states[j].acts[t].sheaf in states[j].sheaves && |states[j].sheaves[states[j].acts[t].sheaf]| >= size
  {
    hide Run;
    FillThrough(cap, states, events, i, j, t, c, size, miss);
    FilledIs(states[j], t, size);
  }

  // ---- and nobody else takes from it ----

  /** No cpu, no barn list and no other activation has sheaf `e`. */
  predicate OnlyIn(st: State, e: SheafId, t: ActId)
  {
    && e in st.sheaves && !Among(st.barn.full, e) && !Among(st.barn.empty, e)
    && (forall c :: c in st.pcs ==> st.pcs[c].main != e && st.pcs[c].spare != Some(e) && st.pcs[c].rcuFree != Some(e))
    && (forall u :: u in st.acts && u != t ==> Hand(st.acts[u]) != Some(e))
  }

  lemma HandOnlyIn(cap: nat, st: State, w: Witness, t: ActId, e: SheafId)
    requires Inv(cap, st, w) && t in st.acts && Hand(st.acts[t]) == Some(e)
    ensures OnlyIn(st, e, t)
  {
    hide ObjInv, LockInv, SizeInv;
    assert Owns(st, InAct(t), e);
    assert !Owns(st, BarnFull, e) && !Owns(st, BarnEmpty, e);
    forall c | c in st.pcs ensures st.pcs[c].main != e && st.pcs[c].spare != Some(e) && st.pcs[c].rcuFree != Some(e) {
      assert !Owns(st, MainOf(c), e) && !Owns(st, SpareOf(c), e) && !Owns(st, RcuOf(c), e);
    }
    forall u | u in st.acts && u != t ensures Hand(st.acts[u]) != Some(e) {
      assert !Owns(st, InAct(u), e);
    }
  }

  predicate SameSheaf(st: State, st': State, e: SheafId)
  {
    e in st.sheaves && e in st'.sheaves && st'.sheaves[e] == st.sheaves[e]
  }

  /** The events of the first two paths that put objects into a sheaf or take them out. */
  predicate Fills(ev: Label)
  {
    ev.NewSheaf? || ev.RefillDone? || ev.PopObject? || ev.SpareFlushed? || ev.PushObject? || ev.FlushTake?
  }

  lemma AllocLeaves(cap: nat, st: State, st': State, ev: Label, e: SheafId, t: ActId)
    requires AllocPath(cap, st, st', ev) && OnlyIn(st, e, t) && (ev.FreeDirect? || ev.t != t)
    ensures SameSheaf(st, st', e)
  {
    hide AllocPath, OnlyIn, SameSheaf;
    if Fills(ev) {
      AllocFills(cap, st, st', ev, e, t);
    } else {
      AllocKeeps(cap, st, st', ev);
      Unchanged(st, st', e, t);
    }
  }

  lemma Unchanged(st: State, st': State, e: SheafId, t: ActId)
    requires OnlyIn(st, e, t) && st'.sheaves == st.sheaves
    ensures SameSheaf(st, st', e)
  {
  }

  lemma AllocFills(cap: nat, st: State, st': State, ev: Label, e: SheafId, t: ActId)
    requires AllocPath(cap, st, st', ev) && Fills(ev) && OnlyIn(st, e, t) && (ev.FreeDirect? || ev.t != t)
    ensures SameSheaf(st, st', e)
  {
    hide StepAllocEnter, StepHuntGiveUp, StepHuntTake, StepNewSheafFails, StepRefillOne, StepRefillFails, StepRelock;
  }

  lemma AllocKeeps(cap: nat, st: State, st': State, ev: Label)
    requires AllocPath(cap, st, st', ev) && !Fills(ev)
    ensures st'.sheaves == st.sheaves
  {
    hide StepNewSheaf, StepRefillDone, StepPopObject;
  }

  lemma FreeLeaves(cap: nat, st: State, st': State, ev: Label, e: SheafId, t: ActId)
    requires FreePath(cap, st, st', ev) && OnlyIn(st, e, t) && (ev.FreeDirect? || ev.t != t)
    ensures SameSheaf(st, st', e)
  {
    hide FreePath, OnlyIn, SameSheaf;
    if Fills(ev) {
      FreeFills(cap, st, st', ev, e, t);
    } else {
      FreeKeeps(cap, st, st', ev);
      Unchanged(st, st', e, t);
    }
  }

  lemma FreeFills(cap: nat, st: State, st': State, ev: Label, e: SheafId, t: ActId)
    requires FreePath(cap, st, st', ev) && Fills(ev) && OnlyIn(st, e, t) && (ev.FreeDirect? || ev.t != t)
    ensures SameSheaf(st, st', e)
  {
    hide StepFreeDirect, StepFreeEnter, StepReplaceFull, StepNewEmptyFails, StepInstall, StepInstallFails, StepFlushStart,
         StepFlushBatch, StepFlushStop, StepFlushResume;
  }

  lemma FreeKeeps(cap: nat, st: State, st': State, ev: Label)
    requires FreePath(cap, st, st', ev) && !Fills(ev)
    ensures st'.sheaves == st.sheaves
  {
    hide StepSpareFlushed, StepPushObject, StepFlushTake;
  }

  lemma RcuLeaves(cap: nat, st: State, st': State, ev: Label, e: SheafId, t: ActId)
    requires RcuPath(cap, st, st', ev) && OnlyIn(st, e, t) && (ev.FreeDirect? || ev.t != t)
    ensures SameSheaf(st, st', e)
  {
  }

  lemma BulkLeaves(cap: nat, st: State, st': State, ev: Label, e: SheafId, t: ActId)
    requires BulkPath(cap, st, st', ev) && OnlyIn(st, e, t) && (ev.FreeDirect? || ev.t != t)
    ensures SameSheaf(st, st', e)
  {
    if ev.BulkAllocSheaf? && HasFull(st.barn) { assert Among(st.barn.full, st.barn.full[0]); }
    if ev.BulkFreeSheaf? && HasEmpty(st.barn) { assert Among(st.barn.empty, st.barn.empty[0]); }
  }

  /** A step of anybody else leaves the sheaf in an activation's hand as it is. */
  lemma OthersLeaveIt(cap: nat, st: State, st': State, ev: Label, e: SheafId, t: ActId)
    requires Step(cap, st, st', ev) && OnlyIn(st, e, t) && (ev.FreeDirect? || ev.t != t)
    ensures SameSheaf(st, st', e)
  {
    hide AllocPath, FreePath, RcuPath, BulkPath, OnlyIn, SameSheaf;
    if AllocPath(cap, st, st', ev) {
      AllocLeaves(cap, st, st', ev, e, t);
    } else if FreePath(cap, st, st', ev) {
      FreeLeaves(cap, st, st', ev, e, t);
    } else if RcuPath(cap, st, st', ev) {
      RcuLeaves(cap, st, st', ev, e, t);
    } else {
      BulkLeaves(cap, st, st', ev, e, t);
    }
  }

  /** How often `t` has allocated from its sheaf in steps i to j. */
  function Taken(events: seq<Label>, t: ActId, i: nat, j: nat): nat
    requires i <= j <= |events|
    decreases j - i
  {
    if i == j then 0 else Taken(events, t, i, j - 1) + (if events[j - 1] == SheafAlloc(t) then 1 else 0)
  }

  lemma HolderStep(cap: nat, st: State, w: Witness, st': State, ev: Label, t: ActId)
    requires Inv(cap, st, w) && Step(cap, st, st', ev) && t in st.acts && st.acts[t].Prefilled?
    requires t in st'.acts && st'.acts[t].Prefilled?
    ensures st'.acts[t] == st.acts[t] && st.acts[t].sheaf in st.sheaves && st.acts[t].sheaf in st'.sheaves
    ensures var l, l' := st.sheaves[st.acts[t].sheaf], st'.sheaves[st.acts[t].sheaf];
      if ev == SheafAlloc(t) then |l| > 0 && |l'| == |l| - 1 else l' == l
  {
    hide Step, Inv, OnlyIn;
    OwnStep(cap, st, st', ev, t);
    ActFacts(cap, st, w, t);
    HandOnlyIn(cap, st, w, t, st.acts[t].sheaf);
    if !ev.FreeDirect? && ev.t == t {
      HolderOwnStep(cap, st, st', ev, t);
    } else {
      OthersLeaveIt(cap, st, st', ev, st.acts[t].sheaf, t);
    }
  }

  lemma HolderOwnStep(cap: nat, st: State, st': State, ev: Label, t: ActId)
    requires Step(cap, st, st', ev) && !ev.FreeDirect? && ev.t == t && t in st.acts && st.acts[t].Prefilled?
    requires t in st'.acts && st'.acts[t].Prefilled?
    ensures ev == SheafAlloc(t) && StepSheafAlloc(st, st', t)
  {
    hide AllocPath, FreePath, RcuPath, BulkPath, StepSheafAlloc;
    if AllocPath(cap, st, st', ev) {
      NoHolderAlloc(cap, st, st', ev, t);
    } else if FreePath(cap, st, st', ev) {
      NoHolderFree(cap, st, st', ev, t);
    } else if RcuPath(cap, st, st', ev) {
      NoHolderRcu(cap, st, st', ev, t);
    } else {
      HolderBulk(cap, st, st', ev, t);
    }
  }

  /** The holder of a prefilled sheaf is in none of the other paths. */
  lemma NoHolderAlloc(cap: nat, st: State, st': State, ev: Label, t: ActId)
    requires !ev.FreeDirect? && ev.t == t && t in st.acts && st.acts[t].Prefilled?
    ensures !AllocPath(cap, st, st', ev)
  {
  }

  lemma NoHolderFree(cap: nat, st: State, st': State, ev: Label, t: ActId)
    requires !ev.FreeDirect? && ev.t == t && t in st.acts && st.acts[t].Prefilled?
    ensures !FreePath(cap, st, st', ev)
  {
  }

  lemma NoHolderRcu(cap: nat, st: State, st': State, ev: Label, t: ActId)
    requires !ev.FreeDirect? && ev.t == t && t in st.acts && st.acts[t].Prefilled?
    ensures !RcuPath(cap, st, st', ev)
  {
  }

  lemma HolderBulk(cap: nat, st: State, st': State, ev: Label, t: ActId)
    requires BulkPath(cap, st, st', ev) && !ev.FreeDirect? && ev.t == t && t in st.acts && st.acts[t].Prefilled?
    requires t in st'.acts && st'.acts[t].Prefilled?
    ensures ev == SheafAlloc(t) && StepSheafAlloc(st, st', t)
  {
  }

  lemma {:induction false} SheafLasts(cap: nat, states: seq<State>, events: seq<Label>, i: nat, j: nat, t: ActId)
    requires Run(cap, states, events) && i <= j < |states|
    requires forall k :: i <= k <= j ==> t in states[k].acts && states[k].acts[t].Prefilled?
    ensures states[j].acts[t] == states[i].acts[t]
    ensures states[i].acts[t].sheaf in states[i].sheaves && states[j].acts[t].sheaf in states[j].sheaves
    ensures |states[j].sheaves[states[j].acts[t].sheaf]| + Taken(events, t, i, j) == |states[i].sheaves[states[i].acts[t].sheaf]|
    decreases j - i
  {
    hide Step, Inv, Run;
    if i == j {
      var w := RunInv(cap, states, events, i);
      ActFacts(cap, states[i], w, t);
    } else {
      SheafLasts(cap, states, events, i, j - 1, t);
      var w := RunInv(cap, states, events, j - 1);
      StepAt(cap, states, events, j - 1);
      HolderStep(cap, states[j - 1], w, states[j], events[j - 1], t);
    }
  }

  /** A sheaf prefilled for `size` objects gives its holder `size` of them: as long as fewer have been taken, one more
      can be, in any run and whatever the other activations do. */
  lemma PrefillIsAGuarantee(cap: nat, states: seq<State>, events: seq<Label>, i: nat, j: nat, n: nat, t: ActId, c: Cpu, size: nat, miss: bool)
      returns (st': State)
    requires Run(cap, states, events) && i < j <= n < |states| && events[i] == PrefillEnter(t, c, size, miss)
    requires forall k :: i < k <= n ==> t in states[k].acts
    requires forall k :: i < k < j ==> !states[k].acts[t].Prefilled?
    requires forall k :: j <= k <= n ==> states[k].acts[t].Prefilled?
    requires Taken(events, t, j, n) < size
    ensures Step(cap, states[n], st', SheafAlloc(t))
    ensures exists o :: o !in states[n].callers && st'.callers == states[n].callers + {o}
  {
    hide Run, Step, Inv;
    PrefilledHoldsEnough(cap, states, events, i, j, t, c, size, miss);
    SheafLasts(cap, states, events, j, n, t);
    var st := states[n];
    var l := st.sheaves[st.acts[t].sheaf];
    st' := st.(sheaves := st.sheaves[st.acts[t].sheaf := l[..|l| - 1]], callers := st.callers + {Last(l)});
    SheafAllocSteps(cap, st, st', t);
    var w := RunInv(cap, states, events, n);
    LastIsFresh(cap, st, w, st.acts[t].sheaf);
  }

  lemma SheafAllocSteps(cap: nat, st: State, st': State, t: ActId)
    requires StepSheafAlloc(st, st', t)
    ensures Step(cap, st, st', SheafAlloc(t))
  {
    assert BulkPath(cap, st, st', SheafAlloc(t));
  }
}
