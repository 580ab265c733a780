# Verified models of a kernel allocator, a heap, a generator and a formatter

The project models the hard parts of an operating-system course repository in Dafny and proves what they promise.

* **The SLUB slab protocol** (`lab2/reference/slub.c`) is a state machine: slabs with free lists threaded through their
  objects, per-cpu slabs with the lockless (freelist, tid) fast path, per-cpu partial chains, the node's partial list,
  and activations in the middle of an operation.  One step is one successful compare-and-exchange, one locked section,
  or one read of the fast path.  Any interleaving of the steps is a run.  `SlubMachine` has the steps, `SlubInvariant`
  what they keep, `SlubFrame` to `SlubFree` the preservation proofs, `SlubTheorems`, `SlubOutcomes`
  (which way each decision goes) and `SlubProgress` the results over runs.
* **The sheaf and barn protocol** above it (same file) is a second state machine: arrays of objects that cpus, the
  node's barn and activations exchange, with the local lock dropped and retaken midway.  `SheafMachine`,
  `SheafInvariant`, `SheafDelta` to `SheafBulk`, `SheafTheorems`, `SheafPrefill`, `SheafOutcomes`.
* **Sequential algorithms of the same file**: gathering objects of one slab into a detached free list and the bulk-free
  loop (`DetachedFreelist`), repair of a corrupt free list (`FreelistRepair`), the shuffled free list (`Shuffle`),
  order selection (`SlabOrder`), object layout (`ObjectLayout`), the sorting shrink (`Shrink`).
* **The skew heap** (`lab6/libs/skew_heap.h`) on mutable linked entries, with order and amortised cost (`SkewHeap`,
  `SkewHeapLaws`).
* **The 48-bit linear congruential generator** (`lab6/libs/rand.c`) with its full period (`Rand`).
* **The formatter and strtol** (`lab6/libs/printfmt.c`, `lab6/libs/string.c`) with the bounded sink, the round trips
  and what every directive prints (`PrintNumber`, `PrintFormat`, `PrintLaws`, `Strtol`, `StrtolLaws`).

`Freelist`, `Lists` and `Powers` hold the lists, sequences and divisibility facts the others share.
`dafny verify dfyconfig.toml` checks everything.

The state machines keep no record of who owns what beyond the source's own pointers, flags, counters and local
variables; two fields of a slab, `live` and `pend`, say which objects callers hold or are giving back, since the source
has no such variable.  Each invariant is stated with a witness (places, list contents) that the preservation lemmas
return; the theorems over runs do not mention it.

Where code and documentation differ the models follow the code: `rand` returns 1 to RAND_MAX, never 0, because `do_div`
does not put its divisor in parentheses; a spare sheaf may be partly filled, although its comment says empty or full;
the flag `-` makes `printnum` pad on the left with minus signs; `vsnprintf` with size 0 returns `-E_INVAL`; `strtol` takes
only a lower-case `0x` as prefix and does not detect overflow.

## Model

| member | source | states |
|---|---|---|
| `SlubTheorems.EverySlabHasOnePlace` | lab2/reference/slub.c:99-103 | in every state of every run each slab is in exactly one place (frozen on one cpu, being adopted, on the node list, on one cpu's partial chain, full and unlisted, or in one activation's hands) with the flags and lists the scheme prescribes for it; no list names a slab twice, nr_partial is the length of the node list, and no activation holds a slab that is gone |
| `SlubTheorems.EveryObjectHasOneList` | lab2/reference/slub.c:4370-4420 | both free lists of a slab end in NULL inside the slab and, with the objects callers hold and those being freed, partition its objects without duplicates; inuse plus the length of the slab's list is objects |
| `SlubTheorems.AllocationsAreFresh` | lab2/reference/slub.c:4441-4711 | every allocation, lockless, locked, bulk or from a slab being loaded, returns an object of an existing slab that no caller holds and nobody is freeing |
| `SlubTheorems.DiscardsAreEmpty` | lab2/reference/slub.c:3821-3860 | a slab is discarded only while it exists and only when no object of it is held or being freed |
| `SlubTheorems.AllocExchangeIsPop` | lab2/reference/slub.c:4763-4858 | a lockless allocation whose cpu has the list and tid it read, however stale its reads, takes the first object of the cpu's list as it is then and leaves the rest; with another list or tid it changes nothing and starts over |
| `SlubTheorems.FreeExchangeIsPush` | lab2/reference/slub.c:6518-6594 | a lockless free whose cpu has the list and tid it read puts its objects, in order, in front of the list of a cpu whose slab is still theirs; with another list or tid it changes nothing and starts over |
| `SlubTheorems.SlowExchangeIsPush` | lab2/reference/slub.c:5858-5891 | a slow free whose compare-and-exchange succeeds puts its objects, in order, in front of the slab's list and lowers inuse by their number, whatever happened to the slab since the list was read |
| `SlubTheorems.UnfreezeGivesBack` | lab2/reference/slub.c:3699-3777 | deactivation leaves the slab unfrozen with the cpu's remaining list in front of whatever was freed to the slab meanwhile, and goes on with the number of objects then in use exactly if one is free |
| `SlubTheorems.FreezeTakesAll` | lab2/reference/slub.c:4398-4420 | freezing takes the whole list, which is not empty, and leaves none |
| `SlubOutcomes.SlowFreeSettles` | lab2/reference/slub.c:5838-5948 | in every run, a slow free is retried, changing nothing, exactly if the slab's pair changed; otherwise a frozen slab stays with its cpu, a full one goes to a cpu partial list, a listed one of which every object is now free is taken off the list and discarded exactly if the list has at least min_partial slabs, and any other stays where it is with the list and its count unchanged |
| `SlubOutcomes.DeactivationSettles` | lab2/reference/slub.c:3765-3776 | a deactivated slab with a free object is discarded exactly if no object was in use when it was unfrozen, which is then still so, and the list has at least min_partial slabs; otherwise it is to be listed |
| `SlubOutcomes.KeptSlabsAreListed` | lab2/reference/slub.c:3769-3773 | a deactivated slab that is kept joins the partial list at one end and is counted |
| `SlubOutcomes.PutBackSettles` | lab2/reference/slub.c:3821-3860 | a slab of a chain that is put back is set aside to be discarded exactly if all its objects are free and the list has at least min_partial slabs; otherwise it is put at the tail of the list and counted |
| `SlubOutcomes.CpuPartialListIsBounded` | lab2/reference/slub.c:3897-3935 | a slab put on a cpu partial list goes in front; the list it finds is handed to an activation that puts it back exactly if it has reached the limit, so the list has at most as many slabs as the limit, or one |
| `SlubOutcomes.WalkTakesItsShare` | lab2/reference/slub.c:3496-3514 | a walk over the partial list moves half the cpu limit and one more to the cpu partial list, none if the limit is 0, and fewer only where the list ends |
| `SlubOutcomes.WalksTakeTheHead` | lab2/reference/slub.c:3478-3514 | slabs are taken from the head of the list, the first for the caller, the next to the front of the cpu's list |
| `SlubOutcomes.SlowAllocationsFoundNothing` | lab2/reference/slub.c:4763-4858 | an allocation leaves the lockless path only if it read no object or no slab; if the cpu still has the tid it read, its free list is empty |
| `SlubOutcomes.FreesMatchTheirSlab` | lab2/reference/slub.c:6518-6594 | a free goes on without a lock exactly if the cpu it read works on the objects' slab |
| `SlubTheorems.EqualTidMeansUntouched` | lab2/reference/slub.c:3610-3639 | over any stretch of a run, a cpu outside its sections that has the tid it had before has the free list and slab it had before |
| `SlubTheorems.TidNamesCpu` | lab2/reference/slub.c:3610-3639 | tids stay congruent to the cpu number, so two cpus never have the same tid |
| `SlubTheorems.StepAdvances` | lab2/reference/slub.c:4350-4360 | each kind of step that changes a cpu's list or slab has advanced the tid when the section ends |
| `SlubTheorems.AssertionsHold` | lab2/reference/slub.c:4398-4420 | in every state of every run the slab a deactivation, freeze or load works on, in an activation or in a cpu's section, exists and is frozen or not as the code asserts; lists it must find non-empty are non-empty; a listed slab is not full |
| `SlubProgress.GuardsHold` | lab2/reference/slub.c:5838-5948 | in every state of every run the slabs an activation works on exist, the objects it frees or loads are objects of them, the list it has to walk ends in NULL, and the cpus it remembers exist |
| `SlubProgress.ActivationsGoOn` | lab2/reference/slub.c:3699-3935 | given a cpu outside its sections, without a slab if one is to be loaded, every activation of every run has a next step of its own that moves it on |
| `SlubProgress.SectionsGoOn` | lab2/reference/slub.c:4441-4711 | a cpu inside a section can always leave it, and its slab exists unless it has just been given up |
| `SlubTheorems.PreserveCpuPath` | lab2/reference/slub.c:4441-4711 | the steps of allocation on a cpu's own slab keep the invariant |
| `SlubTheorems.PreserveMovePath` | lab2/reference/slub.c:3699-3935 | deactivation, flushing, loading, taking and putting partial slabs keep the invariant |
| `SlubTheorems.PreserveNodePath` | lab2/reference/slub.c:3461-3517 | discarding, the walk over the node list, freezing and new slabs keep the invariant |
| `SlubTheorems.PreserveFreePath` | lab2/reference/slub.c:5838-5948 | both ways of freeing, writes by owners of objects, and shrinking keep the invariant (which way a free goes: `SlowFreeSettles`) |
| `SlubTheorems.RunInv` | lab2/reference/slub.c:80-103 | every state of every run from an empty cache satisfies the invariant |
| `SheafTheorems.EverySheafHasOneOwner` | lab2/reference/slub.c:2844-2994 | in every state of every run each live sheaf has exactly one owner (a slot of one cpu, one list of the barn, or one activation), nothing refers to a freed sheaf, and the barn's counters are the lengths of its lists, which have no duplicates |
| `SheafTheorems.SizesFitRoles` | lab2/reference/slub.c:6147-6284 | no sheaf exceeds the capacity, the barn's empty sheaves are empty, its full ones hold at least one object, and a kfree_rcu sheaf has room |
| `SheafTheorems.ReplacementsDeliver` | lab2/reference/slub.c:4977-5142 | whatever happened while the lock was dropped, an activation that returns from replacing the main sheaf holds the lock of a cpu whose main sheaf has an object, or room, as it needs; a sheaf about to be freed is empty; a refill stays within the capacity and delivers a full sheaf; a sheaf goes to call_rcu only when full; a flush has at most 32 objects on the stack |
| `SheafTheorems.LocksExclude` | lab2/reference/slub.c:6014-6110 | no two activations hold the local lock of the same cpu |
| `SheafTheorems.LockedSectionsGoOn` | lab2/reference/slub.c:5079-5149 | an activation that holds a local lock can always take its next step |
| `SheafTheorems.EveryObjectHasOneHolder` | lab2/reference/slub.c:2582-2714 | the objects are those of the first state, and at any time each is in exactly one of: slab layer, callers, the free hooks, one sheaf, one activation; never twice in the same |
| `SheafTheorems.FreedSheavesAreEmpty` | lab2/reference/slub.c:2597-2602 | free_empty_sheaf is only reached with an empty sheaf |
| `SheafTheorems.NothingIsAllocatedTwice` | lab2/reference/slub.c:5079-5149 | what alloc_from_pcs and kmem_cache_alloc_from_sheaf return is an object no caller has |
| `SheafTheorems.BulkAllocIsAllOrNothing` | lab2/reference/slub.c:7435-7472 | a bulk allocation, from its first to its last step in any run, gives its caller exactly the number asked for, distinct and none in use, or nothing with everything obtained back in the slab layer |
| `SheafTheorems.BulkFreeMovesOnce` | lab2/reference/slub.c:6296-6406 | an object accepted by a bulk free stays with it until one step puts it into one sheaf or into the slab layer, and is then nowhere else |
| `SheafPrefill.PrefilledHoldsEnough` | lab2/reference/slub.c:5326-5402 | in every run, the sheaf that a prefill of `size` returns holds at least `size` objects, wherever it came from |
| `SheafPrefill.PrefillIsAGuarantee` | lab2/reference/slub.c:5516-5535 | and as long as its holder has taken fewer than `size` of them, one more can be taken, an object no caller has, whatever other activations do |
| `SheafPrefill.OthersLeaveIt` | lab2/reference/slub.c:5326-5402 | no step of another activation touches the sheaf in an activation's hand |
| `SheafOutcomes.AllocationsLookNearFirst` | lab2/reference/slub.c:4977-5017 | an allocation uses the main sheaf if it has objects, else the spare if it has, else a full sheaf of the barn, and leaves this path exactly if there is none; the barn is asked only if both are empty |
| `SheafOutcomes.HuntsTakeASheafAlong` | lab2/reference/slub.c:5009-5021 | the sheaf to be refilled is the spare, else an empty one of the barn, and a new one is needed exactly if there is neither |
| `SheafOutcomes.RefilledSheavesFindAHome` | lab2/reference/slub.c:5046-5071 | a refilled sheaf becomes the main sheaf if that is empty, else the spare if there is none or it is empty, else goes to the barn; a slot with objects in it keeps its sheaf |
| `SheafOutcomes.SheavesAreStacks` | lab2/reference/slub.c:5128-5142 | what is allocated from a sheaf is what was put there last |
| `SheafOutcomes.FullSheavesAreReplaced` | lab2/reference/slub.c:6021-6066 | a free that finds the main sheaf full goes on at once exactly if the spare has room or the barn gives an empty sheaf, and asks the barn only if the spare has none; it gives up the spare only if that is full and the barn takes no more |
| `SheafOutcomes.EmptySheavesAreInstalled` | lab2/reference/slub.c:5968-6012 | an empty sheaf brought along becomes the main sheaf if there is no spare or both are full, and goes to the barn otherwise; the old main sheaf becomes the spare or, full beside a full spare, goes to the barn |
| `SheafOutcomes.FlushesTakeTheTop` | lab2/reference/slub.c:2646-2700 | a flush takes the last objects of the main sheaf, all of them up to 32, and goes on exactly if some are left |
| `SheafOutcomes.RcuFreesFindASheaf` | lab2/reference/slub.c:6203-6240 | a kfree_rcu uses the cpu's rcu sheaf, else an empty spare, else an empty sheaf of the barn |
| `SheafOutcomes.RcuSheavesLeaveWhenFull` | lab2/reference/slub.c:6255-6276 | the rcu sheaf is handed to call_rcu exactly when the object just put in has filled it |
| `SheafOutcomes.RcuSheavesReturn` | lab2/reference/slub.c:6147-6201 | after the grace period a sheaf with objects goes to the barn if that has room; otherwise its objects go back to their slabs |
| `SheafOutcomes.PrefillsLookNearFirst` | lab2/reference/slub.c:5369-5393 | a prefill starts from the spare, else a full, else an empty sheaf of the barn, else a new one |
| `SheafOutcomes.PrefillsRefillOnlyIfNeeded` | lab2/reference/slub.c:5395-5401 | the sheaf is handed out as it is exactly if it has the objects asked for |
| `SheafOutcomes.ReturnedSheavesBecomeSpare` | lab2/reference/slub.c:5419-5461 | a returned sheaf becomes the spare exactly if there is none; otherwise it is refilled for the barn or flushed and freed |
| `SheafOutcomes.BulkTakesTheTop` | lab2/reference/slub.c:5152-5209 | a bulk allocation takes from the sheaf a single one would use, from its top, until it has what it wants or the sheaf is empty, and turns to the slabs exactly if there is nothing to take |
| `SheafOutcomes.BulkFillsTheTop` | lab2/reference/slub.c:6334-6390 | a bulk free fills the main sheaf, else the spare, else an empty sheaf of the barn, in order, until it is full or nothing is left, and sends the rest to the slabs exactly if none has room |
| `SheafTheorems.PreserveAllocPath` | lab2/reference/slub.c:4977-5149 | the steps of alloc_from_pcs keep ownership, holders, locks and sizes |
| `SheafTheorems.PreserveFreePath` | lab2/reference/slub.c:5968-6138 | the steps of free_to_pcs and sheaf_flush_main keep them |
| `SheafTheorems.PreserveRcuPath` | lab2/reference/slub.c:6147-6284 | kfree_rcu, flushing, detaching, freeing and shrinking of sheaves keep them |
| `SheafTheorems.PreserveBulkPath` | lab2/reference/slub.c:5332-5461 | prefilled sheaves, bulk allocation and bulk free keep them (what they deliver: `PrefillIsAGuarantee`, `BulkAllocIsAllOrNothing`) |
| `SheafTheorems.RunInv` | lab2/reference/slub.c:2844-3022 | every state of every run satisfies the invariant, with the objects of the first state |
| `DetachedFreelist.BuildDetached` | lab2/reference/slub.c:7223-7279 | the array is permuted in place so that its end is, in order, exactly the objects of the last one's slab within the look-ahead, linked from head to tail, NULL-terminated and counted; at least one object is taken, other free pointers and array places stay; large objects are returned alone |
| `DetachedFreelist.ScanReaches` | lab2/reference/slub.c:7255-7276 | with fewer than three objects of other slabs nothing of the slab is left out |
| `DetachedFreelist.ScanLooks` | lab2/reference/slub.c:7255-7276 | the scan ends at the third object of another slab, or at the beginning |
| `DetachedFreelist.FreelistHook` | lab2/reference/slub.c:2527-2568 | the list becomes the reverse of the accepted objects, with matching head, tail and count, and the result says whether any is left; rejected objects keep their free pointers |
| `DetachedFreelist.FreeBulk` | lab2/reference/slub.c:7306-7332 | the bulk loop ends, and every object is given back in exactly one call, linked and counted within one slab and accepted by the hook, or kept back by the hook |
| `FreelistRepair.DebugSlab.OnFreelist` | lab2/reference/slub.c:1567-1622 | for any free pointers, dangling or cyclic, it ends; an object looked for is found exactly if a walk over valid pointers leads to it, and then nothing changes; otherwise the list ends up NULL-terminated, without duplicates, of valid objects, equal to the walked part or empty, with inuse plus its length equal to objects |
| `FreelistRepair.CycleIsTooLong` | lab2/reference/slub.c:1596-1602 | the walk exceeds the number of objects exactly if the chain of valid pointers is cyclic |
| `FreelistRepair.SlotIs` | lab2/reference/slub.c:1007-1024 | a pointer that passes check_valid_pointer is the address of one of the slab's objects |
| `Shuffle.Scale` | lab2/reference/slub.c:3072-3078 | the random sequence becomes one of byte offsets |
| `Shuffle.NextEntry` | lab2/reference/slub.c:3096-3115 | the skip loop ends and yields the next entry of the rotation that is inside the slab |
| `Shuffle.ShuffleFreelist` | lab2/reference/slub.c:3118-3149 | the free list is NULL-terminated and lists the objects in the order of the rotated permutation; free pointers of other objects stay |
| `Shuffle.OrderIsComplete` | lab2/reference/slub.c:3118-3149 | that order contains each object of the slab exactly once, from any start position |
| `Shuffle.FullOrder` | lab2/reference/slub.c:3118-3149 | in a slab of full size it is the precomputed order, from the start position on and round |
| `SlabOrder.WasteNeverGrows` | lab2/reference/slub.c:7581-7584 | doubling the slab never increases the fraction wasted |
| `SlabOrder.FitsUpward` | lab2/reference/slub.c:7581-7584 | an acceptable waste stays acceptable at higher orders |
| `SlabOrder.FitsMeans` | lab2/reference/slub.c:7538-7539 | the waste is acceptable exactly if what is left over, times the fraction, is at most the slab |
| `SlabOrder.MinObjects` | lab2/reference/slub.c:7552-7568 | as configured, or 4 (n + 1) with n bits in the number of cpus |
| `SlabOrder.CalcSlabOrder` | lab2/reference/slub.c:7524-7543 | the first order in the range with acceptable waste, or one past the range |
| `SlabOrder.CalculateOrder` | lab2/reference/slub.c:7545-7605 | for every order a 32-bit shift admits: refused exactly if the object fits neither the configured maximum nor MAX_PAGE_ORDER; an order that is returned holds 1 to 32767 objects if and only if orders of 20 and more are not configured, or the minimum order and the object allow a start below 20 and order 19 wastes at most a sixteenth; otherwise it is 20 or more and holds none; it is within the maximum if one object fits there; below order 20 it is then, of the orders from the minimum on that hold as many objects as wanted or as the maximum order holds, the smallest with least acceptable waste (1/16, 1/8, 1/4, 1/2 in turn), and if all of these hold more than 32767, the largest order below 32767 objects; with 20 and more configured the search begins at the least order that holds one object |
| `SlabOrder.StartIsLeast` | lab2/reference/slub.c:7569-7573 | the search begins at the least order, from the minimum on, that holds as many objects as wanted or as the maximum order holds |
| `SlabOrder.OrderTwentyIsEmpty` | lab2/reference/slub.c:8111-8119 | what calculate_order returns with orders from 20 on configured: with minimum and maximum 20 and size 8, order 20 and no object; with maximum 20 and size 1000000007, again order 20 and no object; with maximum 20 and size 8, order 0 and 512 objects |
| `SlabOrder.OoRoundTrip` | lab2/reference/slub.c:672-690 | order and object count survive packing, and cache->min holds at least one object and never more than cache->oo |
| `ObjectLayout.LayOut` | lab2/reference/slub.c:7820-7932 | for every object size: object, right red zone, free pointer, track records and orig_size lie in the slot without forbidden overlap, no slot is larger than needed, and the free pointer is outside exactly if it was relocated, all this if and only if the object is not of size 0 with neither red zone nor relocated free pointer; in that case it says when the records still fit; slots always keep the alignment, and a slot is empty exactly if in that case there are no records either; from the flags: with SLAB_TYPESAFE_BY_RCU, poisoning or a constructor, with red zones and orig_size, and with red zones on an object below 8 bytes, the free pointer is behind the object, otherwise it is the word around the object's middle; a red-zoned slot has a red zone on both sides and padding behind the records |
| `ObjectLayout.KmemCache.CalculateSizes` | lab2/reference/slub.c:7820-7958 | the layout above, the place of the free pointer from the flags included, together with packed orders that hold the objects and the order calculate_order promises; false exactly if no order will do or the order found holds no object |
| `ObjectLayout.OutsideTest` | lab2/reference/slub.c:644-647 | freeptr_outside_object tells whether the free pointer was relocated, except exactly for objects of size 0 without red zone whose free pointer was not relocated |
| `ObjectLayout.PointerFollowsFlags` | lab2/reference/slub.c:7861-7895 | flags and object size alone decide whether the free pointer is behind the object or in its middle |
| `ObjectLayout.SizeZero` | lab2/reference/slub.c:7852-7895 | the layout of objects of size 0: without flags the slot is empty, has no room for the free pointer, and the test calls it relocated; with a constructor everything is in place |
| `Shrink.Node.DoShrink` | lab2/reference/slub.c:8239-8280 | the new partial list is the buckets of fuller slabs, fullest first, then the others; the discarded slabs are the empty ones; nr_partial drops by their number |
| `Shrink.ShrinkSorts` | lab2/reference/slub.c:8218-8226 | that list is a permutation of the old one without exactly the empty slabs; slabs with at most 32 free objects come first in non-decreasing free count, those with more follow in their old order, and the lengths add up |
| `SkewHeap.Entry.Init` | lab6/libs/skew_heap.h:23-27 | all three links are NULL |
| `SkewHeap.Merge` | lab6/libs/skew_heap.h:29-59 | in place, the links of two heaps become those of the merged tree, parent links included, with the root's parent untouched, and the comparator is called as often as the cost function says |
| `SkewHeap.Insert` | lab6/libs/skew_heap.h:61-67 | the result is a well-formed heap, root without parent, of the merged tree |
| `SkewHeap.Remove` | lab6/libs/skew_heap.h:69-85 | an entry anywhere is unlinked through its parent link and the result is a well-formed heap, root without parent |
| `SkewHeap.MergedEntries` | lab6/libs/skew_heap.h:29-59 | the merged tree has exactly the entries of both, each once |
| `SkewHeap.InsertedEntries` | lab6/libs/skew_heap.h:61-67 | insertion adds exactly the new entry |
| `SkewHeap.RemovedEntries` | lab6/libs/skew_heap.h:69-85 | removal takes away exactly the removed entry |
| `SkewHeapLaws.MergedOrdered` | lab6/libs/skew_heap.h:29-59 | merging keeps min-heap order for any comparator that answers -1 exactly for strictly less in a total preorder |
| `SkewHeapLaws.InsertedOrdered` | lab6/libs/skew_heap.h:61-67 | so does insertion |
| `SkewHeapLaws.RemovedOrdered` | lab6/libs/skew_heap.h:69-85 | so does removing an entry anywhere |
| `SkewHeapLaws.RootIsLeast` | lab6/libs/skew_heap.h:29-59 | the root is at most every entry of the heap |
| `SkewHeapLaws.TiesGoToTheSecond` | lab6/libs/skew_heap.h:36-58 | of two roots the smaller stays on top, of equal ones that of the second heap, so a new entry comes before its equals |
| `SkewHeapLaws.RemovedRoot` | lab6/libs/skew_heap.h:69-85 | removing the root leaves the smaller of its children on top, of equal ones the right one |
| `SkewHeapLaws.MergeIsLogarithmic` | lab6/libs/skew_heap.h:29-59 | comparisons plus the new potential are at most the old potentials plus twice the logarithms of the sizes |
| `SkewHeapLaws.PopRootRemoves` | lab6/libs/skew_heap.h:69-85 | removing the root leaves the merge of its two subtrees |
| `SkewHeapLaws.OperationsAreLogarithmic` | lab6/libs/skew_heap.h:29-85 | any m inserts and root removals from empty compare at most 4 m floor(log2(m+1)) times |
| `Rand.Generator.constructor` | lab6/libs/rand.c:4-4 | the state starts as 1, a 48-bit number |
| `Rand.Generator.Next` | lab6/libs/rand.c:11-16 | the wrapping 64-bit computation advances the state by the exact congruence and returns the output of the new state |
| `Rand.Generator.Seed` | lab6/libs/rand.c:22-25 | any 32-bit seed is a valid state |
| `Rand.WrapAgrees` | lab6/libs/rand.c:13-13 | wrapping at 64 bits does not change the masked result |
| `Rand.Recurs` | lab6/libs/rand.c:12-16 | for any width, a state recurs after exactly the multiples of 2^k calls |
| `Rand.FullPeriod` | lab6/libs/rand.c:12-16 | from any state of k bits, 2^k calls visit every state of k bits exactly once and come back |
| `Rand.LowBits` | lab6/libs/rand.c:13-13 | the low k bits run through the k-bit generator |
| `Rand.EveryValueIsReturned` | lab6/libs/rand.c:6-16 | in the course of a period exactly the values from 1 to RAND_MAX are returned |
| `Rand.OutputDropsTwelveBits` | lab6/libs/rand.c:14-15 | the low twelve bits of the state do not matter, and the rest is reduced modulo 2147483647 and raised by one |
| `Rand.FirstValues` | lab6/libs/rand.c:11-16 | the first three values from the initial state |
| `PrintNumber.SprintBuf.Put` | lab6/libs/printfmt.c:299-305 | a character is counted, and stored if there is room; nothing else in the buffer changes |
| `PrintNumber.PrintNum` | lab6/libs/printfmt.c:39-61 | the digits, most significant first, padded on the left |
| `PrintNumber.NumTextLength` | lab6/libs/printfmt.c:39-61 | exactly the greater of width and number of digits is emitted |
| `PrintFormat.ParseField` | lab6/libs/printfmt.c:140-190 | flags, width, precision and length up to the conversion character |
| `PrintFormat.PrintString` | lab6/libs/printfmt.c:211-232 | %s with width, precision, padding side and the replacement of unprintable characters |
| `PrintFormat.Vprintfmt` | lab6/libs/printfmt.c:125-285 | on every NUL-terminated format it ends, reads nothing after the NUL, and emits exactly the text the format denotes, the rewind on unknown escapes included; what that text is for each directive: `PrintLaws` |
| `PrintLaws.DirectiveParses` | lab6/libs/printfmt.c:136-190 | every directive made of a pad flag, `#`, a width, a precision, any number of `l` and a conversion is read as written: numbers as decimals, stars as arguments, the width first, the precision after the point |
| `PrintLaws.SecondCountIsPrecision` | lab6/libs/printfmt.c:152-185 | two counts in a row without a point: the second is the precision, or the width if the first was a negative argument |
| `PrintLaws.IntegerDirective` | lab6/libs/printfmt.c:234-272 | for every such directive with d, u, o or x, anywhere in a format: the text is at least as wide as asked for, and strtol in base 10, 10, 8, 16 reads back the argument, 32 bits without `l` and 64 with it, signed for d; always if it is not negative and padded with blanks or zeros, otherwise exactly if it is not padded, or padded with zeros, or a 0 in a field of two minus signs |
| `PrintLaws.PointerDirective` | lab6/libs/printfmt.c:256-272 | for every such directive with p the text begins with 0x and strtol reads back the 64 bits exactly if it is not padded or padded with zeros |
| `PrintLaws.CharacterDirective` | lab6/libs/printfmt.c:192-195 | %c prints one character, the low byte of its argument; %% prints a percent sign and takes no argument |
| `PrintLaws.StringDirective` | lab6/libs/printfmt.c:211-232 | %s prints the first characters of the string, as many as the precision allows, at the end of the field or with `-` at its beginning; the field is as wide as asked for or as they need; the rest of it is the pad character, or with `-` blanks; with `#` what is not printable becomes a question mark; NULL prints as (null) |
| `PrintLaws.ErrorDirective` | lab6/libs/printfmt.c:197-209 | %e prints the same for an error and its negative: its message, or the word error and a number that strtol reads back |
| `PrintLaws.UnknownDirective` | lab6/libs/printfmt.c:277-282 | a directive with another conversion is printed as it stands, its stars having used their arguments |
| `PrintFormat.UnknownPrintsItself` | lab6/libs/printfmt.c:277-282 | an escape sequence that is unknown or cut off is printed as it stands |
| `PrintFormat.InnerFormats` | lab6/libs/printfmt.c:197-209 | the two formats that %e uses print what the model of %e says |
| `PrintFormat.Vsnprintf` | lab6/libs/printfmt.c:337-348 | the buffer holds the first min(total, size - 1) characters and a NUL, nothing after that changes, and the total is returned; size 0 or a NULL buffer gives -E_INVAL |
| `PrintFormat.Strnlen` | lab6/libs/string.c:33-40 | the length of the string or the bound, whichever is less |
| `PrintFormat.DecimalIsReadBack` | lab6/libs/printfmt.c:234-242 | strtol reads back what %ld prints, for every 64-bit number but the smallest |
| `PrintFormat.PointerIsReadBack` | lab6/libs/printfmt.c:256-262 | strtol in base 16 or 0 reads back what %p prints, for every address: the same 64 bits, hence the same number below 2^63 |
| `Strtol.StrToL` | lab6/libs/string.c:203-259 | for any base, negative ones included: value and end pointer of blanks, sign, prefix and digits, without reading past the NUL |
| `StrtolLaws.ReadsNumber` | lab6/libs/string.c:203-259 | blanks, a sign, a prefix and digits in any base from 2 to 36 are read as what the digits are worth, to 64 bits, up to the first character that is no digit; with base 0 the base is 16 after 0x, 8 after 0, else 10 |
| `StrtolLaws.LettersCountFromTen` | lab6/libs/string.c:236-247 | letters count from ten, in either case |
| `Strtol.RoundTrip` | lab6/libs/string.c:203-259 | numbers printed in base 8, 10 or 16 with any width and padded with blanks or zeros are read back, to the end: the same number below 2^63, the same 64 bits always |
| `Strtol.MinusPadding` | lab6/libs/printfmt.c:148-151 | padded with minus signs a number is read back exactly if nothing is padded, or it is 0 in a field of two |
| `Strtol.SignedRoundTrip` | lab6/libs/printfmt.c:234-242 | a negative %d is read back exactly if unpadded or padded with zeros |
| `Strtol.PointerRoundTrip` | lab6/libs/printfmt.c:256-262 | every address printed with %p is read back in base 16 or 0, to 64 bits, exactly if unpadded or padded with zeros |

## Left out

- The retry loops around compare-and-exchange: the state machines have the successful attempt as one step.
- Wrap-around of transaction ids: tids are unbounded numbers.
- NUMA, pfmemalloc, kmalloc_nolock and NMI paths, SLUB_TINY and PREEMPT_RT variants, debugging caches in the protocol: one node, non-debug configuration. Under NUMA free_to_pcs_bulk would need its own treatment.
- KASAN, KMSAN, KFENCE, memcg and allocation tags: hooks are identities or an arbitrary accept or reject decision.
- The slab layer inside the sheaf machine: it is the set of free objects, since the slab machine is about that layer; sizes above sheaf_capacity and kmem_cache_refill_sheaf are not modelled.
- SheafTheorems.EveryObjectHasOneHolder: conservation is for one node, as the source's remote-object path is a NUMA path.
- Statistics, sysfs, debugfs, boot and hotplug code, the page allocator, cache_random_seq_create (a permutation is given), RCU grace periods (a callback may run at any later time).
- __kmem_cache_free_bulk: it is the loop of FreeBulk without the hook.
- SlubOutcomes.KeptSlabsAreListed: at which end of the partial list deactivate_slab puts a slab depends on a racy read of its free list; either end is allowed.
- SlabOrder.CalculateOrder: the minimum order is at most the maximum, which the boot parameters ensure and guard-page debugging may not, and both are below 32, where the shift is defined in C.
- ObjectLayout.LayOut: a prescribed free pointer offset and KASAN metadata are not modelled.
- ObjectLayout.KmemCache.CalculateSizes: an empty slot is excluded, because its size would be divided by; so are sizes that do not fit 32 bits.
- Strtol.StrToL: overflow of the value, which is undefined in C, wraps to 64 bits.
- Shrink.Node.DoShrink: no concurrent frees; slab counters of the node and the return value are not modelled.
- SkewHeap.Merge: the comparator is a function of the embedding structures, which do not change.
- PrintFormat.Vprintfmt: width and precision are unbounded integers, and %e of the smallest int, which is undefined in C, prints its absolute value; the inner calls of %e are expanded, and InnerFormats says that this is what they print.
- PrintFormat.Vsnprintf: the character count is an unbounded integer.
- Console output, snprintf and printfmt wrappers, the other string functions, list.h and hash.c: easy members.
