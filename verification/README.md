# Verified model of the H2 hypervisor kernel

H2 is a hypervisor kernel for Hexagon. This project models the parts of it that hold the
hard invariants and proves them in Dafny: the scheduler with its futexes and thread
lifecycle, the kernel heap, the address space ids and the software TLB, timers, the ticket
lock, shared virtual interrupts, the cluster budget, and two user-side protocols (the pipe
and coprocessor access). `dafny verify dfyconfig.toml` checks everything.

## How it is laid out

- `lists.dfy`, `bits.dfy`: sequences of thread contexts and machine words as bits.
- `sched.dfy`: the kernel state (256 ready rings, 64 futex buckets, one free list per VM, the
  runlist, lock words) and one function per kernel entry point; every entry point runs under
  the big kernel lock, so it is one step. The placement invariant is proved for all runs.
- `vms.dfy`: the kernel at boot and the addition of VM blocks.
- `effects.dfy`: a description of the whole state after each entry point, written without the
  moves between lists it is built from, and the proof that the entry point meets it.
- `futex.dfy`, `wakeup.dfy`, `pi.dfy`: what resume wakes, that no wakeup is lost when user
  stores interleave with the read inside a wait, and the priority-inheritance lock protocol.
- `rings.dfy`, `kernel.dfy`: the data structures behind that state. A context's `next` and
  `prev` fields, the ring cells, the 256-bit map of non-empty rings, the runlist and its
  priority array are changed in place; every method is proved to do what the entry point of
  `sched.dfy` does, so all results about runs hold of the linked structures too.
- `heap.dfy`: the boundary-tag allocator on one word array.
- `stlb.dfy`, `asid.dfy`: the software TLB with overlapping windows; the open-addressed id
  table with its reference counts, and the two together.
- `tree.dfy`, `timer.dfy`: the search tree on `left`/`right` columns, and the timers on it.
- `cluster.dfy`: the coprocessor budget of a cluster and the hand-over walk.
- `ticket.dfy`, `shint.dfy`, `pipe.dfy`, `coproc.dfy`, `lxaccess.dfy`: protocols as state
  machines over their atomic steps, for any number of threads and any interleaving.

A spin of load-locked/store-conditional is modelled by the number of stores the link has
seen: a store-conditional succeeds only if that number is unchanged, and may fail without
cause.

## Assumptions

- Physical addresses are below 2^36, so a futex address has 34 bits.
- At most 4095 references exist to one address space id (`Asid.Room`), as its count has 12
  bits; VM ids are 1 to 63.
- Fewer than 2^16 hardware threads contend for the ticket lock.
- At most 32 hardware threads, coprocessor units and contexts.
- The timer counter stays at least the granularity below 2^64 - 1.
- Whoever adds to the software TLB under an id passes an entry for that id, as the TLB fill
  does.
- An add to the software TLB and an invalidation of it are one step each, although the source
  takes no lock in them.
- For the lock protocol: lock words are used through the kernel entry points only, only the
  holder unlocks, and a holder does not stop.

## Where the code and its comments differ

- The walk over the ready ring in `H2K_ready_head` is meant to find a thread that fits on the
  other cluster. Its second test adds that cluster's count again, so it can pass over every
  thread that fits: `Cluster.WalkMissesIff` says exactly when, and `Cluster.WalkMisses` leads
  the scheduler into such a state.
- The interrupt after a hand-over is meant to get the victim to pick up the thread that was
  skipped. The victim looks at the head of the ring instead: `Cluster.Clusters.HandOver` says
  exactly when it takes it within the maximum, and in `Cluster.NeverPicked` two hardware threads
  hand over to each other and neither ready thread ever runs.
- When a get of a shared interrupt finds the pending bit gone it retries, which its own comment
  questions: it has cleared the enable bit by then. `Shint.LostMeansFell` and `Shint.NoneLost` say
  when an enable can be used up this way, and `Shint.EnableLost` is such a run.
- Invalidating a page in the software TLB is meant to remove it. It zeroes one way only, so a
  page that was added twice stays: `Stlb.SoftTlb.InvalidatePage` has the exact condition and
  `Stlb.SoftTlb.TwiceAdded` an example.
- "A holder's priority is never worse than a waiter's" needs more than the absence of nested
  waiting: an unlock restores the base priority even if the thread holds a second lock with
  a better waiter. `PiLocks.TwoLocksBreak` is such a run, and `PiLocks.RunPrioIff` gives the
  exact condition on the unlocks of a run under which the property holds throughout.

## Model

| member | source | states |
|---|---|---|
| Sched.RunKeepsPlacement | kernel/sched/dosched/dosched.ref.c:16-53 | in every state of every run of the entry points each thread is in exactly the place its status names, buckets are sorted, wait mode matches the runlist, and num_cpus plus the free list is max_cpus |
| Sched.StepKeeps | kernel/vm/vmint/vmint.ref.c:28-65 | each single entry point keeps that invariant |
| Sched.OnePlace | kernel/data/readylist/readylist.h:62-87 | the invariant means: a listed thread is in one list only, runs nowhere, and its status is that of the list |
| Sched.DoSchedPicksBest | kernel/data/readylist/readylist.h:218-252 | the thread installed is first in its ring and no ready thread is better; the hardware thread sleeps iff nothing is ready |
| Sched.HashSeparates | kernel/futex/futex_common/futex_common.h:17 | two 34-bit addresses in one bucket with equal low words are equal, so comparing 32 bits is sound |
| Sched.HashFolds | kernel/futex/futex_common/futex_common.h:17 | below 2^32 the bucket is the top six bits of the product with the hash prime; the two address bits above it only pick one of four neighbouring buckets |
| Sched.WokenIsWaiter | kernel/futex/futex_common/futex_common.ref.c:49-72 | the thread a scan takes waits on the full address, and there is none only if nobody does |
| Sched.LiveIsCounted | kernel/thread/stop/stop.ref.c:38 | a live thread is counted, so the decrement of num_cpus never goes below zero |
| Sched.CreateKeeps | kernel/thread/create/create.ref.c:64-110 | creation keeps placement and the thread count, also when no address space id can be had |
| Sched.StopKeeps | kernel/thread/stop/stop.ref.c:26-55 | stopping keeps placement and the thread count, with or without an interrupt to the parent |
| Sched.RaiseColumns | kernel/futex/futex_pi/futex_pi.ref.c:22-55 | lending a priority changes no thread but the one named, never makes it worse, and leaves it at least as good as the lender unless it is dead or in a VM wait |
| Effects.DoSchedEffect | kernel/sched/dosched/dosched.ref.c:16-53 | the head of the best ring leaves it and runs; every other list, status and priority is unchanged |
| Effects.DoSchedPicks | kernel/sched/dosched/dosched.ref.c:16-53 | the whole state afterwards: the first thread of the best ring moved to the hardware thread, or wait mode iff nothing is ready |
| Effects.ReschedEffect | kernel/sched/resched/resched.ref.c:17-26 | the interrupted thread goes last in its ring and the next thread runs: another one iff somebody at least as good is ready, and then the head of the best ring; otherwise nothing changes at all |
| Effects.RequeueGivesWay | kernel/sched/resched/resched.ref.c:19-25 | round robin: a requeued thread gives way iff a thread as good or better is ready, to the one that was next, and stands last |
| Effects.YieldEffect | kernel/sched/yield/yield.ref.c:18-29 | yield gives way, from the tail of its ring, iff another thread of the same priority is ready; otherwise nothing changes |
| Effects.BlockOnEffect | kernel/futex/futex_classic/futex_classic.ref.c:44-50 | the caller waits on its address, behind exactly the waiters at least as good, and the next thread runs; nothing else changes |
| Effects.VmSleepEffect | kernel/vm/vmfuncs/vmfuncs.ref.c:107-134 | the caller is in a VM wait and the next thread runs; nothing else changes |
| Effects.DeliverEffect | kernel/vm/vmint/vmint.ref.c:28-65 | a thread leaves its bucket and becomes ready, last in its ring, iff it was in a VM wait or blocked with interrupts enabled; otherwise nothing changes |
| Effects.CreateEffect | kernel/thread/create/create.ref.c:58-110 | the first free context becomes ready last at the priority asked for, also as its base, and is counted, iff the priority is valid, a context is free and an id is had; without an id only the priorities of the context that stays free change |
| Effects.StopEffect | kernel/thread/stop/stop.ref.c:32-54 | the caller is cleared, dead and first in its VM's free list, the count is one less, a parent that is told wakes exactly as by an interrupt, and the next thread runs |
| Effects.RaiseEffect | kernel/futex/futex_pi/futex_pi.ref.c:22-55 | a raised ready thread is first in its new ring, a raised blocked one is behind exactly those of its bucket that are at least as good; nothing else changes, and nothing at all when the priority is no better or the thread is dead or in a VM wait |
| Effects.LockEffect | kernel/futex/futex_pi/futex_pi.ref.c:57-103 | a free word is taken at once with the caller's id; otherwise bit 0 is set, the owner's priority becomes exactly the caller's if that is better and the owner is neither dead nor in a VM wait, the caller waits on the word behind those at least as good, and the next thread runs |
| Effects.UnlockEffect | kernel/futex/futex_pi/futex_pi.ref.c:105-136 | the first waiter alone becomes ready, last in its ring, and gets the word; the caller gets its base priority; nothing else changes |
| Effects.StepEffect | kernel/futex/futex_pi/futex_pi.ref.c:22-136 | every entry point, put together from moves between lists, does to the whole state exactly what its description says |
| Futex.WakeExact | kernel/futex/futex_classic/futex_classic.ref.c:57-91 | resume(n) readies exactly the first n threads waiting on the address, in order, each last in its ring, and keeps the rest of the bucket in order |
| Futex.WakeCounts | kernel/futex/futex_classic/futex_classic.ref.c:82-91 | it wakes min(n, waiters), and with n at least the waiters none is left |
| Futex.WakeAll | kernel/futex/futex_classic/futex_classic.ref.c:57-91 | after a resume of at least as many as wait, nobody waits on the address |
| Futex.StepWaiters | kernel/futex/futex_classic/futex_classic.ref.c:22-53 | only a wait or a lock call on an address makes a thread wait on it |
| Lists.InsertSorted | kernel/futex/futex_common/futex_common.ref.c:15-37 | insertion keeps a bucket sorted and puts the thread behind exactly those at least as good (first in, first out among equals) |
| Lists.WithoutSorted | kernel/futex/futex_misc/futex_misc.ref.c:12-18 | taking a thread out keeps a bucket sorted |
| Wakeup.NoLostWakeup | kernel/futex/futex_classic/futex_classic.ref.c:22-91 | with user stores interleaved between the read and the enqueue of a wait, a thread that read the old value is not waiting after a resume that starts after the store and asks for enough |
| Wakeup.WaitersExpectStore | kernel/futex/futex_classic/futex_classic.ref.c:22-91 | after a store and a resume that asks for enough, until the word is next written, whoever waits on it called wait expecting the value stored |
| Wakeup.WaitAlone | kernel/futex/futex_classic/futex_classic.ref.c:22-52 | a wait that nobody comes between blocks its caller iff the word has the expected value, and otherwise leaves everything as it was |
| PiLocks.RunKeepsProtocol | kernel/futex/futex_pi/futex_pi.ref.c:57-136 | in every state of every legal run a zero word has no waiter, a non-zero word names exactly the granted thread, and waiters imply bit 0 |
| PiLocks.UnlockWakesBest | kernel/futex/futex_pi/futex_pi.ref.c:105-136 | unlock hands over to a waiter of the best priority |
| PiLocks.LockPiEffect | kernel/futex/futex_pi/futex_pi.ref.c:57-103 | a lock call that blocks sets bit 0 and lends exactly its own priority to the named owner; no other word or priority changes, and nobody dies or goes into a VM wait |
| PiLocks.UnlockPiEffect | kernel/futex/futex_pi/futex_pi.ref.c:105-136 | unlock writes 0 or the new owner's id plus one, that owner no longer waits, the caller's base priority is restored and no other priority changes |
| PiLocks.UnlockPrioIff | kernel/futex/futex_pi/futex_pi.ref.c:134-135 | an unlock keeps every holder at least as good as its waiters iff the caller's base priority is at least as good as every waiter on the other locks it holds |
| PiLocks.TwoLocksBreak | kernel/futex/futex_pi/futex_pi.ref.c:134-135 | a legal run of four calls, from no lock taken, after which a holder is worse than a thread waiting for it |
| PiLocks.RunPrioIff | kernel/futex/futex_pi/futex_pi.ref.c:22-136 | over every run in which no thread waits for a lock while it holds one and holders take no VM wait: a holder is never worse than a waiter iff at every unlock the caller's base priority is as good as every waiter on its other locks |
| PiLocks.RunOneLock | kernel/futex/futex_pi/futex_pi.ref.c:22-136 | so it never is in a run where threads unlock only while they hold no other lock |
| Rings.Next | kernel/util/ring/ring.ref.c:13-19 | the next context of the ring, NULL after the last |
| Rings.Remove | kernel/util/ring/ring.ref.c:21-29 | the links spell the ring without the context; no link outside the ring changes |
| Rings.Insert | kernel/util/ring/ring.ref.c:31-42 | the links spell the ring with the context first; nothing outside changes |
| Rings.Append | kernel/util/ring/ring.ref.c:44-55 | the links spell the ring with the context last; nothing outside changes |
| Rings.AddByPrio | kernel/futex/futex_common/futex_common.ref.c:15-37 | the links spell the bucket with the context behind all that are at least as good |
| Bits.FirstBit | kernel/data/readylist/readylist.h:19-33 | the index of the lowest set bit of the map, by halves of words, or its size |
| VmBlocks.BootInv | kernel/data/runlist/runlist.ref.c:8-19 | a kernel without VMs satisfies the invariant |
| VmBlocks.AddVmKeeps | kernel/traps/config/config.ref.c:86-124 | adding a VM block, at any time, keeps placement and the thread counts, whatever else exists |
| VmBlocks.AddVmEffect | kernel/traps/config/config.ref.c:86-124 | nothing there was changes; the new contexts are dead contexts of the new VM, found by their ids, the last one first on its free list |
| Kernel.KernelGlobals.constructor | kernel/data/runlist/runlist.ref.c:8-19 | the empty structures are consistent |
| Kernel.KernelGlobals.AddVm | kernel/traps/config/config.ref.c:86-124 | pushing the new contexts on the new free list realises the abstract VM block and leaves all other lists linked |
| Kernel.KernelGlobals.ReadyAppend | kernel/data/readylist/readylist.h:62-68 | links, map and runlist realise the thread at the tail of its ring |
| Kernel.KernelGlobals.ReadyInsert | kernel/data/readylist/readylist.h:72-78 | links, map and runlist realise the thread at the head of its ring |
| Kernel.KernelGlobals.ReadyRemove | kernel/data/readylist/readylist.h:82-87 | the thread leaves its ring and the valid bit follows |
| Kernel.KernelGlobals.GetBest | kernel/data/readylist/readylist.h:218-252 | the head of the best non-empty ring leaves it, NULL iff all rings are empty |
| Kernel.KernelGlobals.RunlistPush | kernel/data/runlist/runlist.h:15-22 | the thread runs on its hardware thread and the priority array follows |
| Kernel.KernelGlobals.RunlistRemove | kernel/data/runlist/runlist.h:52-57 | the slot is empty and the priority array follows |
| Kernel.KernelGlobals.WorstPrio | kernel/data/runlist/runlist.h:24-36 | the worst priority of a running thread, 256 iff none runs |
| Kernel.KernelGlobals.SetThreadPrio | kernel/data/runlist/runlist.h:59-63 | a running thread's priority changes in both places |
| Kernel.KernelGlobals.DoSched | kernel/sched/dosched/dosched.ref.c:16-53 | realises the abstract dosched on the linked structures |
| Kernel.KernelGlobals.Resched | kernel/sched/resched/resched.ref.c:17-26 | realises the abstract resched |
| Kernel.KernelGlobals.Yield | kernel/sched/yield/yield.ref.c:18-29 | realises the abstract yield |
| Kernel.KernelGlobals.FutexWait | kernel/futex/futex_classic/futex_classic.ref.c:22-53 | blocks iff there is no VM work, the word is mapped and still has the value expected; else changes nothing |
| Kernel.KernelGlobals.RemoveOne | kernel/futex/futex_common/futex_common.ref.c:49-72 | the scan from any position with no match before it readies the first waiter, and leaves a position with that property, also when it wraps to the head |
| Kernel.KernelGlobals.Resume | kernel/futex/futex_classic/futex_classic.ref.c:75-91 | the wake loop realises the abstract resume and returns the number woken |
| Kernel.KernelGlobals.Cancel | kernel/futex/futex_misc/futex_misc.ref.c:12-18 | the thread leaves its bucket |
| Kernel.KernelGlobals.PiRaise | kernel/futex/futex_pi/futex_pi.ref.c:22-55 | realises the abstract raise, including the shortcut for a thread alone in its bucket |
| Kernel.KernelGlobals.LockPi | kernel/futex/futex_pi/futex_pi.ref.c:57-103 | realises the abstract lock unless there is VM work or the word is not mapped; blocks iff the word was above 1 |
| Kernel.KernelGlobals.UnlockPi | kernel/futex/futex_pi/futex_pi.ref.c:105-136 | realises the abstract unlock unless the word is not mapped |
| Kernel.KernelGlobals.Deliver | kernel/vm/vmint/vmint.ref.c:28-65 | realises the abstract delivery |
| Kernel.KernelGlobals.VmSleep | kernel/vm/vmfuncs/vmfuncs.ref.c:117-127 | realises the abstract VM wait |
| Kernel.KernelGlobals.Create | kernel/thread/create/create.ref.c:58-110 | realises the abstract creation and returns the context, NULL on each failure |
| Kernel.KernelGlobals.Stop | kernel/thread/stop/stop.ref.c:32-54 | realises the abstract stop |
| Kernel.KernelGlobals.Enter | kernel/futex/futex_pi/futex_pi.ref.c:22-136 | every entry point on the linked structures is the abstract step, does what its description says to the whole state, and keeps the structures consistent |
| Heap.KernelHeap.constructor | kernel/mem/alloc/alloc.ref.c:98-117 | one free block tiles the heap up to the sentinel |
| Heap.KernelHeap.FreeSpinlocked | kernel/mem/alloc/alloc.ref.c:15-36 | the block joins its free neighbours, tags still tile the heap, free bits and footers are right, other blocks keep their contents |
| Heap.KernelHeap.Get | kernel/mem/alloc/alloc.ref.c:39-86 | terminates; the block is new, aligned, large enough and at most 32 bytes larger than asked for; NULL only when nothing released is left and no free block fits; blocks in use keep their contents |
| Heap.RequestWords | kernel/mem/alloc/alloc.ref.c:11-13 | the only number of whole units that is above the request with its tag by at most one unit |
| Heap.KernelHeap.GetThenFree | kernel/mem/alloc/alloc.ref.c:39-96 | with nothing released, free right after get restores the partition |
| Heap.KernelHeap.UserWrite | kernel/mem/alloc/alloc.ref.c:15-36 | writing inside an allocated block disturbs no tag |
| Heap.FreedRepresents | kernel/mem/alloc/alloc.ref.c:15-36 | the words after a free represent the partition after a free, and no other block lost contents |
| Heap.CoalescedRepresents | kernel/mem/alloc/alloc.ref.c:15-36 | the edited words represent the partition with the blocks joined |
| Heap.FreedBlocks | kernel/mem/alloc/alloc.ref.c:15-36 | freeing removes exactly the one block from those in use |
| Heap.TakenRepresents | kernel/mem/alloc/alloc.ref.c:68-80 | the edited words represent the partition with the block split, or taken whole |
| Heap.TakenBlocks | kernel/mem/alloc/alloc.ref.c:68-80 | taking adds exactly one block to those in use |
| Heap.ReclaimKeeps | kernel/mem/alloc/alloc.ref.c:51-66 | reclaiming may move the scan back, but shrinks the released blocks and keeps everything before the scan too small |
| Heap.FreeUndoesTake | kernel/mem/alloc/alloc.ref.c:15-36 | freeing the block just taken gives back the same partition |
| Stlb.SoftTlb.constructor | kernel/mem/stlb/stlb.all.c:10-27 | over arbitrary memory nothing is visible to any id |
| Stlb.SoftTlb.Find | kernel/mem/stlb/stlb.ref.c:49-60 | the first matching way of a valid set, or -1 |
| Stlb.SoftTlb.Lookup | kernel/mem/stlb/stlb.ref.c:62-74 | a non-zero answer is the first way that matches and was added for this id since its last invalidation; the answer is zero iff no way of a valid set matches |
| Stlb.MatchesRange | kernel/mem/stlb/stlb.ref.c:17-33 | an entry translates an address iff the address lies in its page, of 4096 bytes times a power of four, and the id is the same |
| Stlb.SoftTlb.Add | kernel/mem/stlb/stlb.ref.c:76-93 | the entry is visible afterwards; a set on first use shows nothing else of the id, a set in use keeps its other ways, and no other id loses anything it could see but what lay in that way |
| Stlb.SoftTlb.InvalidateAsid | kernel/mem/stlb/stlb.ref.c:115-123 | no set of the id is valid, other ids and all entries are untouched |
| Stlb.SoftTlb.InvalidatePage | kernel/mem/stlb/stlb.ref.c:107-112 | only the first way that holds the page in a valid set is zeroed; after it no way holds the page iff at most one did before |
| Stlb.SoftTlb.InvalidateVa | kernel/mem/stlb/stlb.ref.c:95-113 | every page of the range that at most one way held is gone, exactly so for a range of one page; only ways of this id that held a page of the range are zeroed |
| Stlb.SoftTlb.TwiceAdded | kernel/mem/stlb/stlb.ref.c:107-112 | a page added twice is still answered after its invalidation |
| Stlb.AddKeeps | kernel/mem/stlb/stlb.ref.c:76-93 | although windows overlap, an add keeps: whatever an id can see was added for it since its last invalidation |
| Asid.HopsCover | kernel/mem/asid/asid.ref.c:15-16 | an odd stride visits all 128 slots within 128 hops |
| Asid.Search | kernel/mem/asid/asid.ref.c:40-59 | finds a slot with the binding among the hops up to the stored bound, or none there has it |
| Asid.SearchComplete | kernel/mem/asid/asid.ref.c:40-59 | what the search does not find is bound nowhere in the table |
| Asid.Eviction | kernel/mem/asid/asid.ref.c:61-83 | the first slot of the chain nobody uses; it fails iff all 128 counts are non-zero |
| Asid.BoundKeeps | kernel/mem/asid/asid.ref.c:80-104 | binding a slot keeps every binding within its stored probe bound and all bindings different |
| Asid.AddressSpaces.BindNew | kernel/mem/asid/asid.ref.c:98-109 | a binding that is nowhere gets an unused slot, whose software TLB entries are gone while those of other ids are kept, or fails when all are in use |
| Asid.AddressSpaces.Inc | kernel/mem/asid/asid.ref.c:85-112 | counts up the slot that has the binding, else binds an unused one and invalidates it, else fails; bindings in use are kept |
| Asid.AddressSpaces.Dec | kernel/mem/asid/asid.ref.c:121-126 | one count goes down by one and nothing else changes |
| Asid.AddressSpaces.Create | kernel/thread/create/create.ref.c:88-98 | each count stays the number of references when a thread is created; a slot that is rebound has no translations left, all other ids keep theirs |
| Asid.AddressSpaces.Stop | kernel/thread/stop/stop.ref.c:34 | and when one stops |
| Asid.AddressSpaces.NewmapInc | kernel/vm/vmmap/vmmap.ref.c:67-68 | and after the first step of a new map, which holds two references; a rebound or flushed slot has no translations left |
| Asid.AddressSpaces.NewmapDec | kernel/vm/vmmap/vmmap.ref.c:70 | and after the second |
| Asid.AddressSpaces.NewmapSet | kernel/vm/vmmap/vmmap.ref.c:71 | and after the third; then the count is that of threads whose ssr_asid is the slot |
| Asid.AddressSpaces.AddTranslation | kernel/mem/tlbfill/tlbfill.ref.c:73 | exactly this translation is added to those of the id, under what the id stands for now, and is visible |
| Asid.AddressSpaces.LookupTranslation | kernel/mem/stlb/stlb.ref.c:62-74 | an answer matches the page and was added for what the id stands for now; there is none iff no way of a valid set matches |
| Asid.AddressSpaces.CreateThenLookup | kernel/mem/asid/asid.ref.c:98-106 | after a creation that rebinds an id, a lookup under it answers nothing |
| Asid.AddressSpaces.CreateAddLookup | kernel/mem/asid/asid.ref.c:98-106 | and after one translation is added for it, that one or nothing, and that one for every address of its page |
| Asid.RefUpdate | kernel/mem/asid/asid.ref.c:85-126 | the reference count changes by what one context changes |
| Trees.Add | kernel/util/tree/tree.ref.c:58-69 | the links spell the tree with the node hung in by key; nothing outside changes |
| Trees.AddInOrder | kernel/util/tree/tree.ref.c:58-69 | the new node comes in order right after the nodes of its rank |
| Trees.RankSplits | kernel/util/tree/tree.ref.c:58-69 | those are exactly the nodes with a lesser key |
| Trees.AddOrdered | kernel/util/tree/tree.ref.c:58-69 | search order with duplicates is kept |
| Trees.Remove | kernel/util/tree/tree.ref.c:40-56 | the links spell the tree with the node removed; nothing outside changes |
| Trees.RemoveInOrder | kernel/util/tree/tree.ref.c:40-56 | exactly the named node goes, the others keep their order, search order is kept |
| Trees.Bisect | kernel/util/tree/tree.ref.c:71-87 | the links spell the two parts |
| Trees.BisectSplits | kernel/util/tree/tree.ref.c:71-87 | no node is lost, the parts are search trees of the keys up to and beyond the key |
| Trees.Iterate | kernel/util/tree/tree.ref.c:89-105 | terminates and visits every node once in order |
| Trees.InOrderSorted | kernel/util/tree/tree.ref.c:89-105 | which is by non-decreasing key |
| Trees.Min | kernel/util/tree/tree.h:33 | the first node in order, NULL for an empty tree |
| Timer.TimeInfo.SetTimeout | kernel/time/timer/timer.ref.c:264-277 | the tree holds exactly the contexts with a timeout, keyed by it; a past deadline disarms |
| Timer.TimeInfo.UpdateTimeout | kernel/time/timer/timer.ref.c:174-181 | the match value becomes the minimum, so it is not later than this deadline |
| Timer.TimeInfo.TimerInt | kernel/time/timer/timer.ref.c:202-225 | posts exactly the contexts due by now plus the granularity, once each, by deadline, zeroes their timeouts, and sets the match value to the earliest one left |
| Timer.TimeInfo.Cancel | kernel/time/timer/timer.h:18-21 | a stopping context leaves the tree |
| Timer.Disarmed | kernel/time/timer/timer.ref.c:269-275 | removal keeps the tree exact |
| Timer.Rearmed | kernel/time/timer/timer.ref.c:269-276 | insertion keeps the tree exact |
| Timer.Drained | kernel/time/timer/timer.ref.c:213-222 | after the split and the drain the tree holds exactly the contexts left |
| Cluster.XexConserves | kernel/data/globals/globals.h:228-250 | the count stays the sum of slots over the cluster's hardware threads, without wrap-around |
| Cluster.LoadCounts | kernel/data/globals/globals.h:239-246 | the load of a cluster is the number of its hardware threads that have xe or xe3 on, and of those that have xe2 on |
| Cluster.WithinLimitIs | kernel/data/readylist/readylist.h:154 | the wrapping 32-bit test is the integer test |
| Cluster.Walk | kernel/data/readylist/readylist.h:179-205 | the walk terminates, hands over iff some position of the ring passes its test, and misses a fitting thread under the exact condition |
| Cluster.WalkMissesIff | kernel/data/readylist/readylist.h:179-205 | some thread of the ring fits on the other cluster and none is handed over iff the head does not fit and the least need of the others fits with that cluster's load once but not twice |
| Cluster.WalkMisses | kernel/data/readylist/readylist.h:123-214 | picks on two clusters lead to a state in which the head is taken above the maximum although a later thread fits on the cluster of a sleeping hardware thread |
| Cluster.LoadIsRunning | kernel/data/globals/globals.h:228-250 | hardware threads that run nothing add nothing to the load |
| Cluster.Clusters.CountIsRunning | kernel/data/globals/globals.h:228-250 | when every hardware thread runs or sleeps, a count is what the running threads of the cluster need |
| Cluster.Clusters.CountIsSlots | kernel/data/globals/globals.h:228-250 | in every valid state a count is the number of hardware threads of the cluster with xe or xe3 on, and of those with xe2 on |
| Cluster.Clusters.LeastLoaded | kernel/data/readylist/readylist.h:160-172 | the first cluster with the least count among those with a sleeping hardware thread, and the lowest such thread |
| Cluster.Clusters.ReadyHead | kernel/data/readylist/readylist.h:123-214 | when the head is taken, when it is handed over and to which sleeper, and when a fitting thread is missed; a pick within the limit leaves the count within the maximum; only this cluster's count moves |
| Cluster.Clusters.Dispatch | kernel/data/readylist/readylist.h:218-252 | the budget is conserved at the switch; the hardware thread sleeps, with nothing enabled, iff nothing is ready or the head is handed over, to the first sleeper of the first least-loaded cluster |
| Cluster.Clusters.HandOver | kernel/data/readylist/readylist.h:154-196 | after a hand-over the victim looks at the head again: it takes the head within the maximum iff the head fits beside what the victim's cluster still holds, which the counts beforehand tell |
| Cluster.HandedBack | kernel/data/readylist/readylist.h:179-196 | a sleeping hardware thread that is woken hands over to the other one because a later thread passes the walk, and leaves every count, register and run as it was |
| Cluster.NeverPicked | kernel/data/readylist/readylist.h:179-196 | from a state the scheduler gets into, any number of such hand-overs, by the two hardware threads in turn, leaves both ready threads waiting |
| Cluster.Clusters.WakeUp | kernel/sched/resched/resched.ref.c:17-26 | an interrupt ends wait mode and changes no count |
| Cluster.Clusters.Ask | kernel/traps/hwconfig/hwconfig.ref.c:266-277 | asking for a bit and requeueing conserves the budget |
| Cluster.Clusters.DropXe3 | kernel/traps/hwconfig/hwconfig.ref.c:278-290 | dropping xe3 conserves the budget |
| Cluster.Clusters.DropXe2 | kernel/traps/hwconfig/hwconfig.ref.c:314-326 | dropping xe2 conserves the budget |
| Ticket.MutualExclusion | kernel/util/std/asm_std.h:52-77 | at most one holder in every state of every run |
| Ticket.LockedIff | kernel/util/hw/hw.h:430-438 | the halves differ iff somebody holds or waits |
| Ticket.ServedInOrder | kernel/util/std/asm_std.h:52-77 | over every run: if t draws its ticket before u, then t has held and released before u holds |
| Ticket.InOrder | kernel/util/std/asm_std.h:52-77 | each step appends to the queue of tickets, serves its first, or leaves it alone |
| Ticket.SpinEndsIff | kernel/util/std/asm_std.h:65-68 | a spinning thread gets in at its next read iff it is first, despite wrap-around |
| Ticket.StepKeeps | kernel/util/std/asm_std.h:52-77 | every step, including a failed store-conditional, keeps the ticket invariant |
| Ticket.CanDraw | kernel/util/std/asm_std.h:52-68 | by its own steps, whatever happened to its link, a thread draws the next ticket; it has the lock at once iff nobody holds or waits |
| Ticket.CanRelease | kernel/util/std/asm_std.h:65-77 | by its own steps the first in the queue gets the lock and releases it, to the next ticket |
| Shint.TakenAtMost | kernel/vm/shint/shint.ref.c:201-231 | interrupt n is never taken more often than its enable bit rose nor than its pending bit rose |
| Shint.StepKeeps | kernel/vm/shint/shint.ref.c:88-153 | every rise of either bit is still there or was used up exactly once, in every interleaving |
| Shint.OneEnableOneTaker | kernel/vm/shint/shint.ref.c:220-223 | CPUs past the clear of the enable bit used different rises of it |
| Shint.LostMeansFell | kernel/vm/shint/shint.ref.c:214-223 | in every run, a get uses up an enable for nothing only if the pending bit fell, by a clear or by another CPU's get, between its read of the bit and its clear |
| Shint.NoneLost | kernel/vm/shint/shint.ref.c:214-223 | in every run in which nobody clears interrupt n and one CPU alone takes it, no enable of it is lost |
| Shint.EnableLost | kernel/vm/shint/shint.ref.c:220-223 | a run in which the one enable is used up although nobody took or disabled the interrupt |
| Shint.TakesUnmasked | kernel/vm/shint/shint.ref.c:212-218 | in every run, a get goes for an interrupt only if the CPU's own mask lets it through, and it was pending and then enabled when the get read those words just before |
| Shint.GetMisses | kernel/vm/shint/shint.ref.c:211-231 | in every run, a get that returns without an interrupt read each one, at some step of the call, as not pending, not enabled or masked |
| Shint.GetAlone | kernel/vm/shint/shint.ref.c:201-231 | a get that nobody comes between returns the lowest interrupt that is pending, enabled and unmasked, over all words, and clears exactly its two bits; it returns none iff there is none |
| Shint.CallAlone | kernel/vm/shint/shint.ref.c:88-199 | every other call that nobody comes between sets or clears exactly its bit |
| Pipe.Fifo | libs/h2_compat/pipe/h2_pipe.ref.c:97-149 | in every state of every run the values taken are the first values written, in order; at most size are in the pipe; tokens are conserved |
| Pipe.TakesInOrder | libs/h2_compat/pipe/h2_pipe.ref.c:36-51 | the i-th advance of the receive index returns the i-th value written |
| Pipe.NoOverwrite | libs/h2_compat/pipe/h2_pipe.ref.c:97-108 | a write never hits a slot still to be read |
| Pipe.StepKeeps | libs/h2_compat/pipe/h2_pipe.ref.c:97-149 | every step of every sender and receiver keeps the invariant |
| Pipe.WritesSent | libs/h2_compat/pipe/h2_pipe.ref.c:97-125 | in every run, a write puts down the value its thread gave to the send or trysend it is still in, and that call has written nothing before |
| Pipe.SendReturns | libs/h2_compat/pipe/h2_pipe.ref.c:97-125 | in every run, a send that returns has written its value exactly once, and so has a trysend unless it found no empty place and wrote nothing |
| Pipe.SendAlone | libs/h2_compat/pipe/h2_pipe.ref.c:97-108 | a send that nobody comes between writes its value behind all others and moves one token |
| Pipe.TrySendAlone | libs/h2_compat/pipe/h2_pipe.ref.c:110-125 | a trysend does the same iff there is an empty place, and otherwise leaves everything as it was |
| Pipe.RecvAlone | libs/h2_compat/pipe/h2_pipe.ref.c:127-135 | a receive that nobody comes between returns the oldest value not taken and moves one token back |
| Pipe.CanTake | libs/h2_compat/pipe/h2_pipe.ref.c:36-51 | by its own steps, whatever happened to its link, a receiver with its token takes the oldest value |
| Pipe.SomebodyGoesOn | libs/h2_compat/pipe/h2_pipe.ref.c:97-149 | a thread in a call can go on, unless it waits for a mutex whose holder can |
| Coproc.BuildBitpos | libs/h2_compat/coproc/h2_coproc.ref.c:20-31 | entry k is the position of the k-th set bit |
| Coproc.InitEntry | libs/h2_compat/coproc/h2_coproc.ref.c:128-140 | the tables describe the units with one more |
| Coproc.Count | libs/h2_compat/coproc/h2_coproc.ref.c:43-65 | the number of contexts of the selected units, by either loop |
| Coproc.Select | libs/h2_compat/coproc/h2_coproc.ref.c:90-121 | succeeds iff the ordinal is below the count, with the context of that ordinal |
| Coproc.OrdinalRange | libs/h2_compat/coproc/h2_coproc.ref.c:90-121 | every context of a selected unit has an ordinal below the count |
| Coproc.OrdinalExists | libs/h2_compat/coproc/h2_coproc.ref.c:90-121 | every ordinal below the count is that of a context, so the map is a bijection |
| Coproc.OrdinalInjective | libs/h2_compat/coproc/h2_coproc.ref.c:90-121 | different contexts have different ordinals |
| Coproc.OrdinalOrder | libs/h2_compat/coproc/h2_coproc.ref.c:90-121 | ordinals count the contexts unit by unit and, within a unit, bit by bit |
| LxAccess.HoldersDiffer | libs/h2_compat/lxaccess/h2_lxaccess.ref.c:44-83 | in every state of every run no acquire has failed, and two holders have different units and bits, both of which exist |
| LxAccess.NeverStuck | libs/h2_compat/lxaccess/h2_lxaccess.ref.c:56-60 | a thread that won an index can select its context, and never gets the error for a context that does not exist |
| LxAccess.LowestExists | libs/h2_compat/lxaccess/h2_lxaccess.ref.c:50-55 | the lowest clear bit a thread swaps in is below the number of contexts |
| LxAccess.StepKeeps | libs/h2_compat/lxaccess/h2_lxaccess.ref.c:44-83 | every step keeps tokens, bitmap and owners in agreement |
| LxAccess.AcquireAlone | libs/h2_compat/lxaccess/h2_lxaccess.ref.c:44-64 | an acquire that nobody comes between gets the context whose ordinal is the lowest index nobody has |
| LxAccess.ReleaseAlone | libs/h2_compat/lxaccess/h2_lxaccess.ref.c:66-83 | a release gives back exactly that context |
| LxAccess.SwapsLowest | libs/h2_compat/lxaccess/h2_lxaccess.ref.c:51-55 | a swap takes the lowest clear bit iff nobody came before it, and otherwise starts over |
| LxAccess.WaitsIffFull | libs/h2_compat/lxaccess/h2_lxaccess.ref.c:50 | an acquire waits iff as many threads are admitted as there are contexts |

## Left out

- Kernel.KernelGlobals.FutexWait: what the VM's pending work does to the caller's registers is not modelled.
- Kernel.KernelGlobals.LockPi: what the VM's pending work does to the caller's registers is not modelled.
- Kernel.KernelGlobals.Cancel: the return register is not modelled.
- Kernel.KernelGlobals.Deliver: return values and the inter-processor interrupt to a running thread are not modelled.
- Kernel.KernelGlobals.VmSleep: the bitmap of waiting CPUs is not modelled.
- Kernel.KernelGlobals.Create: the context's register fields are not modelled; whether an id is had is an argument.
- Kernel.KernelGlobals.Stop: whether the parent is told is an argument; freeing a parentless VM block is not modelled.
- Kernel.KernelGlobals.DoSched: steering of the low-priority interrupt (priomask, imask) is not modelled, it depends on hardware.
- Heap.KernelHeap.Release: no code here sets the released bit, so this is the environment's step.
- Stlb.SoftTlb.InvalidateVa: for a range of several pages only one direction is stated, as one page's zeroing can remove a larger page's entry; the 32-bit wrap of the range end is not modelled.
- Timer.TimeInfo.SetTimeout: the comparison with the last time read happens in the same step as the tree update.
- Shint.StepKeeps: choosing and waking a CPU to deliver to does not touch the bits and is not modelled.
- The assembly context switch; its effect on the wait mask and the registers is taken as stated in its callers.
- Waiting on hardware interrupts (popup, interrupt pools), whose runlist placement depends on assembly.
- The bitmap of waiting CPUs of a VM; a VM wait is modelled by status.
- The extension-bit trap in the cluster budget, and cluster scheduling with the maximum switched off, where counts are not kept.
- Hardware TLB contents, page walks and translations; a translation is an opaque value.
- A software TLB that was never allocated, under which its operations do nothing.
- h2_sem and h2_mutex are taken as correct atomic primitives.
- tree_find and tree_max, which no kernel code here uses, and the timer's conversions between ticks and nanoseconds.
- Boot, loaders, logging, performance counters, power and device code, and the thread-library wrappers.
