# Verified models of the uCore kernel algorithms

The kernel in `Smart MLFG` is a uCore teaching kernel with modified schedulers. Its hard parts are
algorithms that rewrite shared linked structures in place. This project models them in Dafny and proves
what each step keeps and what whole runs guarantee, for all inputs and all reachable states.

| file | subject |
|---|---|
| `Options.dfy`, `Pointers.dfy` | missing results and pointers, shared |
| `RbTrees.dfy` | the red-black tree: insertion, deletion with its fixup, neighbours, search, self-check |
| `Rings.dfy`, `Lists.dfy` | the circular lists of `libs/list.h`, and the sequences they stand for |
| `Spans.dfy`, `SlobHeap.dfy`, `FirstFitPages.dfy` | free space as sorted blocks; the SLOB heap and the page allocator on it |
| `StrideScheduling.dfy` | the stride scheduler on its skew heap with wrapping 32-bit strides |
| `PidTables.dfy` | `get_pid` with its safe interval, and the pid hash |
| `ProcessTable.dfy` | process states, the family links and the run queue under fork, exit, wait and kill |
| `MlfqScheduling.dfy` | the smart and the basic multi-level feedback queue |
| `Timers.dfy` | the delta-encoded timer list |
| `Numerals.dfy` | number printing and `strtol` |
| `Vmas.dfy` | memory areas with the cached lookup, and the user range check |
| `PageTables.dfy` | page tables and reference counts, range unmap and copy, `dup_mmap` and `exit_mmap` |

## How the model is built

- A C object whose fields the code assigns is a class whose methods assign the same fields in the same
  order. The structs it links together live in a field `mem`, a map from addresses to structs, so that
  addresses can be compared and be adjacent, and a write through a pointer is an update of that map.
  Where a proof is easier for it the fields of one struct are split over several maps (`procs` and
  `links` of a process, `pde` and `pte` of the page tables).
- A class over linked structs has a ghost view of what the structs form (a tree, a heap, a block sequence, the children
  of each process) and a predicate `Valid()` that ties the two together. A method's contract says what
  it does to the view; the lemmas are about the view.
- The kernel is uniprocessor and reschedules only at known points, so each function between them is one
  atomic step. `Run` methods take any sequence of such steps.
- Arithmetic on machine words is written out: wrapping strides, 32-bit `strtol`, 64-bit division in two
  halves, wrapped ends of user ranges. Everything else is on integers, with the bounds proved where the
  code relies on them (timer deltas, the quotient of `divl`).
- Lists are sequences in the modules that use them; `Rings.dfy` proves that the pointer code of
  `libs/list.h` implements these sequence operations. `schedule` appears three times: with an arbitrary
  choice from the queue in `ProcessTable`, with the stride pick and with the level pick in the others.
- Assertions and panics of the code are preconditions that its callers are shown to meet, or results of
  their own where a caller can provoke them (`Kmalloc`, `InsertVma`, `MmMap`, `CopyRange`).

## Where the code differs from its documentation

The model follows the code in each case.

- The comment of `printnum` allows base 1, for which the recursion ends only for 0 (`PrintnumEnds`); bases are
  2 to 16 in `PrintNum`.
- A negative number padded with blanks is printed with the blanks behind the sign, so `strtol` cannot
  read it back (`Unreadable`); `PrintThenParse` gives the exact condition under which it can.
- The flag `-` is documented to pad on the right; a number gets minus signs on the left instead, and one of them
  is read back as its sign (`MinusPads`).
- A range whose end wraps around is not always refused by `mm_map`: one that begins inside a user page and
  whose wrapped end lies in the same page maps that page alone (`RangeMapped`).
- `kmalloc` routes every size with one header unit below a page to `slob_alloc`, whose assertion adds
  another unit, so sizes from 4080 to 4087 fail that assertion (`Kmalloc` says exactly when, `KmallocLimit`
  gives the first such size). A size of 0 can be given the arena's own unit (`Alloc`, `ArenaLost`,
  `KmallocZero`).
- The comment of `find_vma` includes `vm_end`; the code excludes it.
- `mm_map` looks only at the area that holds the start, so it panics when a later area begins inside the
  range (`MmMap` and `OverlapFromAbove` say exactly when, `MapBelow` gives a case).
- `rb_delete_fixup` reads the root once and may end on a node that a rotation has moved down since; the
  proof shows that this node is always black by then.
- The comments speak of the smart scheduler, but `kern/schedule/sched.c` selects the basic one; both are
  modelled, with the constant `smart` choosing between them.

## Model

| member | source | states |
|---|---|---|
| `RbTrees.RbTree.constructor` | Smart MLFG/kern/libs/rb_tree.c:30-57 | a new tree is valid and empty; only the two sentinel nodes are written |
| `RbTrees.RbTree.Rotate` | Smart MLFG/kern/libs/rb_tree.c:79-98 | the exact struct writes of a rotation in either direction, and nothing else |
| `RbTrees.RbTree.RotateAt` | Smart MLFG/kern/libs/rb_tree.c:79-101 | the tree at the rotated place becomes the textbook rotation of what was there, all links consistent, no colour changed |
| `RbTrees.RotatedFacts` | Smart MLFG/kern/libs/rb_tree.c:79-98 | a rotation keeps the in-order sequence and the nodes |
| `RbTrees.RbTree.InsertBinary` | Smart MLFG/kern/libs/rb_tree.c:114-130 | the descent ends, and the node hangs as a leaf at the only place where everything before it compares less or equal and everything after it greater |
| `RbTrees.RbTree.FixStep` | Smart MLFG/kern/libs/rb_tree.c:140-158 | one round of the insertion loop keeps the in-order sequence and every black height, leaves at most one red node under a red parent, and comes closer to the root whenever another round follows |
| `RbTrees.RbTree.InsertFixup` | Smart MLFG/kern/libs/rb_tree.c:160-169 | the insertion loop ends in a red-black tree with the same in-order sequence |
| `RbTrees.RbTree.Insert` | Smart MLFG/kern/libs/rb_tree.c:134-172 | for every total preorder: the tree is valid again, its sequence is the old one with the new node after all nodes comparing less or equal and before all greater ones, and memory outside the tree is untouched |
| `RbTrees.RbTree.Splice` | Smart MLFG/kern/libs/rb_tree.c:301-311 | a node with at most one child is replaced by that child or nil, whose parent field is set even when it is nil |
| `RbTrees.RbTree.SwapIn` | Smart MLFG/kern/libs/rb_tree.c:315-324 | the successor takes the place, the links and the colour of the deleted node, also when it is the right child of that node and when the spliced child is nil |
| `RbTrees.RbTree.DeleteStep` | Smart MLFG/kern/libs/rb_tree.c:250-285 | one round of the deletion loop either moves a one-black deficit closer to the root with the local root still naming the top node, or mends it, after which the possibly stale local root is a black node of the tree |
| `RbTrees.RbTree.DeleteFixup` | Smart MLFG/kern/libs/rb_tree.c:247-289 | the deletion loop ends in a red-black tree with the same in-order sequence, so the stale local root does no harm |
| `RbTrees.RbTree.OldRootBlack` | Smart MLFG/kern/libs/rb_tree.c:248-286 | what the last write to the stale root needs: that node is still in the tree and black, so painting it black changes nothing |
| `RbTrees.RbTree.Delete` | Smart MLFG/kern/libs/rb_tree.c:296-328 | from a valid tree and any of its nodes: the tree is valid, its sequence is the old one without exactly that node object, and memory outside the tree is untouched |
| `RbTrees.RbTree.Successor` | Smart MLFG/kern/libs/rb_tree.c:180-199 | the next node of the in-order sequence, or nil at its end; the climb past the sentinel ends |
| `RbTrees.RbTree.Predecessor` | Smart MLFG/kern/libs/rb_tree.c:206-225 | the node before in the in-order sequence, or nil at its start |
| `RbTrees.RbTree.StepAndBack` | Smart MLFG/kern/libs/rb_tree.c:343-356 | rb_node_next and rb_node_prev give the in-order neighbours and undo each other |
| `RbTrees.RbTree.Search` | Smart MLFG/kern/libs/rb_tree.c:233-240 | finds a match exactly when one exists, the shallowest one, after comparing at most 2h nodes with 2^h at most one more than the number of nodes |
| `RbTrees.DepthBound` | Smart MLFG/kern/libs/rb_tree.c:236-238 | no path in a red-black tree of n nodes is longer than 2*log2(n+1) |
| `RbTrees.RbTree.CheckTree` | Smart MLFG/kern/libs/rb_tree.c:380-405 | on every subtree of a valid tree no assertion of check_tree fails and its result is the black height |
| `RbTrees.InorderDistinct` | Smart MLFG/kern/libs/rb_tree.c:342-356 | no node occurs twice in the in-order sequence of a valid tree |
| `Rings.ListMemory.Init` | Smart MLFG/libs/list.h:41-43 | an entry alone in its circle |
| `Rings.ListMemory.AddAfter` | Smart MLFG/libs/list.h:80-82 | a circle becomes the circle with the new entry right after the given one; other memory is untouched |
| `Rings.ListMemory.AddBefore` | Smart MLFG/libs/list.h:67-69 | a circle becomes the circle with the new entry right before the given one |
| `Rings.ListMemory.Delete` | Smart MLFG/libs/list.h:92-94 | the circle without that entry, for every position, the sequence of entries losing exactly it |
| `Rings.ListMemory.DeleteInit` | Smart MLFG/libs/list.h:103-106 | the circle without that entry, which is then alone in its own circle |
| `Rings.ListMemory.IsEmpty` | Smart MLFG/libs/list.h:113-115 | true exactly when the list has no entries |
| `Rings.ListMemory.Next` | Smart MLFG/libs/list.h:122-124 | the following entry of the circle, the head after the last one |
| `Rings.ListMemory.Prev` | Smart MLFG/libs/list.h:131-133 | the preceding entry of the circle, the last one before the head |
| `Rings.InsertedRing` | Smart MLFG/libs/list.h:142-146 | linking a new entry between any two neighbours of a circle gives a circle again |
| `Rings.DeletedRing` | Smart MLFG/libs/list.h:155-158 | joining the neighbours of any entry but the head gives the circle without it |
| `Rings.EntriesWith` | Smart MLFG/libs/list.h:54-69 | adding after the head puts an entry in front, adding before the head puts it at the end |
| `Spans.CanonicalUnique` | Smart MLFG/kern/mm/kmalloc.c:170-180 | two lists of non-empty blocks in address order, none touching, that cover the same addresses are the same list |
| `Spans.FreeListDetermined` | Smart MLFG/kern/mm/kmalloc.c:98-185 | the free list is determined by what is owned and what is live, whatever the order of calls that led there |
| `Spans.GapExists` | Smart MLFG/kern/mm/kmalloc.c:166-168 | a block apart from the free space has exactly one place in the list by address |
| `Spans.FreedCanonical` | Smart MLFG/kern/mm/kmalloc.c:170-180 | returning a block with joining on both sides keeps blocks non-empty, sorted and apart |
| `Spans.FreedSpace` | Smart MLFG/kern/mm/kmalloc.c:170-180 | the free space grows by exactly the returned block |
| `Spans.TakenSpace` | Smart MLFG/kern/mm/kmalloc.c:123-130 | the free space loses exactly the first units of the block chosen |
| `Spans.TakenCanonical` | Smart MLFG/kern/mm/kmalloc.c:123-130 | unlinking or fragmenting keeps blocks non-empty, sorted and apart |
| `SlobHeap.MergeFacts` | Smart MLFG/kern/mm/kmalloc.c:170-180 | in the circular list the two adjacency tests see exactly the two true neighbours, also at the wrap-around |
| `SlobHeap.InsertedLinked` | Smart MLFG/kern/mm/kmalloc.c:170-180 | the writes of slob_free leave the structs linked as the circle of the new block sequence |
| `SlobHeap.SlobAllocator.constructor` | Smart MLFG/kern/mm/kmalloc.c:76-77 | the heap of the one-unit arena is valid |
| `SlobHeap.SlobAllocator.FindGap` | Smart MLFG/kern/mm/kmalloc.c:166-168 | from any rover the search ends, at the block after which the freed one belongs by address |
| `SlobHeap.SlobAllocator.Merge` | Smart MLFG/kern/mm/kmalloc.c:170-180 | the writes of both joins together |
| `SlobHeap.SlobAllocator.Free` | Smart MLFG/kern/mm/kmalloc.c:153-185 | freeing a live block keeps the invariant: circular and sorted with one descent, no touching neighbours, free and live blocks tiling the owned memory; the free list gains exactly the block at its place and the rover stands in front of it; a null block changes nothing at all |
| `SlobHeap.SlobAllocator.Search` | Smart MLFG/kern/mm/kmalloc.c:107-136 | one pass from the rover ends, finds the first block in circular order that is large enough, or proves that none is |
| `SlobHeap.SlobAllocator.TakeBlock` | Smart MLFG/kern/mm/kmalloc.c:123-130 | exact fit and fragmenting leave the circle of the remaining blocks, and the block with its unit count |
| `SlobHeap.SlobAllocator.Alloc` | Smart MLFG/kern/mm/kmalloc.c:98-151 | for every non-zero size: the loop ends and obtains the page exactly when no block fits and there is one, putting it in as slob_free does; it fails exactly when no block fits and there is none, changing nothing; otherwise the first fitting block in circular order from the rover, with or without the new page, becomes live and the rover stands before it, unless that block is the arena's own unit, which can only happen for a one-unit request and breaks the heap; the units of the live block hold the bytes asked for and no whole unit more |
| `SlobHeap.ArenaLost` | Smart MLFG/kern/mm/kmalloc.c:123-132 | once the arena's unit is given out the memory no longer forms the free list, or, if it was the only block, it is both out and still free |
| `SlobHeap.SlobAllocator.Kmalloc` | Smart MLFG/kern/mm/kmalloc.c:223-234 | for every size that takes this path: the assertion of slob_alloc fails if and only if the size plus two units reaches a page, and then nothing has changed; otherwise what slob_alloc does with one more unit, and the address one unit behind its block, the units from there on holding the size asked for and no whole unit more; only a size of 0 can be given the arena's unit |
| `SlobHeap.KmallocLimit` | Smart MLFG/kern/mm/kmalloc.c:223-234 | a size of 4080 panics on a fresh heap with a page at hand, 4079 is served |
| `SlobHeap.KmallocZero` | Smart MLFG/kern/mm/kmalloc.c:223-234 | on a fresh heap a size of 0 is given the arena's unit |
| `SlobHeap.SlobAllocator.Kfree` | Smart MLFG/kern/mm/kmalloc.c:260-285 | the object's block returns to the free space and stops being live |
| `SlobHeap.SlobAllocator.AllocThenFree` | Smart MLFG/kern/mm/kmalloc.c:98-185 | an allocation without a new page, then freed, restores the free list exactly, unless a one-unit request got the arena's unit |
| `FirstFitPages.PageList.constructor` | Smart MLFG/kern/mm/default_pmm.c:63-66 | the empty list is valid |
| `FirstFitPages.PageList.InitMemmap` | Smart MLFG/kern/mm/default_pmm.c:69-83 | any region of new pages is appended as written; the list still describes maximal free runs if and only if the region lies behind all free pages without touching them, and then it is one more run |
| `FirstFitPages.SideBySide` | Smart MLFG/kern/mm/default_pmm.c:69-83 | two adjacent regions one after the other: no runs describe the resulting list |
| `FirstFitPages.PageList.FindRun` | Smart MLFG/kern/mm/default_pmm.c:94-96 | stops at the head of the lowest run with at least n pages, or at the end if there is none |
| `FirstFitPages.PageList.Alloc` | Smart MLFG/kern/mm/default_pmm.c:86-116 | takes the first n pages of the lowest fitting run, fails if and only if no run fits (so the nr_free shortcut is right), and writes exactly the property of the rest; the list stays sorted with heads carrying the maximal runs, interior property 0 and nr_free their sum |
| `FirstFitPages.PageList.FindPlace` | Smart MLFG/kern/mm/default_pmm.c:123-130 | the place by address, between the runs around the freed one |
| `FirstFitPages.PageList.JoinHigh` | Smart MLFG/kern/mm/default_pmm.c:139-145 | the freed run takes over the run that begins right behind it |
| `FirstFitPages.PageList.JoinLow` | Smart MLFG/kern/mm/default_pmm.c:146-158 | walking back over the pages of the run right in front ends at its head, which takes over the freed run |
| `FirstFitPages.PageList.Free` | Smart MLFG/kern/mm/default_pmm.c:119-162 | for any part of an allocated block: free pages, tags and nr_free describe exactly the old free space plus the freed pages, as maximal runs, and the rest of the block stays allocated |
| `FirstFitPages.PageList.AllocThenFree` | Smart MLFG/kern/mm/default_pmm.c:86-162 | list, every property field and nr_free are restored exactly |
| `FirstFitPages.FlatFreed` | Smart MLFG/kern/mm/default_pmm.c:123-134 | the page sequence after linking is the one of the joined runs |
| `FirstFitPages.FlatTaken` | Smart MLFG/kern/mm/default_pmm.c:98-105 | unlinking n pages leaves the page sequence of the runs without them |
| `FirstFitPages.TagsFreed` | Smart MLFG/kern/mm/default_pmm.c:139-158 | after both joins every run head carries its length and every interior page 0 |
| `FirstFitPages.TagsTaken` | Smart MLFG/kern/mm/default_pmm.c:106-108 | the property written to the rest is right, and the stale one of the returned page is outside every run |
| `StrideScheduling.CompareIsOrder` | Smart MLFG/kern/schedule/default_sched.c:16-24 | the wrapped signed comparison of two stored strides is 1, 0 or -1 as the first true one is larger, equal or smaller, if these differ by at most BIG_STRIDE |
| `StrideScheduling.CompareIsRight` | Smart MLFG/kern/schedule/default_sched.c:16-24 | for all strides the comparison gives the sign of the signed residue of their difference; less than one word apart it is right if and only if the difference is a 32-bit signed number |
| `StrideScheduling.CompareOutsideWindow` | Smart MLFG/kern/schedule/default_sched.c:16-24 | one step outside that window the larger stride compares as smaller |
| `StrideScheduling.MergedFacts` | Smart MLFG/libs/skew_heap.h:29-59 | a merge has the nodes of both heaps, each once, and the root with the smaller key, the second heap winning ties |
| `StrideScheduling.MergedOrdered` | Smart MLFG/libs/skew_heap.h:29-59 | a merge of two heaps is in heap order |
| `StrideScheduling.RootIsMinimum` | Smart MLFG/kern/schedule/default_sched.c:112-113 | the root of a heap has the least key |
| `StrideScheduling.PlugOrdered` | Smart MLFG/libs/skew_heap.h:73-85 | putting a heap with no smaller root into the place of a subtree keeps heap order |
| `StrideScheduling.StrideQueue.Merge` | Smart MLFG/libs/skew_heap.h:29-59 | on memory: the structs form exactly the merged heap with all parent links right, and other memory is untouched |
| `StrideScheduling.StrideQueue.HeapInsert` | Smart MLFG/libs/skew_heap.h:61-67 | the heap with the one entry merged in |
| `StrideScheduling.StrideQueue.HeapRemove` | Smart MLFG/libs/skew_heap.h:69-85 | the heap with the entry's subtree replaced by the merge of its children, found through the parent link |
| `StrideScheduling.StrideQueue.Enqueue` | Smart MLFG/kern/schedule/default_sched.c:59-73 | adds exactly the process, and resets a slice that is 0 or too large |
| `StrideScheduling.StrideQueue.PickNext` | Smart MLFG/kern/schedule/default_sched.c:109-134 | whatever is queued: picks a process of least true stride and advances exactly its stride, by the largest number that priority times still fits into BIG_STRIDE, and by BIG_STRIDE for priority 0; the heap is then ordered by the old strides |
| `StrideScheduling.StrideQueue.Dequeue` | Smart MLFG/kern/schedule/default_sched.c:84-94 | removing the process whose key was raised leaves a heap ordered by the new strides |
| `StrideScheduling.StrideQueue.TickUntilResched` | Smart MLFG/kern/schedule/default_sched.c:145-153 | a process is asked to give up the processor at exactly the tick that uses up its slice, or at the first one if nothing is left, and no other slice changes |
| `StrideScheduling.WindowAdvance` | Smart MLFG/kern/schedule/default_sched.c:130-132 | advancing a minimum by at most BIG_STRIDE keeps all strides within BIG_STRIDE of each other |
| `StrideScheduling.WindowIsFair` | Smart MLFG/kern/schedule/default_sched.c:108-134 | from equal strides, the window is a bound on the difference of runs times pass |
| `StrideScheduling.WeightedShare` | Smart MLFG/kern/schedule/default_sched.c:108-134 | from that bound: runs_x * priority_y exceeds runs_y * priority_x by at most priority_x * priority_y * (1 + runs_x / BIG_STRIDE), so runs are as priorities up to one run for each unit of priority and the rounding |
| `StrideScheduling.StrideQueue.Schedule` | Smart MLFG/kern/schedule/sched.c:112-121 | requeue unless the caller blocks, pick and dequeue: the queue holds all other runnable processes, and the picked one had the least stride of them |
| `StrideScheduling.StrideQueue.Run` | Smart MLFG/kern/schedule/default_sched.c:108-134 | every round picks one process, which is counted, or the idle one if none can run; after any number of rounds from equal strides, with processes blocking on the way, runs_i * (BIG_STRIDE / priority_i) of any two processes that never blocked differ by at most BIG_STRIDE, and their runs are as their priorities up to that and the rounding |
| `PidTables.FirstUnusedUnique` | Smart MLFG/kern/process/proc.c:187-220 | the first unused pid in cyclic order is one pid |
| `PidTables.UnusedExists` | Smart MLFG/kern/process/proc.c:190 | with at most MAX_PROCESS pids in use one is free |
| `PidTables.StepUsed` | Smart MLFG/kern/process/proc.c:205-206 | stepping over a used pid, also around the end, leaves no unused pid behind |
| `PidTables.PidTable.Rescan` | Smart MLFG/kern/process/proc.c:199-217 | the scan with its restarts ends, at the first unused pid from where it began, with no pid in use up to next_safe |
| `PidTables.PidTable.GetPid` | Smart MLFG/kern/process/proc.c:187-220 | returns exactly the first unused pid in cyclic order after the last one, and no pid in use lies strictly between last_pid and next_safe |
| `PidTables.PidTable.Enlist` | Smart MLFG/kern/process/proc.c:441-448 | a new process gets that pid and goes to the front of proc_list and of its hash chain, no other chain changing; pids stay different |
| `PidTables.PidTable.Delist` | Smart MLFG/kern/process/proc.c:766-770 | the process leaves its hash chain and proc_list, no other chain changing, and the safe interval stays safe |
| `PidTables.PidTable.FindProc` | Smart MLFG/kern/process/proc.c:262-273 | the hash lookup returns a process exactly when proc_list has one with that pid, and that one |
| `PidTables.TableWith` | Smart MLFG/kern/process/proc.c:249-252 | for an arbitrary hash function: adding to list and chain keeps every chain the listed processes of its pids |
| `PidTables.TableWithout` | Smart MLFG/kern/process/proc.c:255-258 | removing from list and chain keeps it too |
| `ProcessTable.Kernel.constructor` | Smart MLFG/kern/process/proc.c:888-922 | the state with idle running and init its only, runnable child is valid |
| `ProcessTable.Kernel.Schedule` | Smart MLFG/kern/schedule/sched.c:107-128 | the caller is requeued exactly if runnable and not idle; one queued process leaves the queue to run, idle only when the queue is empty; the queue protocol holds afterwards |
| `ProcessTable.Kernel.Wake` | Smart MLFG/kern/schedule/sched.c:87-104 | a process that is not runnable becomes runnable, stops waiting, keeps its mark and its pid, and is queued unless it is current; a runnable one is left alone, and so is every other process |
| `ProcessTable.Kernel.Join` | Smart MLFG/kern/process/proc.c:163-167 | the link writes that put a process in front of a parent's children, and no others |
| `ProcessTable.ForestJoined` | Smart MLFG/kern/process/proc.c:160-169 | set_links turns a forest into the forest with the new first child |
| `ProcessTable.ForestAdopted` | Smart MLFG/kern/process/proc.c:498-507 | one round of the loop of do_exit moves the first child to init in a forest, although cptr is advanced before the sibling's yptr is corrected |
| `ProcessTable.ForestParted` | Smart MLFG/kern/process/proc.c:172-185 | remove_links turns a forest into the forest without that child |
| `ProcessTable.Kernel.Fork` | Smart MLFG/kern/process/proc.c:395-462 | refuses exactly at MAX_PROCESS or without memory, changing nothing then; otherwise the child is listed, in front of its parent's children, runnable, unmarked and at the end of the queue, every other process is as before, and the count is one higher |
| `ProcessTable.Kernel.HandOver` | Smart MLFG/kern/process/proc.c:498-513 | one adoption keeps every invariant of the dying state and wakes init exactly when it waits and the child is a zombie |
| `ProcessTable.Kernel.Exit` | Smart MLFG/kern/process/proc.c:487-517 | the caller is a zombie without children and keeps its mark and pid, its children stand reversed before init's; the parent was woken exactly if it waited, init exactly if it waited and inherits a zombie, both keeping mark and pid; no other process changed, and another process runs |
| `ProcessTable.AdoptionWakes` | Smart MLFG/kern/process/proc.c:508-512 | over the whole loop init is woken exactly if it waits and some adopted child is a zombie, and only once |
| `ProcessTable.Kernel.FindChild` | Smart MLFG/kern/process/proc.c:728-747 | finds a zombie child the caller asked for exactly if there is one (the first in sibling order for any child), and tells whether such children exist at all |
| `ProcessTable.Kernel.Reap` | Smart MLFG/kern/process/proc.c:766-773 | the zombie leaves list, table and its parent's children, and all invariants hold |
| `ProcessTable.Kernel.Sleep` | Smart MLFG/kern/process/proc.c:748-751 | the caller sleeps in its wait, only because it has a child it waits for and none of these is a zombie, and another process runs |
| `ProcessTable.Kernel.Wait` | Smart MLFG/kern/process/proc.c:728-774 | one pass: reaps a zombie child it was asked for (the first one for any child), sleeps if there are such children but none is a zombie, fails exactly if there are none; the new state in each case |
| `ProcessTable.Kernel.Resume` | Smart MLFG/kern/process/proc.c:751-756 | when schedule() returns in do_wait: a marked process exits as do_exit says, panics if it is init, and any other one starts its search again with nothing changed |
| `ProcessTable.Kernel.ZombieIsNotInit` | Smart MLFG/kern/process/proc.c:760-762 | the panic of do_wait cannot happen |
| `ProcessTable.Kernel.Kill` | Smart MLFG/kern/process/proc.c:778-792 | by pid: not found exactly if no process has it, already killed with nothing changed, or exactly that process marked, no longer waiting, runnable if it waited and in its old state otherwise, with its pid; no other process changes |
| `ProcessTable.Kernel.Yield` | Smart MLFG/kern/process/proc.c:708-712 | rescheduling a process that gives way keeps every invariant |
| `ProcessTable.Kernel.ParentAlive` | Smart MLFG/kern/process/proc.c:487-513 | in every reachable state no process has a zombie parent, and each is a child of its parent and of no other process |
| `ProcessTable.Kernel.NoMissedZombie` | Smart MLFG/kern/process/proc.c:739-751 | in every reachable state no process asleep in a wait for any child has a zombie child |
| `ProcessTable.Kernel.SomeoneCanEndIt` | Smart MLFG/kern/process/proc.c:748-755 | in every reachable state a sleeping process has a living child it waits for, and so on down to a younger process that can run: no wait is in vain |
| `ProcessTable.Kernel.Run` | Smart MLFG/kern/process/proc.c:390-792 | after every sequence of forks, exits, waits, kills and rescheduling: a process is on the run queue, once, if and only if it is runnable, not current and not idle; nr_process is one more than the list; no process has a zombie parent; no wait for any child overlooks a zombie; and while anyone sleeps some process other than idle can run; over the run every process lives on with its pid, a marked one marked and a dead one dead, until its parent reaps it as a zombie, and nobody comes but by birth |
| `ProcessTable.ChainLives` | Smart MLFG/kern/process/proc.c:390-792 | if in every step all live on but zombies reaped by their parents, then over the run each process lives on, marked if it was marked, or was once a zombie its parent could reap |
| `ProcessTable.Kernel.KillIsFinal` | Smart MLFG/kern/process/proc.c:751-792 | a killed process that any run later brings back from the schedule() of its wait ends as a zombie there and does not wait again |
| `ProcessTable.ExitWakes` | Smart MLFG/kern/process/proc.c:487-513 | the wakeups of a whole exit: the parent if it waits, init if it waits and some child of the dying process is a zombie, nobody else |
| `MlfqScheduling.Predicted` | Smart MLFG/kern/schedule/mlfq_sched.c:62-121 | the smart level rule keeps the level in range, the score in 0..1000 and the last burst within the slice |
| `MlfqScheduling.RatioRange` | Smart MLFG/kern/schedule/mlfq_sched.c:71-83 | the share of the slice used is 0..1000 thousandths |
| `MlfqScheduling.ScoreStep` | Smart MLFG/kern/schedule/mlfq_sched.c:85-88 | one update moves the score towards the ratio without passing it, and rests only within two below it |
| `MlfqScheduling.ScoreSettles` | Smart MLFG/kern/schedule/mlfq_sched.c:85-88 | under a constant ratio r the score settles in r-2..r, exactly at r from above |
| `MlfqScheduling.ThreeYields` | Smart MLFG/kern/schedule/mlfq_sched.c:91-108 | three yields in a row that used no tick put any process at level 0 with a score of at most 216 |
| `MlfqScheduling.BasicIsMoreGenerous` | Smart MLFG/kern/schedule/basic_mlfq_sched.c:55-77 | the basic rule never gives a lower priority than the smart one, and the same one after an exhausted slice |
| `MlfqScheduling.MlfqQueue.constructor` | Smart MLFG/kern/schedule/mlfq_sched.c:34-49 | four empty queues |
| `MlfqScheduling.MlfqQueue.Enqueue` | Smart MLFG/kern/schedule/mlfq_sched.c:129-155 | the process goes to the end of the queue of its new level with that level's full slice: level 0 if it never ran, and otherwise one lower if its slice is used up, and higher by the rule of the scheduler in use if not; proc_num is the total length |
| `MlfqScheduling.MlfqQueue.Dequeue` | Smart MLFG/kern/schedule/mlfq_sched.c:163-171 | the process leaves the queue of its level |
| `MlfqScheduling.MlfqQueue.Boost` | Smart MLFG/kern/schedule/mlfq_sched.c:180-208 | level 0 becomes q0+q1+q2+q3 in order, the others empty, every moved process at level 0 with a slice of 2, and no other process changes |
| `MlfqScheduling.BoostStep` | Smart MLFG/kern/schedule/mlfq_sched.c:189-205 | one round of the boost keeps what is still to come in order |
| `MlfqScheduling.MlfqQueue.PickNext` | Smart MLFG/kern/schedule/mlfq_sched.c:218-245 | a boost exactly after BOOST_TICKS counted ticks, which puts every queued process at level 0 with a slice of 2; then the first process of the highest non-empty level, whose count of runs is one higher, every other field being kept |
| `MlfqScheduling.MlfqQueue.Dispatch` | Smart MLFG/kern/schedule/sched.c:116-118 | pick and dequeue take the first process in order of levels, and the rest keep their places |
| `MlfqScheduling.MlfqQueue.ProcTick` | Smart MLFG/kern/schedule/mlfq_sched.c:258-272 | a runnable process loses a tick and asks for rescheduling exactly when none is left, its other fields and all other processes kept; the timer counts every tick, in 32 bits |
| `MlfqScheduling.MlfqQueue.Run` | Smart MLFG/kern/schedule/mlfq_sched.c:128-272 | one outcome for every pick; whatever arrives and ticks meanwhile, the process at position k of level 0 is dispatched at exactly the (k+1)-th pick, and if the first pick boosts this holds of all waiting processes, so every waiter runs within as many picks as were waiting |
| `MlfqScheduling.MlfqQueue.Turn` | Smart MLFG/kern/schedule/mlfq_sched.c:128-272 | for both schedulers, a process that is picked, ticked n times among any other events and queued again: with its slice used up it stands one level lower (the lowest stays), and rescheduling was asked for exactly then; giving way earlier it stands at level 0 in the basic scheduler, and in the smart one at level 0 with a score below 300 and one level higher otherwise; its slice is 2, 4, 8 or 16 by its level, its score is the weighted mean, and it is last in its queue |
| `MlfqScheduling.Levels` | Smart MLFG/kern/schedule/mlfq_sched.c:62-121 | the level, slice and score a process is queued with after a run, in both schedulers, in numbers |
| `MlfqScheduling.DispatchedOrder` | Smart MLFG/kern/schedule/mlfq_sched.c:218-245 | after a dispatch the processes of all levels stand in the order they had, less the first |
| `Timers.InsertedDeltas` | Smart MLFG/kern/schedule/sched.c:138-148 | the two deltas written at an insertion make every delta the distance to the deadline before it |
| `Timers.WithoutDeltas` | Smart MLFG/kern/schedule/sched.c:159-168 | adding a removed timer's delta to the next keeps all other deadlines |
| `Timers.Ticked` | Smart MLFG/kern/schedule/sched.c:181-183 | counting down the head delta counts down every deadline |
| `Timers.FiredOrLater` | Smart MLFG/kern/schedule/sched.c:184-199 | after a tick a timer that was queued has fired if it is due now, and is still queued if it is due later |
| `Timers.TimerList.Add` | Smart MLFG/kern/schedule/sched.c:132-151 | the timer is due its delay from now, stands after all timers due no later and before all due later; every other deadline is kept; deltas stay in 32 bits |
| `Timers.TimerList.Delete` | Smart MLFG/kern/schedule/sched.c:155-171 | exactly the timer leaves, if it was queued, and every other deadline is kept |
| `Timers.TimerList.Tick` | Smart MLFG/kern/schedule/sched.c:175-204 | fires exactly the timers due now, in order of deadline and then of adding; afterwards the head delta is not 0 |
| `Timers.TimerList.Run` | Smart MLFG/kern/schedule/sched.c:131-204 | every sequence of adds, deletes and ticks does to the deltas what it means for the deadlines: each tick fires exactly the pending timers due then, in order of deadline and then of adding |
| `Timers.TimerList.AddAndRun` | Smart MLFG/kern/schedule/sched.c:131-204 | a timer set for n ticks and not named again fires at exactly the n-th following tick and at no other, whatever other timers are added and deleted meanwhile, and is queued until then |
| `Timers.StaysUntilDue` | Smart MLFG/kern/schedule/sched.c:131-204 | through any events that do not name it a pending timer keeps its deadline until it is reached and is gone from then on |
| `Numerals.DivlFits` | Smart MLFG/libs/x86.h:11-16 | the two-step division never overflows the quotient of divl |
| `Numerals.DoDiv` | Smart MLFG/libs/x86.h:6-19 | the exact 64-bit quotient and remainder |
| `Numerals.DigitsEval` | Smart MLFG/libs/printfmt.c:40-55 | the digits of n in a base have the value n, are digits of that base in small letters, and start with no zero unless n is 0 |
| `Numerals.PrintnumEnds` | Smart MLFG/libs/printfmt.c:43-48 | for every base from 1: the calls of printnum to itself end if and only if the base is at least 2 or the number is 0 |
| `Numerals.Console.PrintNum` | Smart MLFG/libs/printfmt.c:40-55 | puts out the digits padded to the width |
| `Numerals.Console.PrintNumber` | Smart MLFG/libs/printfmt.c:228-264 | each numeric conversion puts out its sign or prefix, then the padded digits of the magnitude, also for the least 64-bit number |
| `Numerals.Int32Steps` | Smart MLFG/libs/string.c:251-258 | wrapping after every digit and after negation is wrapping once at the end |
| `Numerals.Strtol` | Smart MLFG/libs/string.c:204-259 | the loops compute the value and the end that the grammar gives, for every string and base |
| `Numerals.DigitLoop` | Smart MLFG/libs/string.c:233-253 | stops at the first character that is no digit of the base, with the value of the digits before it |
| `Numerals.ParseNumeral` | Smart MLFG/libs/string.c:204-259 | white space, either sign or none, the prefix that announces the base (0x or 0, or none) and digits parse to their value and are consumed to the end, for every base from 2 and for base 0 |
| `Numerals.PrintThenParse` | Smart MLFG/libs/printfmt.c:229-263 | for every number, width and each of the three paddings: the output of %x parses back in base 16, of %o in base 8 and of %d and %u in base 10 to the same number, and whole, if and only if the number has 32 bits with sign and there is no padding, zeros, blanks in front of no sign, or one minus sign in front of 0 |
| `Numerals.Unreadable` | Smart MLFG/libs/printfmt.c:229-237 | a negative number padded with blanks or minus signs has them behind its sign, and strtol stops after one character |
| `Numerals.MinusPads` | Smart MLFG/libs/printfmt.c:142-145 | a number of at least 0 under the flag that pads with minus signs: with one of them it reads back negated, with more strtol stops after one character |
| `Numerals.PointerRoundTrip` | Smart MLFG/libs/printfmt.c:251-256 | %p output parses back whole at base 0, as the signed number of the same 32 bits, if and only if it is not padded or padded with zeros |
| `Numerals.PrintAndParse` | Smart MLFG/libs/string.c:204-259 | the printing method and the parsing method one after the other, with the same condition |
| `Vmas.ScanFacts` | Smart MLFG/kern/mm/vmm.c:84-94 | the uncached scan finds an area that holds the address exactly if there is one |
| `Vmas.MemoryMap.FindVma` | Smart MLFG/kern/mm/vmm.c:78-101 | the lookup with its one-entry cache always equals the uncached scan, and the cache holds the last area found |
| `Vmas.MemoryMap.InsertVma` | Smart MLFG/kern/mm/vmm.c:115-143 | no assertion fails exactly if the new area overlaps no area at all, and then it stands at its place in a sorted list |
| `Vmas.NeighboursDecide` | Smart MLFG/kern/mm/vmm.c:131-137 | comparing with the two neighbours decides overlap with every area |
| `Vmas.MemoryMap.UserMemCheck` | Smart MLFG/kern/mm/vmm.c:537-559 | ends, and accepts exactly the non-empty, non-wrapping user ranges whose every byte lies in an area with the needed flag and, for writes, not in the first page of a stack area |
| `Vmas.UserAccessMeans` | Smart MLFG/kern/mm/vmm.c:539-541 | the range test on wrapped ends accepts exactly the non-empty, non-wrapping ranges inside user space |
| `Vmas.OnlyArea` | Smart MLFG/kern/mm/vmm.c:544-557 | one area decides every byte it holds, which lets the loop skip to its end |
| `Vmas.MemoryMap.MmMap` | Smart MLFG/kern/mm/vmm.c:160-188 | invalid, out of memory, panicking or mapped, each exactly when; it panics exactly if a later area begins inside the range; when mapped exactly the one area has entered the list, at its place: it begins with the page of the address and ends at the first page boundary at or above the end of the range, or after one page if the range wraps around |
| `Vmas.RangeMapped` | Smart MLFG/kern/mm/vmm.c:162-165 | the rounded range of an accepted call covers the whole range and less than a page more, unless it wraps around: then it is the first page only |
| `Vmas.MapBelow` | Smart MLFG/kern/mm/vmm.c:172-180 | one page mapped, then two pages from the page below it: the second call panics |
| `Vmas.OverlapFromAbove` | Smart MLFG/kern/mm/vmm.c:172-180 | what the check of mm_map misses: an area that begins inside the new one |
| `PageTables.SlotsDiffer` | Smart MLFG/kern/mm/pmm.c:399-410 | different pages of one or two directories never share a table entry: the entry of page v is number v mod 1024 of table v / 1024 |
| `PageTables.PageMaps.CreatePte` | Smart MLFG/kern/mm/pmm.c:365-411 | with create: a missing table is made from a free frame, no mapping changes, and it fails only when no frame is free |
| `PageTables.PageMaps.PageRemovePte` | Smart MLFG/kern/mm/pmm.c:430-464 | the mapping of this page is gone, all others stay, counts stay exact, and the frame is freed exactly when this was its last mapping |
| `PageTables.PageMaps.PageInsert` | Smart MLFG/kern/mm/pmm.c:576-594 | this page maps the frame, all others stay, counts stay exact whether it mapped nothing, this frame or another; fails exactly if a table is needed and no frame is free, changing nothing |
| `PageTables.RemovedSound` | Smart MLFG/kern/mm/pmm.c:456-462 | dropping any entry with its count keeps counts and free frames exact |
| `PageTables.AddedSound` | Smart MLFG/kern/mm/pmm.c:581-591 | filling an empty entry keeps them exact |
| `PageTables.ReplacedSound` | Smart MLFG/kern/mm/pmm.c:581-591 | replacing an entry by another frame, counting up before down, keeps them exact |
| `PageTables.PageMaps.UnmapRange` | Smart MLFG/kern/mm/pmm.c:467-482 | exactly the pages of the range are unmapped, although missing tables are skipped |
| `PageTables.PageMaps.CopyPage` | Smart MLFG/kern/mm/pmm.c:519-552 | a present page gets a fresh frame with equal contents, writable and usable by the user as the source is and with no other bits; nothing else changes |
| `PageTables.PageMaps.CopyRange` | Smart MLFG/kern/mm/pmm.c:507-556 | every present page of the range has its own fresh copy with the same write and user bits and absent ones none, despite the skipping; source, other pages and contents stay; it stops early only at a present page with no frame free, with the error if a table is missing there and in the failed assertion if only the page is |
| `PageTables.PageMaps.ExitRange` | Smart MLFG/kern/mm/pmm.c:485-498 | frees exactly the tables of the range, each once; counts, maps and free frames are sound afterwards if and only if these tables held no entry any more |
| `PageTables.PageMaps.DupMmap` | Smart MLFG/kern/mm/vmm.c:191-210 | all areas copied, last first, or stopped because vma_create has no memory for the next one, or stopped at a page of one of them as copy_range stops; exactly the areas from there on are in the copy; the source keeps its mappings |
| `PageTables.PageMaps.ExitMmap` | Smart MLFG/kern/mm/vmm.c:213-225 | every page of the directory's areas is unmapped and every table freed, both loops; other directories keep everything |
| `PageTables.PageMaps.DupThenExit` | Smart MLFG/kern/mm/vmm.c:191-225 | copying and then taking down exactly the areas that entered the copy: mappings, tables and the set of free frames are as before, also after a copy that failed for memory at any point; only a failed assertion stops in between |
| `PageTables.CopiedTwice` | Smart MLFG/kern/mm/vmm.c:194-208 | copies of disjoint regions add up |
| `PageTables.FreeDetermined` | Smart MLFG/kern/mm/pmm.c:430-464 | the free frames are determined by the tables and mappings, so none is lost or freed twice |
| `PageTables.SameMaps` | Smart MLFG/kern/mm/vmm.c:191-225 | the page table entries are determined by what each page maps to |

## Left out

- SlobHeap.SlobAllocator.Alloc: only align 0 and non-zero sizes, as all its callers pass them; after the arena's unit was given out nothing more is modelled.
- SlobHeap.SlobAllocator.Kmalloc: the small path only; `find_order` and the big-block list round the page count down.
- SlobHeap.SlobAllocator.Kfree: the small path only, as for `Kmalloc`.
- SlobHeap.SlobAllocator.Free: a nonzero size must be the one the block was allocated with, as its callers pass it.
- SlobHeap.SlobAllocator.Grow: the page obtained must not touch the arena block, which lies in the kernel image.
- FirstFitPages.PageList.InitMemmap: the operations that follow a region out of order are not modelled; its row says when that is.
- Page flags and the `ref` field in the page allocator: flags are reset on the base page only, and reference counts are the subject of `PageTables`.
- StrideScheduling.StrideQueue.Run: priorities are fixed, and a process that blocked does not come back; a fork enters with stride 0, outside the window on which the comparison rests.
- StrideScheduling.StrideQueue.constructor: the linked-list variant selected by another `USE_SKEW_HEAP` is not modelled.
- RbTrees.RbTree.constructor: `kmalloc` succeeds; the cleanup paths and `rb_tree_destroy` only free memory.
- RbTrees.RbTree.Search: the probe must be monotone along the tree order, without which a search tree means nothing.
- ProcessTable.Kernel.Schedule: the choice of the scheduling class is a parameter; the stride and level queues prove which process that is.
- ProcessTable.Kernel.Fork: the new pid is a parameter that no process has; `PidTables.PidTable.GetPid` proves that `get_pid` supplies one. Copying memory and the trap frame are left out.
- ProcessTable.Kernel.Exit: releasing the memory map is the subject of `PageTables`; the exit code is left out.
- ProcessTable.Kernel.Wait: one pass of the loop; what follows a wakeup is another step, `Resume`. Storing the exit code is left out.
- ProcessTable.Kernel.Kill: the one wait state of this kernel is that of `do_wait`, which is interruptible, so a flag stands for it.
- ProcessTable.Kernel.Run: a step that the running process cannot take (an exit of idle or init, also as the end of a wait, a fork with a used pid) is passed over instead of panicking.
- PidTables.PidTable.Enlist: the process count is that of the list plus idle, as `do_fork` checks it.
- MlfqScheduling.MlfqQueue.Run: the bound on waiting is in picks; one in ticks would need the ticks between picks.
- MlfqScheduling.MlfqQueue.ProcTick: the count of runs (`sched_count`) is an unbounded integer.
- Timers.TimerList.Tick: returns the timers that fire; waking their processes is `Wake` of `ProcessTable`, and the tick of the scheduling class is in the scheduler modules.
- Timers.TimerList.Add: fewer than 2^32 ticks of delay, which is the width of the field.
- Numerals.Console.PrintNumber: format scanning, `%s`, `%c`, `%e`, length modifiers and precision are left out.
- Numerals.PrintThenParse: `%o` and `%x` for v at least 0, since a negative one prints as a large unsigned number.
- Numerals.Parse: `long` is 32 bits wide on this machine, and overflow wraps as the code does not detect it; bytes of the string are characters.
- Vmas.MemoryMap.UserMemCheck: the branch without a memory map, for kernel threads, is left out.
- Vmas.MemoryMap.InsertVma: areas are never removed one by one in this kernel, so the cache never goes stale that way.
- PageTables.PageMaps.CopyRange: the contents of a frame are one value; the failed assertion for the page is a result, Panicked.
- PageTables.PageMaps.DupThenExit: the new directory starts without user tables; the kernel part of a directory, the directory frame itself and the TLB are left out.
- Swapped-out pages: entries are present or empty; the swap-in path does not keep the fields a round trip would need.
- `rr_sched.c`, `hash.c`, `rand.c`, `swapfs.c`: they would add only easy members; `hash32` is an arbitrary function.
- Boot, traps, context switch, devices, file access and user programs: hardware and glue.
