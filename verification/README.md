# Xinu with demand paging: a verified model

Xinu for x86 keeps its state in a handful of shared tables that every system call rewrites
with interrupts off. This project models six parts of it and proves what each part is for.
All table sizes except the fixed layout constants are symbolic.

- **Demand paging** (`BackingStore`, `Addresses`, `Paging*`, `Pager`). Frames, the inverted
  table, page directories and tables with reference counts, FIFO and clock replacement, and
  backing stores. Paged memory refines one flat array of bytes per process over every run of
  loads, stores, faults, process creation and termination; the searches for a frame go round
  the frames without leaving one out (`PagingSweep`), no frame or store outlives its owner
  (`PagingLife`), and the shared tables stay mapped (`PagingShared`).
- **Heaps** (`FreeList`, `HeapTheorems`, `Heap`, `HeapPages`). The address-ordered coalescing
  free list of `getmem`, `getstk` and `freemem`, and of the per-process virtual heap, whose
  bytes are the pages of the process.
- **Scheduling, semaphores, sleeping, messages** (`Sched*`, `QueueTable`, `QueueView`,
  `Scheduler`). All process queues are lists threaded through one table; every call is a step
  of one state machine. What each call does to each process (`SchedLife`) and to each semaphore
  (`SchedLocks`) is told apart from who runs next (`SchedOrder`, `SchedRotate`).
- **Ports** (`Port*`). Bounded message queues over two semaphores, with processes suspended
  inside calls, resets, deletions and kills interleaved in any order; the messages received are
  the arguments of the sends, in order (`PortOrder`); the table with its linked nodes takes
  exactly those steps, and the semaphores are the scheduler's.
- **The local file system** (`Lfs*`). A directory of files on one disk, opened and closed on a
  table of control blocks: index-block chains, cached blocks with dirty flags and on-disk free
  lists down to the bytes of the sectors. As long as no open file is opened, any sequence of
  calls on any files behaves like byte sequences with positions, and every block stays on
  exactly one file's chain or free list. `LfsLaws` says what that means to a user of one file.
- **qsort** (`QSort`). The three-way in-place partition.

`Bags` is about several lists over the same numbers; ports and files share it.

Pure specifications of the kernel's steps carry the invariants and the theorems about runs;
classes with the kernel's own arrays, links and loops are proved to compute exactly those
steps. Frames, disks and processes are values or table entries; the MMU is two steps, a load
that sets the accessed bit and a store that sets accessed and dirty (Intel SDM volume 3A,
section 4.8); a call runs without interruption up to the point where it gives up the processor.

## What the proofs found

- A page fault on a page whose table is already there breaks the kernel's invariant exactly
  when the frame chosen for the new page holds the last resident page of that same table: the
  table is freed and then written through (`PagingFault.FaultKeepsIff`). Under FIFO, with
  exactly three frames free at boot, it is reachable two steps after boot
  (`PagingBoot.HazardReachable`). Runs in `PagingTheorems` leave such a fault out.
- `roundmb` wraps a request of more than 2^32 - 8 bytes to zero; `getmem`, `vgetmem` and
  `getstk` then return an address that is still on the free list, and do so for no other
  request (`HeapCode.WrapHandsOutFree`).
- `recvtime(0)` puts a delay of zero at the front of the sleep queue, and `sleepms` with a delay
  of 2^31 or more a negative one; the next tick is then spent on it. In every sleep queue a run
  can reach, a tick counts for the sleepers that stay exactly when the front delay is positive
  (`SchedStall.TickCountsIff`), and a new sleeper leaves it so exactly when its own delay is
  (`SchedStall.DelayStallsIff`).
- `newqueue` tests `q > NQENT`; with the table's real size the test is wrong for exactly one
  request, the first one too many (`SchedCode.GuardFails`).
- `ptmaxcnt` is 16 bits wide; a reset keeps a port's capacity exactly when it is below 65536
  (`PortRun.ResetKeepsCapacity`).
- `lfsopen` copies the name into the control block without moving on, so the name there is always
  empty (`LfsCode.LocalFile.CopyName`). Its test for a file that is open already refuses the
  empty name when anything is open, and nothing else (`LfsFiles.FileSystem.Scan`); no file gets a
  second control block exactly when no open file is opened (`LfsFiles.FileSystem.Open`). With a
  second one, a byte written through the first is read as a filler through the second, and the
  file has two blocks for it (`LfsFiles.FileSystem.OpenTwice`).
- `freemem` and `vfreemem` test where a block starts and not where it ends; the free list stays
  inside the heap exactly when the block returned ends there (`HeapCode.FreeStaysInside`), and a
  block that starts at the end of the heap is always accepted (`HeapCode.EndOfHeapAccepted`).
- `ptcreate` does not test whether it got its semaphores: without any, every send and receive
  fails; with only the first, sends succeed up to the capacity and every receive fails
  (`PortStarved.WithoutSems`, `PortStarved.SendsFillUp`).
- `lfsopen` does not mark the directory as changed when it creates a file. Closing leaves the
  directory on disk current exactly when it was marked or already current
  (`LfsCode.LocalFile.Close`); a file created and closed without a write is not there
  afterwards (`LfsFiles.FileSystem.CreateAndClose`).
- `lfscreate` accepts a request for no index blocks, and then index block 0 is on the free list
  although its sector is also the first free data block (`LfsCode.Format`).
- `lfsetup`, when it allocates the first index block, changes the directory after writing it;
  the data-block allocation that always follows writes it again, so the file system stays in
  step (`LfsCode.LocalFile.Setup`).

## Model

| member | source | states |
|---|---|---|
| BackingStore.SlotsDisjoint | paging/read_bs.c:44-54 | Pages of different stores, or different pages of one store, occupy disjoint ranges of eight disk blocks. |
| BackingStore.ReadBackSame | paging/write_bs.c:45-55 | A page written to a slot is the page read from it. |
| BackingStore.ReadBackOther | paging/write_bs.c:45-55 | Writing one slot changes no other slot's page. |
| Addresses.FieldsRebuildAddress | system/paging.c:272-282 | Directory index, table index and offset together are the address, for all 32-bit addresses. |
| Addresses.IndicesOfVpn | system/paging.c:276-289 | The indices of an address are those of its page number. |
| Addresses.WalkIndices | system/paging.c:272-289 | Read as numbers, the fields of an address are its quotient and remainder by the page size and the directory and table index of its page that the paging model uses. |
| Addresses.PageStart | system/ipt.c:261-265 | The address evictFrame computes from a page number has that page number and offset zero. |
| PagingEvict.EvictTables | system/ipt.c:299-310 | After an eviction every private table that is left is reached from one directory entry, its count is its number of present entries, and that number is at least one: a table goes exactly when its last page leaves. |
| PagingEvict.EvictPages | system/ipt.c:244-297 | Page frames and present heap entries still correspond one to one. |
| PagingEvict.EvictCore | system/ipt.c:244-297 | Eviction keeps the whole paging invariant. |
| PagingEvict.EvictFlat | system/ipt.c:278-295 | Eviction changes no byte any process sees: a page that differs from its store is written back first. |
| PagingEvict.EvictStatuses | system/ipt.c:299-308 | The victim's frame becomes free, no frame but a page table's changes otherwise, and nothing but frames, memory and disk is touched. |
| PagingClock.AgedIsBitChange | system/ipt.c:138-159 | In a state that satisfies the invariant the bits read are never accessed=0 with dirty=1, the panic state, and ageing never loses the fact that a page was written. |
| PagingClock.ClockFinds | system/ipt.c:83-102 | From any hand position the scan reaches a frame within its distance plus one round per bit still set. |
| PagingClock.ClockStops | system/ipt.c:87-98 | The frame the scan stops at is free, or a page with both bits clear. |
| PagingClock.ClockBound | system/ipt.c:76-113 | The 3*NFRAMES+1 probes find a frame exactly when some frame is free or holds a page. |
| PagingClock.ClockFlat | system/ipt.c:76-113 | The scan changes no byte any process sees. |
| PagingSelect.SelectFinds | system/ipt.c:59-74 | Under either policy a frame is found exactly when one is free or holds a page. |
| PagingSelect.SelectKeeps | system/ipt.c:163-203 | Taking a frame, with the eviction it may need, keeps the invariant and the frame list. |
| PagingSelect.SelectFlat | system/ipt.c:163-203 | Taking a frame changes no byte any process sees. |
| PagingSweep.FreeSweeps | system/ipt.c:172-187 | The search for a free frame takes the first one going round from the hand, and the hand is then behind it; without one it has looked at every frame once. |
| PagingSweep.ClockSweeps | system/ipt.c:83-102 | The clock takes the first frame, going round from the hand, that is free or whose bits are clear when the hand gets there, every pass having aged a page once; the hand is then behind it, and every other page has aged once per pass. |
| PagingSweep.SelectMoves | system/ipt.c:80-98 | Under either policy the next search starts behind the last frame this one looked at, which is the one it took unless FIFO had to evict. |
| PagingSweep.RunGoesRound | system/ipt.c:80-102 | Over every run of loads, stores, faults, creations and kills the searches, one after the other, look at the frames round and round. |
| PagingSweep.EveryFrameBetween | system/ipt.c:83-102 | Between two looks at one frame the searches of a run have looked at every other frame. |
| PagingSweep.AccessMarks | system/ipt.c:136-155 | A load sets the accessed bit of its own page's entry, a store the dirty bit too, and neither changes any other page's. |
| PagingSweep.SecondChance | system/ipt.c:138-155 | The clock does not take a page that was accessed before the hand has passed it once and every other frame too, nor one that was written before it has passed it twice. |
| PagingInstall.InstallTableCore | system/paging.c:48-55 | Installing a new page table keeps the invariant with that table as the only empty one. |
| PagingInstall.InstallPageCore | system/paging.c:62-74 | Installing the page makes it resident and restores the full invariant, reference count included. |
| PagingInstall.InstallPageFlat | system/paging.c:62-74 | The page brought in reads as it did while it was on disk, and so does every other page. |
| PagingFault.FaultKeeps | system/paging.c:41-74 | A fault that is not the hazard keeps the invariant, changes no byte, and leaves the page resident. |
| PagingFault.HazardBreaks | system/paging.c:58-74 | The hazard leaves a frame marked as the page's while the directory entry of its table is absent. |
| PagingFault.FaultKeepsIff | system/paging.c:58-74 | A completed fault keeps the invariant if and only if the frame it takes is not the last page of the faulting page's own table. |
| PagingFault.EvictLeavesRoom | system/ipt.c:299-308 | Evicting a page always leaves a second frame that is free or holds a page: if it was the only page, its table is freed with it. |
| PagingFault.FaultFrames | system/paging.c:48-58 | A fault completes exactly when its table is present, or some frame holds a page, or two frames are free. |
| PagingStores.FillTakes | paging/bs.c:54-65 | bs_init takes distinct free stores, one per 200 pages or part of it, each opened for the pages it backs; the free count drops by their number; allocate_bs does not fail. |
| PagingStores.ReleaseReturns | paging/bs.c:33-42 | freeProcBS returns exactly the process's stores and raises the free count by their number. |
| PagingStores.FirstFreeIsLowest | paging/allocate_bs.c:26-41 | No store below the one allocated is free. |
| PagingProcs.CreatedCore | system/vcreate.c:44-82 | vcreate keeps the invariant, the free-store count included. |
| PagingProcs.CreatedFlat | system/vcreate.c:44-82 | vcreate changes no other process's heap. |
| PagingProcs.KilledCore | system/kill.c:36-40 | kill releases every frame and store of the process and keeps the invariant. |
| PagingProcs.KilledFlat | system/kill.c:36-40 | kill changes no other process's heap. |
| PagingRun.TouchedKeeps | system/ipt.c:138-151 | A load's accessed bit keeps the invariant and every byte. |
| PagingRun.WrittenKeeps | system/ipt.c:138-151 | A store's accessed and dirty bits keep the invariant; exactly the stored byte changes. |
| PagingRun.StepRefines | system/paging.c:10-81 | Every event keeps the invariant and is, on flat memory, a read, a write, a new heap, a heap gone, or nothing. |
| PagingTheorems.RunRefines | system/paging.c:10-81 | Every run of the paged system is a run of flat per-process memory. |
| PagingTheorems.LoadSeesLastStore | system/paging.c:41-74 | In every run, under either policy, a load returns the byte its process last stored there. |
| PagingTheorems.FifoByAge | system/ipt.c:223-235 | In every run the frame list is in order of loading, also after kills have taken frames out of its middle. |
| PagingTheorems.VictimIsOldest | system/ipt.c:318-339 | The FIFO victim is the resident page loaded longest ago. |
| PagingBoot.BootInv | system/ipt.c:341-345 | The state at boot satisfies the invariant, for every number of frames and either policy. |
| PagingBoot.HazardReachable | system/paging.c:58-74 | With three free frames at boot, one vcreate and one fault lead to a state where the next fault is the hazard. |
| PagingLife.CreateOutcome | system/vcreate.c:44-82 | vcreate starts the process exactly when there are stores enough and some frame is free or holds a page; a refusal changes no process and no store. |
| PagingLife.KillFrees | system/kill.c:36-40 | kill frees every frame and every store of the process, and no other. |
| PagingLife.StepOwned | system/ipt.c:40-52 | Every step keeps it that each directory in use is a live process's own and each store in use backs a live process's heap. |
| PagingLife.NoLeaks | system/ipt.c:40-52 | In every run from boot each frame in use is shared, the null process's or a live process's with a virtual heap, and each store in use backs one. |
| PagingShared.StepShared | system/ipt.c:299-310 | Evictions, new tables, pages, creations and kills leave the shared tables and the shared part of every directory alone. |
| PagingShared.SharedInRuns | system/paging.c:171-182 | In every run from boot the shared tables stay where they are and the directory of every process with a virtual heap maps them. |
| PagerCode.Pager.FreeFrameFIFO | system/ipt.c:16-38 | Unlinking a frame from any position of the doubly linked list removes just that frame from the sequence it stands for. |
| PagerCode.Pager.InitFrameFIFO | system/ipt.c:223-235 | The new page frame becomes the first element. |
| PagerCode.Pager.PickFrameFIFO | system/ipt.c:318-339 | The last element is taken, or SYSERR returned if there is none. |
| PagerCode.Pager.FreeFrame | system/ipt.c:3-14 | The frame is cleared, and leaves the list if it was a page under FIFO. |
| PagerCode.Pager.InitFrame | system/ipt.c:206-221 | The entry is set, with count 0, and joins the list if it is a page under FIFO. |
| PagerCode.Pager.WriteBs | paging/write_bs.c:31-55 | The loop of eight block writes puts exactly that page in its slot. |
| PagerCode.Pager.ReadBs | paging/read_bs.c:31-54 | The loop of eight block reads returns exactly that slot's page. |
| PagerCode.Pager.GetAndSetUM | system/ipt.c:115-161 | The bits change as one ageing step; the panic branch is not reached. |
| PagerCode.Pager.DecRefCount | system/ipt.c:299-310 | The table loses a reference and is freed with the last one. |
| PagerCode.Pager.EvictFrame | system/ipt.c:244-297 | The code's state afterwards is the specified eviction of that frame. |
| PagerCode.Pager.GetNewFrameFIFO | system/ipt.c:163-203 | The loop and eviction compute the specified selection. |
| PagerCode.Pager.SweepClock | system/ipt.c:83-102 | The probe loop computes the specified clock scan, its new hand included. |
| PagerCode.Pager.GetNewFrameGCA | system/ipt.c:76-113 | Scan, eviction and initialisation compute the specified selection. |
| PagerCode.Pager.GetNewFrame | system/ipt.c:59-74 | The selection of the current policy. |
| PagerCode.Pager.NewPageTable | system/paging.c:121-142 | The loop clears every entry of the new table. |
| PagerCode.Pager.PfHandler | system/paging.c:37-74 | The handler's new state is the specified fault, both cases. |
| PagerCode.Pager.HandleFault | system/paging.c:25-81 | An address past the heap kills the process; otherwise the fault is handled. |
| PagerCode.Pager.GetBs | paging/get_bs.c:27-39 | A closed store is opened with that many pages; every bad argument is refused. |
| PagerCode.Pager.AllocateBs | paging/allocate_bs.c:26-41 | The loop takes the first unallocated store, or fails if there is none or the size is not 1 to 200 pages. |
| PagerCode.Pager.BsInit | paging/bs.c:48-66 | The loop computes the specified allocation of all stores a heap needs. |
| PagerCode.Pager.DeallocateBs | paging/deallocate_bs.c:16-43 | An allocated, unused store is released; others are refused. |
| PagerCode.Pager.FreeProcBS | paging/bs.c:29-46 | The loop computes the specified release of a process's stores. |
| PagerCode.Pager.CountBs | paging/count_bs.c:8-16 | The loop's count of unallocated stores equals free_bs_count in every valid state. |
| PagerCode.Pager.FillDirectory | system/paging.c:157-175 | The loops build a directory whose private entries are all absent. |
| PagerCode.Pager.VirtualCreate | system/vcreate.c:44-83 | Refused for lack of stores or frames, otherwise the specified creation. |
| PagerCode.Pager.FreeProcFrames | system/ipt.c:40-52 | The loop frees exactly the process's frames and leaves the others in list order. |
| PagerCode.Pager.KillProcess | system/kill.c:36-40 | The specified termination. |
| FreeList.CanonicalUnique | system/freemem.c:51-67 | Two ordered, disjoint, non-adjacent lists that cover the same bytes are the same list. |
| FreeList.FirstFitIsFirst | system/getmem.c:26-47 | No lower block would have done, and none at all if getmem fails. |
| FreeList.LastFitIsLast | system/getstk.c:30-42 | No higher block would have done, and none at all if getstk fails. |
| FreeList.CarveLowGives | system/getmem.c:28-42 | Exactly the block handed out leaves the free bytes; the list stays canonical and the total drops by its size. |
| FreeList.CarveHighGives | system/getstk.c:43-51 | The same for the top of the highest block. |
| FreeList.ReleaseTakes | system/freemem.c:35-67 | A block is accepted if and only if none of its bytes is free already; then exactly its bytes become free, and the list is canonical again. |
| HeapTheorems.GiveThenTake | system/freemem.c:51-67 | Returning a block that was handed out restores the list exactly. |
| HeapTheorems.ReleaseAllTakes | system/freemem.c:35-67 | A sequence of blocks can all be returned if and only if they are disjoint from each other and from free memory; just their bytes are added. |
| HeapTheorems.ReleaseOrder | system/freemem.c:35-67 | Any order of returns gives the same list, or fails. |
| HeapTheorems.StepDivides | system/getmem.c:22-47 | Every call keeps the heap divided between free bytes and live blocks. |
| HeapTheorems.LiveCanReturn | system/freemem.c:41-47 | A live block is never refused. |
| HeapTheorems.RunDivides | system/getstk.c:23-51 | In every run live blocks overlap neither each other nor free memory, and no byte is lost. |
| HeapTheorems.StartDivided | system/vgetmem.c:69-79 | One free block is a heap divided that way. |
| HeapCode.Arena.FindFirst | system/getmem.c:24-47 | The walk over in-place headers stops at the first block that is large enough. |
| HeapCode.Arena.GetMem | system/getmem.c:9-50 | Zero bytes refused; otherwise first fit, the block's low part unlinked or split off in place. |
| HeapCode.Arena.FindLast | system/getstk.c:25-37 | The scan ends with the last block that is large enough and its predecessor. |
| HeapCode.Arena.GetStk | system/getstk.c:9-52 | Last fit, the block's top part; the address is its highest word. |
| HeapCode.Arena.FindPlace | system/freemem.c:28-33 | The walk ends at the block's place in address order. |
| HeapCode.Arena.FreeMem | system/freemem.c:9-70 | Addresses outside the heap and overlapping blocks refused without change; otherwise inserted and joined on both sides in place. |
| HeapCode.Arena.FreeStk | include/memory.h:16-19 | From the address getstk returned, freestk frees exactly that block. |
| HeapCode.VHeap.VGetMem | system/vgetmem.c:7-62 | The first request sets up the whole virtual heap as one block; then first fit as in getmem; what is handed out lies inside the heap. |
| HeapCode.VHeap.VFreeMem | system/vfreemem.c:5-82 | As freemem, within the process's virtual heap, and refused without one. |
| HeapCode.FreeUndoesGet | system/freemem.c:25-67 | For every request that does not wrap, freeing undoes getmem and getstk block for block. |
| HeapCode.WrapHandsOutFree | include/memory.h:9 | getmem (and so vgetmem) and getstk hand out memory that is still free exactly for requests above 2^32 - 8. |
| HeapCode.FreeStaysInside | system/freemem.c:18-23 | Of the blocks freemem accepts, exactly those that end inside the heap keep the free list inside it. |
| HeapCode.EndOfHeapAccepted | system/freemem.c:18-23 | A block that starts where the heap ends is accepted whatever is free. |
| HeapPages.InsideIsHeapPage | include/paging.h:53-72 | The virtual heap starts at page VPN0, and an address is inside it exactly when its page is a heap page of the process. |
| HeapPages.HandedOutOnPages | system/vgetmem.c:64-81 | In every run of vgetmem and vfreemem the bytes handed out and the bytes free are, together, exactly those on heap pages of the process. |
| SchedLists.RankPlace | system/insert.c:22-25 | insert's place is after every key at least as large and before every smaller one. |
| SchedLists.RankDescending | system/insert.c:22-34 | Inserting there keeps the list in order. |
| SchedLists.DeltaExact | system/insertd.c:22-39 | insertd gives the newcomer exactly its delay and changes no other process's remaining time. |
| SchedLists.CutExact | system/unsleep.c:37-44 | unsleep changes no other process's remaining time. |
| SchedMoves.SwitchStruct | system/resched.c:39-44 | The ready list is never empty when a switch is needed; the process switched to is at least as urgent as all others, and queues and states still match. |
| SchedMoves.ReschedStruct | system/resched.c:11-54 | After resched nobody ready is more urgent than the current process, unless rescheduling is deferred. |
| SchedMoves.ReadyStruct | system/ready.c:21-27 | Making a process ready keeps queues, states and order. |
| SchedSteps.DeferStopSteady | system/resched.c:73-80 | Ending the last defer restores the scheduling invariant. |
| SchedSteps.SendSteady | system/send.c:23-38 | send keeps the invariant for receivers in either kind of wait and for everybody else. |
| SchedSteps.SuspendSteady | system/suspend.c:18-37 | suspend keeps the invariant, of a ready and of the current process. |
| SchedSteps.ResumeSteady | system/resume.c:18-28 | resume keeps the invariant. |
| SchedSteps.WakeupSteady | system/wakeup.c:13-18 | wakeup moves exactly the expired sleepers to the ready list and keeps the invariant. |
| SchedSteps.TickSteady | system/clkhandler.c:31-39 | The sleep queue's part of a tick keeps the invariant. |
| SchedSems.WaitInv | system/wait.c:18-35 | wait keeps the invariant: a negative count is the number of waiters, otherwise nobody waits. |
| SchedSems.SignalInv | system/signal.c:17-28 | signal keeps it. |
| SchedSems.BumpsKeep | system/signaln.c:28-34 | `n` increments release the first waiters in order, as many as there are. |
| SchedSems.SignalManyInv | system/signaln.c:17-35 | signaln keeps it. |
| SchedSems.DeleteInv | system/semdelete.c:17-33 | semdelete keeps it and leaves nobody waiting on that semaphore. |
| SchedSems.ResetInv | system/semreset.c:19-33 | semreset keeps it and leaves nobody waiting on that semaphore. |
| SchedSems.KillInv | system/kill.c:42-63 | Killing a process in any state keeps it; a waiter's place goes back to the count. |
| SchedRun.StepInv | system/resched.c:19-49 | Every call and tick keeps the whole invariant: queues match states, counts match waiters, the current process is most urgent. |
| SchedRun.RunInv | system/resched.c:19-49 | It holds in every state of every run. |
| SchedRun.DeferredStays | system/resched.c:17-22 | No call switches processes while defers are outstanding. |
| SchedRun.StepDefers | system/resched.c:66-80 | Only the two calls for it change the number of outstanding defers, by one. |
| SchedRun.DeferredRun | system/resched.c:17-22 | Over every run: as long as more defers have been asked for than undone, the same process runs. |
| SchedLife.StepLife | system/kill.c:42-63 | What every call does to every single process, its state (running and ready taken as one), semaphore, priority and message: which processes wait, signal, signaln, semreset, semdelete, sleep, the tick, send, receive, recvtime, suspend, resume, kill and create change, into what, and that nothing else about anybody changes. |
| SchedOrder.NoOvertaking | system/resched.c:28-49 | Nobody is switched to past a process ahead of it that stays ready, and their order stays. |
| SchedOrder.ReadyFifo | system/insert.c:22-34 | Over every run, of two ready processes the one behind does not run while the other stays ready. |
| SchedOrder.JoinsBehindEquals | system/insert.c:22-34 | A process inserted in the ready list goes behind all that are equally or more urgent and in front of the rest. |
| SchedOrder.NewcomersBehind | system/insert.c:22-34 | In every call, whoever joins the ready list is afterwards behind everybody on it who is at least as urgent and stays. |
| SchedRotate.Rotates | system/resched.c:28-49 | When the current process yields or its quantum ends and somebody ready is as urgent, the old head of the ready list runs with a full quantum, and the old current process is on the list behind every process of its priority and in front of the less urgent. |
| SchedRotate.SwitchesIff | system/resched.c:19-31 | At a yield or at the end of the quantum another process runs if and only if one as urgent is ready and rescheduling is not deferred. |
| SchedRotate.RunsOn | system/resched.c:19-31 | Otherwise no queue and no process changes; a deferred attempt is remembered. |
| SchedRotate.WakeRotates | system/ready.c:21-27 | When resume, send or signal makes a process ready, the current process gives way exactly when the newcomer or anybody else ready is as urgent, and goes behind all who are. |
| SchedRotate.NewcomerRuns | system/resched.c:28-44 | In every call made while rescheduling is not deferred, a process that joins the ready list and is as urgent as the current one takes the processor from it, also when several are released at once. |
| SchedRotate.StepQuantum | system/clkhandler.c:41-47 | Whoever is switched to has a full quantum, and only the clock takes from it, one tick at a time, switching to nobody before it is used up. |
| SchedRotate.LeavesByRunning | system/resched.c:39-44 | A ready process leaves the ready list only by running, being suspended or being killed. |
| SchedRotate.RoundRobin | system/resched.c:28-49 | Round robin, over every run: a ready process that nobody suspends or kills runs before processes of its priority have given way more often than there were such processes before it. |
| SchedRotate.BeforeBound | system/insert.c:22-34 | There are fewer of those before it than ready processes of its priority. |
| SchedMail.SendDelivers | system/send.c:28-38 | An accepted message is in the recipient's table entry with its flag set; a recipient in receive or recvtime can then run and is off the sleep queue; nobody else's entry changes. |
| SchedMail.MailKept | system/send.c:24-27 | No call but the recipient's own receive, or its death, changes a waiting message. |
| SchedMail.LastSendWaits | system/receive.c:20-22 | Over every run: until it takes it or is killed, a process has the message of the last send to it that was accepted; later ones are refused and change nothing. |
| SchedMail.TakeClears | system/receive.c:20-22 | Taking the message makes room for the next and touches no other process. |
| SchedMail.ReceiveWaitsIff | system/receive.c:16-19 | receive and recvtime stop the caller exactly when no message is waiting. |
| SchedMail.LifeCycle | system/kill.c:42-63 | A killed process is free, a suspended one suspended, a resumed one ready or running. |
| SchedLocks.NoPassing | system/queue.c:22-50 | No call but kill takes a waiter off a semaphore's queue past one that stays. |
| SchedLocks.WaitersFifo | system/signal.c:26-28 | Over every run, waiters are released in order of arrival. |
| SchedLocks.StepSem | system/semreset.c:19-33 | What every call does to every semaphore: its count, whether it is in use, and its queue, joined at the end, left at the front, or anywhere by a kill. |
| SchedMutex.StepLock | system/wait.c:29-35 | Holders, free places and places lost with killed holders always make up the initial count. |
| SchedMutex.AtMostHolders | system/wait.c:29-35 | In every run a semaphore created with count c and used as a lock has at most c holders, and nobody waits while a place is free. |
| SchedMutex.FreshLock | system/semcreate.c:18-25 | semcreate(c) starts it that way. |
| SchedTime.TickKeys | system/clkhandler.c:31-38 | Lowering the front key lowers every remaining time by one, and the expired ones are exactly those that had one tick left. |
| SchedTime.OthersKeepTime | system/unsleep.c:37-44 | No other process's call changes how long a sleeper has left. |
| SchedWake.TickExact | system/wakeup.c:13-18 | A tick makes ready exactly those with one tick left and takes one tick off everybody else. |
| SchedWake.WakesOnTime | system/clkhandler.c:31-38 | In every run a process with d ticks to go, neither killed nor messaged, sleeps on until exactly the d-th tick makes it ready. |
| SchedWake.SleepSetsTime | system/sleep.c:26-48 | sleepms(d) gives exactly d ticks, for every d from 1 to 2^31 - 1. |
| SchedWake.RecvSetsTime | system/recvtime.c:25-32 | So does recvtime(d) without a message waiting. |
| SchedStall.LaterAlways | system/insertd.c:22-39 | In every run, whatever delays are asked for, no key behind the front of the sleep queue is negative. |
| SchedStall.TickCountsIff | system/clkhandler.c:31-38 | In such a queue a tick counts for those who sleep on if and only if the front delay is positive. |
| SchedStall.DelayStallsIff | system/recvtime.c:25-31 | When a process goes to sleep, by recvtime or sleepms, the next tick counts for those who sleep on if and only if its delay, as a signed number, is positive; otherwise everybody already asleep loses a tick. |
| QueueTable.PutTable | system/queue.c:22-28 | Linking an entry between two neighbours inserts it in that queue and leaves all queues well-formed and disjoint. |
| QueueTable.DropTable | system/getitem.c:53-56 | Unlinking an entry from anywhere removes it from its queue and from no other. |
| QueueTable.OpenTable | system/newqueue.c:21-28 | A new head and tail form an empty queue beside the others. |
| SchedCode.Kernel.constructor | system/initialize.c:146-199 | Boot establishes the tables and the invariant, for every table size. |
| SchedCode.Kernel.NewQueue | system/newqueue.c:9-30 | The next two entries become an empty queue; refused past the end. |
| SchedCode.GuardFails | system/newqueue.c:15-17 | The bounds test is wrong for exactly the first queue too many. |
| SchedCode.Kernel.Enqueue | system/queue.c:11-30 | The process joins the queue at its tail. |
| SchedCode.Kernel.Dequeue | system/queue.c:36-52 | The first process leaves the queue, EMPTY if there is none. |
| SchedCode.Kernel.GetFirst | system/getitem.c:9-22 | The same without clearing the links. |
| SchedCode.Kernel.GetItem | system/getitem.c:47-58 | The process leaves its queue, wherever it is in it. |
| SchedCode.Kernel.FindRank | system/insert.c:22-29 | The loop stops at the specified place, tail sentinel included. |
| SchedCode.Kernel.Insert | system/insert.c:9-36 | The process is linked in there with its key. |
| SchedCode.Kernel.FindDelta | system/insertd.c:22-28 | The loop uses up the delay along the way. |
| SchedCode.Kernel.InsertD | system/insertd.c:9-42 | The process is linked in and its successor's key lowered. |
| SchedCode.Kernel.Resched | system/resched.c:11-54 | The code computes the specified reschedule; `SchedRotate` says who runs after it. |
| SchedCode.Kernel.DeferOn | system/resched.c:66-71 | The count of defers goes up, and the first one forgets earlier attempts. |
| SchedCode.Kernel.DeferOff | system/resched.c:73-80 | The count goes down, and the last one reschedules if it was attempted. |
| SchedCode.Kernel.Ready | system/ready.c:11-29 | State, insertion and reschedule as specified. |
| SchedCode.Kernel.WaitOn | system/wait.c:9-39 | The specified wait, with its return code. |
| SchedCode.Kernel.SignalOn | system/signal.c:9-31 | The specified signal, with its return code. |
| SchedCode.Kernel.SignalTimes | system/signaln.c:9-37 | The loop computes the specified releases under a deferral. |
| SchedCode.Kernel.DeleteOn | system/semdelete.c:9-36 | The loop releases every waiter and frees the entry. |
| SchedCode.Kernel.ResetOn | system/semreset.c:9-35 | The loop releases every waiter and sets the count. |
| SchedCode.Kernel.NewSem | system/semcreate.c:34-50 | The search finds a free entry if there is one, going round from the last place. |
| SchedCode.Kernel.CreateOn | system/semcreate.c:11-28 | A fresh semaphore with that count, or SYSERR for a negative count or a full table. |
| SchedCode.Kernel.Unsleep | system/unsleep.c:22-46 | The specified removal from the sleep queue; SYSERR exactly for a process that is not asleep. |
| SchedCode.Kernel.WakeAll | system/wakeup.c:14-16 | The loop wakes exactly the expired prefix. |
| SchedCode.Kernel.TickSleepers | system/clkhandler.c:29-39 | The sleep queue's part of a tick. |
| SchedCode.Kernel.TickQuantum | system/clkhandler.c:41-47 | The time slice's part of a tick. |
| SchedCode.Kernel.SendMsg | system/send.c:9-41 | The specified send, with its return code: OK exactly for a process that exists and has no message waiting; `SchedMail` says what it does. |
| SchedCode.Kernel.AwaitMsg | system/receive.c:15-20 | receive up to the point where the message is there. |
| SchedCode.Kernel.AwaitMsgFor | system/recvtime.c:17-32 | recvtime up to the point where the message is there or the time is up. |
| SchedCode.Kernel.TakeMsg | system/recvtime.c:34-43 | The message and a cleared flag, or TIMEOUT. |
| SchedCode.Kernel.SleepMs | system/sleep.c:26-50 | The specified sleep, including delay 0 and the conversion to a signed delay. |
| SchedCode.Kernel.SuspendProc | system/suspend.c:9-41 | The specified suspension. |
| SchedCode.Kernel.ResumeProc | system/resume.c:9-31 | The specified resumption. |
| SchedCode.Kernel.KillProc | system/kill.c:42-63 | Removal from whatever queue the state calls for. |
| PortSteps.EnterInv | system/ptsend.c:20-57 | A call that blocks or goes straight through keeps every port's books balanced. |
| PortSteps.ContinueInv | system/ptrecv.c:26-46 | So does one that runs again after its wait. |
| PortSteps.ClearInv | system/ptclear.c:19-42 | Limbo, the new sequence number and the returned nodes keep the invariant. |
| PortSteps.ClearNextInv | system/ptclear.c:40-49 | So do the second semaphore and the new state, each with others running in between. |
| PortSteps.CreateInv | system/ptcreate.c:30-41 | So does ptcreate. |
| PortSteps.KillInv | system/kill.c:53-58 | So does killing a process inside a call; one already let through takes its permission with it. |
| PortRun.StepInv | system/ptrecv.c:28-45 | Every step keeps the invariant, and a receiver past its checks never finds a null head. |
| PortRun.RunInv | system/ptrecv.c:28-45 | The same in every run, over all interleavings. |
| PortRun.NoPanic | system/ptsend.c:36-38 | If the allocated ports' capacities add up to at most the nodes there are, no step runs out of nodes. |
| PortRun.OldestFirst | system/ptrecv.c:35-45 | The message received is the oldest one sent and not yet received. |
| PortRun.ReceivedInOrder | system/ptsend.c:40-56 | In one life of a port what has been received is the beginning of what has been sent: in order, none lost, none twice. |
| PortOrder.EntryOutcome | system/ptsend.c:20-58 | ptsend and ptrecv report an error exactly for a port not in use, and then change nothing; they block exactly when the count is not positive, remembering the message; otherwise they complete. |
| PortOrder.ContinueOutcome | system/ptsend.c:30-38 | A caller that runs again fails exactly when the port has been reset or deleted since, and otherwise completes. |
| PortOrder.ClearOutcome | system/ptclear.c:19-49 | A port being reset or deleted turns callers away until both semaphores are done; then it is usable, or free. |
| PortOrder.StepMessages | system/ptsend.c:36-56 | A step that completes a send adds exactly that call's argument to what the port was sent, one that completes a receive exactly its result to what was received, and no other step in that life adds anything. |
| PortOrder.Delivered | system/ptrecv.c:35-47 | Over every run, in one life of a port, however its callers are interleaved: the k-th message received is the argument of the k-th send to complete, and the messages waiting are the arguments of the rest. |
| PortRun.ClearedCallersFail | system/ptclear.c:21-48 | Whoever was in a call when the port was reset or deleted, blocked or let through, returns SYSERR, whatever happens in between. |
| PortRun.ClearedCallersReleased | system/ptclear.c:40-47 | Once both semaphores are done, nobody from an earlier life is left on a queue. |
| PortRun.WaitsOnlyWhenTaken | system/ptsend.c:29-33 | Receivers wait only while every message is promised, senders only while every place is taken. |
| PortRun.ResetKeepsCapacity | system/ptclear.c:40-43 | A reset keeps the capacity if and only if it is below 65536. |
| PortRun.StartInv | system/ptinit.c:27-43 | ptinit's state satisfies the invariant. |
| PortNodes.Exchange | system/ptclear.c:34-38 | Moving nodes between two lists keeps every node on exactly one list, once. |
| PortCode.PortTable.PtSend | system/ptsend.c:20-58 | ptsend takes the table, its nodes, semaphores and callers through exactly the step of the runs above; `PortOrder` says which message is received for it. |
| PortCode.PortTable.PtRecv | system/ptrecv.c:19-47 | So does ptrecv, and the head it unlinks is never null. |
| PortCode.PortTable.PtGo | system/ptsend.c:30-58 | So does a caller that runs again after its wait, in either call. |
| PortCode.PortTable.PtClear | system/ptclear.c:19-45 | So does _ptclear up to the release of the senders; the disposal function has seen every waiting message in order. |
| PortCode.PortTable.PtNext | system/ptclear.c:40-49 | So do its later parts, after which ptdelete makes the port the next one to try. |
| PortCode.PortTable.PtCreate | system/ptcreate.c:18-45 | So does ptcreate, which fails exactly for a negative count or when no port is free. |
| PortCode.PortTable.PtKill | system/kill.c:53-58 | So does killing a process. |
| PortCode.PtInit | system/ptinit.c:22-44 | The table starts in the state the runs start from; without nodes or memory ptinit panics. |
| PortCode.PortTable.LinkMsg | system/ptsend.c:36-55 | The first free node takes the message to the tail of the port's list; panic exactly if there is none; other ports untouched. |
| PortCode.PortTable.UnlinkMsg | system/ptrecv.c:35-44 | The head node's message is returned and the node goes to the front of the free list. |
| PortCode.PortTable.ClearMsgs | system/ptclear.c:19-41 | Every waiting message is disposed of in order, and the list is spliced in front of the free list. |
| PortCode.PortTable.SetState | system/ptclear.c:48 | The new state. |
| PortCode.PortTable.CreatePort | system/ptcreate.c:18-45 | A free entry, if there is one, becomes an empty port with the next sequence number and two fresh semaphores. |
| PortCode.PortTable.constructor | system/ptinit.c:27-43 | All ports free, every node on the free list exactly once, and the invariant of every run holds. |
| PortKernel.WaitTied | system/ptsend.c:29-30 | A wait by the current process does to the kernel's semaphore what the port's step says. |
| PortKernel.SignalTied | system/ptsend.c:56 | So does a signal. |
| PortKernel.ClearSemTied | system/ptclear.c:40-47 | So do semreset and semdelete. |
| PortKernel.NewTied | system/ptcreate.c:35-36 | So do the two semcreate calls of ptcreate. |
| PortKernel.KillTied | system/kill.c:53-58 | So does a kill, of a waiter or of anybody else. |
| PortKernel.StepTied | system/ptrecv.c:26-46 | Every step of a port is those calls on the scheduler's semaphores, which afterwards are again what the ports say, with both invariants kept. |
| PortKernel.ForeignTied | system/signal.c:17-28 | Kernel calls that are not about a port's semaphore leave that so. |
| PortKernel.JointRunTied | system/ptclear.c:19-49 | In every run of ports and kernel together the ports' semaphores are the kernel's, and both invariants hold. |
| PortStarved.WithoutSems | system/ptcreate.c:35-36 | With fewer than two semaphores left, every receive on the new port fails; with none left, every send too. |
| PortStarved.SendsFillUp | system/ptcreate.c:35-36 | With one left, exactly as many sends succeed as the port has room for; later senders wait. |
| LfsDisk.CodeTrip | include/lfilesys.h:68-74 | An index block survives encoding to its 72 bytes. |
| LfsDisk.IbPutGet | device/lfs/lfibput.c:21-41 | The block written is the block read; every other index block, the six in the same sector included, stays as it was. |
| LfsDisk.IbGet | device/lfs/lfibget.c:20-29 | The copy loop reads that block. |
| LfsDisk.IbPut | device/lfs/lfibput.c:21-42 | The read-modify-write replaces that block. |
| LfsDisk.IbClear | device/lfs/lfibclear.c:14-20 | A blank block for that offset. |
| LfsSteps.FlushKeeps | device/lfs/lfflush.c:19-39 | A flush changes no byte of the file, leaves nothing dirty and touches no other file's block. |
| LfsAlloc.ExtendIndexKeeps | device/lfs/lfsetup.c:80-88 | A new index block at the end of the chain changes no byte and moves that block from the free list to the file. |
| LfsAlloc.AllocDataKeeps | device/lfs/lfdballoc.c:19-39 | A new data block changes no byte of the file and moves from the free list to the file. |
| LfsBytes.PutByteWrites | device/lfs/lflputc.c:48-60 | Writing at the position overwrites or appends exactly that byte. |
| LfsTruncate.FreeOne | device/lfs/lfdbfree.c:18-22 | Freeing a data block puts it in front of the free list and disturbs nothing else. |
| LfsTruncate.WalkEnds | device/lfs/lftruncate.c:92-101 | After the walk the file is empty and all its blocks are on the free lists, the index chain in front of the old list, empty or not. |
| LfsCode.LocalFile.FlushFile | device/lfs/lfflush.c:10-42 | The specified flush, and SYSERR on a free control block; the directory on disk is current afterwards exactly if it was marked or current. |
| LfsCode.LocalFile.TakeIndex | device/lfs/lfiballoc.c:15-32 | The first free index block, off the list; panic exactly if there is none. |
| LfsCode.LocalFile.TakeData | device/lfs/lfdballoc.c:19-39 | The first free data block into the slot; panic exactly if there is none. |
| LfsCode.LocalFile.StartIndex | device/lfs/lfsetup.c:39-72 | An index block at or before the position is in memory, and no byte has changed. |
| LfsCode.LocalFile.AdvanceIndex | device/lfs/lfsetup.c:78-94 | The loop ends at the block that covers the position, with at most one block allocated. |
| LfsCode.LocalFile.FetchData | device/lfs/lfsetup.c:100-119 | The buffer holds the block of the position, allocated if the file ends just before it. |
| LfsCode.LocalFile.Setup | device/lfs/lfsetup.c:24-121 | lfsetup moves both caches without changing a byte; it can run out of blocks only at the end of the file and only if a free list is empty. |
| LfsCode.LocalFile.Putc | device/lfs/lflputc.c:20-63 | On the file as a byte sequence: that byte overwritten or appended, and the position one further. |
| LfsCode.LocalFile.Getc | device/lfs/lflgetc.c:20-51 | The byte at the position, or EOF; nothing else changes, and it never needs a block. |
| LfsCode.LocalFile.Seek | device/lfs/lflseek.c:16-40 | Any position up to the end, others refused. |
| LfsCode.LocalFile.Write | device/lfs/lflwrite.c:17-28 | The buffer replaces that stretch of the file, extending it if need be. |
| LfsCode.LocalFile.Read | device/lfs/lflread.c:18-38 | Exactly the bytes from the position on, as many as asked for or there are. |
| LfsCode.LocalFile.Truncate | device/lfs/lftruncate.c:24-103 | The file is empty; its index chain is in front of the old free list and its data blocks, last first, in front of the other; other files' blocks untouched. |
| LfsCode.LocalFile.Close | device/lfs/lflclose.c:17-37 | The file's bytes are all on disk. |
| LfsCode.LocalFile.CopyName | device/lfs/lfsopen.c:159-163 | The copy leaves the control block's name empty, whatever name is copied. |
| LfsCode.LocalFile.NameIs | device/lfs/lfsopen.c:58-72 | The comparison finds exactly equal names. |
| LfsCode.LocalFile.Attach | device/lfs/lfsopen.c:148-175 | The control block is for that entry, at position 0, with nothing cached and an empty name. |
| LfsCode.LocalFile.FreshGetc | device/lfs/lflgetc.c:20-51 | On a control block just opened, whatever else is open: the first byte is the one on disk, or a filler in a newly taken block if the index block on disk has none. |
| LfsCode.LocalFile.OnDiskIsFile | device/lfs/lfsetup.c:45-58 | Where the file is in order and nothing is cached, that byte is the file's first. |
| LfsCode.Format | device/lfs/lfscreate.c:27-73 | Every index block and every data block is on its free list; too many index blocks refused; the two free lists overlap exactly when no index blocks were asked for. |
| LfsVolume.OutOfReach | device/lfs/lfdballoc.c:19-39 | Another file's block is neither this file's nor free. |
| LfsVolume.PartedStep | device/lfs/lfdballoc.c:19-39 | When a file and the free list exchange blocks, every block is still on exactly one chain or free list. |
| LfsVolume.OneFileMoves | device/lfs/lfsetup.c:24-121 | Whatever one file does to its own and to free blocks keeps the whole file system, and every other file's bytes, its dirty cached blocks included. |
| LfsVolume.OneFileSeen | device/lfs/lflputc.c:20-63 | To the users of all files that is a change to this file and to no other. |
| LfsVolume.NewFile | device/lfs/lfsopen.c:130-139 | A new, empty file keeps the file system and every other file. |
| LfsVolume.FreshVolume | device/lfs/lfscreate.c:40-71 | The formatted disk is a file system without files, every block free. |
| LfsDevices.WiredOnePer | device/lfs/lfsopen.c:148-153 | In a file system in order no two control blocks in use are for the same directory entry. |
| LfsDevices.UncachedOk | device/lfs/lfsopen.c:155-175 | A control block with nothing cached stands for the same bytes as the clean one it replaces. |
| LfsDevices.DevMoves | device/lfs/lflputc.c:20-63 | A call through one control block, within its file's reach, keeps the whole table in order and changes one file. |
| LfsDevices.DevCloses | device/lfs/lflclose.c:27-37 | So does the call that closes it; the file is then held by nobody. |
| LfsDevices.DevOpens | device/lfs/lfsopen.c:148-179 | A closed file opened on a free control block has the bytes it had, at position 0. |
| LfsDevices.FileAdded | device/lfs/lfsopen.c:130-139 | One more, empty entry keeps the table and every file. |
| LfsFiles.FileSystem.constructor | device/lfs/lfscreate.c:27-73 | lfscreate leaves a valid file system without files, and all six control blocks free. |
| LfsFiles.FileSystem.Scan | device/lfs/lfsopen.c:48-78 | The pass over the control blocks: refused exactly if the name is empty and some control block is in use; otherwise the first free one is found. |
| LfsFiles.FileSystem.Search | device/lfs/lfsopen.c:95-111 | The search of the directory finds the first file of that name, or the end. |
| LfsFiles.FileSystem.Open | device/lfs/lfsopen.c:27-180 | Afterwards no file has two control blocks if and only if the call did not open a file that was open; then the file system is in order, and, by names: the call fails and changes nothing exactly when the name is too long, empty with something open, no control block is free, a new file is there already, an old one is not, or the directory has no room for it; otherwise the first free control block is on the file of that name at position 0, new and empty if there was none, and nothing else has changed. |
| LfsFiles.FileSystem.Putc | device/lfs/lflputc.c:20-63 | That byte of the file on that control block is overwritten or appended, and no other file changes; panic only with a free list empty. |
| LfsFiles.FileSystem.Getc | device/lfs/lflgetc.c:20-51 | The byte at that file's position, or EOF; no file's bytes change. |
| LfsFiles.FileSystem.Seek | device/lfs/lflseek.c:16-40 | That file's position, and nothing else. |
| LfsFiles.FileSystem.Truncate | device/lfs/lflcontrol.c:21-40 | That file is empty; no other changes. |
| LfsFiles.FileSystem.Close | device/lfs/lflclose.c:17-37 | That file is closed with its bytes on disk, its control block is free, and the directory on disk is written if it was marked. |
| LfsFiles.FileSystem.Run | include/lfilesys.h:3-29 | Any sequence of calls on any files, in which no open file is opened, gives the results and contents of byte sequences with positions, and every block is on exactly one chain or free list afterwards; unless a file was created, the directory on disk stays current or marked. |
| LfsFiles.FileSystem.Restart | device/lfs/lfsopen.c:82-91 | With all files closed and the directory on disk current, everything read back from disk, with nothing cached, gives the same files. |
| LfsFiles.FileSystem.CreateAndClose | device/lfs/lfsopen.c:130-139 | A file created and closed without a write is not in the directory on disk. |
| LfsFiles.FileSystem.OpenTwice | device/lfs/lfsopen.c:159-163 | Create a file, put any byte in it, open it again: the second call succeeds, and a read through its control block takes another data block and returns a filler instead of the byte. |
| LfsFiles.StaleNumber | device/lfs/lflclose.c:33-37 | A number kept after a close means whichever file is opened on that control block next: bytes put through it go there. |
| LfsFiles.OpenLaw | device/lfs/lfsopen.c:95-148 | Opening on the specification of the files does what is said of FileSystem.Open by names. |
| LfsLaws.OthersUntouched | device/lfs/lflputc.c:20-63 | A call through one control block leaves every other control block and every other file as it was. |
| LfsLaws.BytesStay | device/lfs/lflputc.c:48-60 | In every sequence of calls the bytes of a file stay until something is put into it or it is truncated, whatever is opened, closed, read or written meanwhile. |
| LfsLaws.PutsWrite | device/lfs/lflputc.c:48-60 | Bytes put one after the other are in the file from the position on, in that order, over what was there. |
| LfsLaws.GetsRead | device/lfs/lflgetc.c:33-50 | Bytes got one after the other are the file's from the position on. |
| LfsLaws.WriteThenRead | device/lfs/lflseek.c:16-40 | The round trip: bytes put, a seek back to where they start, and the same bytes got. |
| LfsLaws.EndOfFile | device/lfs/lflgetc.c:33-36 | At or past the end getc gives EOF and moves nothing; so it does at once after a truncation. |
| LfsLaws.CloseThenOpen | device/lfs/lflclose.c:27-37 | A file closed and opened again by name has its bytes, from the beginning. |
| QSort.Exchange | lib/qsort.c:109-124 | Two elements change places. |
| QSort.Exchange3 | lib/qsort.c:126-144 | Three elements rotate, in the original's direction. |
| QSort.Partition | lib/qsort.c:44-106 | The loop ends with a smaller, an equal and a larger zone, a rearrangement of the range, and nothing outside it moved. |
| QSort.Qs1 | lib/qsort.c:29-107 | The range is a sorted permutation; the depth d of recursion satisfies 2^(d-1) <= n. |
| QSort.Sort | lib/qsort.c:22-27 | For every total-preorder comparator, a sorted permutation. |

## Left out

- Translation buffer contents, control registers, context-switch and interrupt assembly: replaced by the abstract steps above.
- Blocking inside a page fault, vcreate or kill, and killing the process that holds pf_sem: each is one step.
- Changing the replacement policy during a run: it is fixed before the first page frame, because freeing a frame consults the current policy.
- Disk errors and retries: a read returns the last write.
- The entries of the shared tables, which map addresses to themselves: only that every directory maps those tables.
- The stale frame address left in an absent directory entry is modelled as it is; its other attribute bits are not.
- Page-table reference counts are unbounded integers; they are proved to be at least 1 whenever they are lowered.
- kill's message to the parent, closing of descriptors and release of the stack, and the count of processes.
- Faults below the heap: those pages are always mapped.
- open_bs and close_bs: use counts are zero.
- Semaphore counts and port sequence numbers do not wrap at 32 bits.
- Blocking calls while rescheduling is deferred or by the null process: the kernel never makes them.
- chprio: it moves a priority without moving the process on its queue.
- The seconds counter of the clock handler.
- PortCode.PortTable.PtCreate: assumes that two semaphores are left, because the invariant of the runs is about ports that have both; PortStarved says what happens otherwise.
- PortCode.PortTable.CreatePort: assumes the same, for the same reason.
- The port table holds a port's semaphores as counts with queues; PortKernel ties such values to the semaphore table.
- Keys of the sleep queue do not wrap at 32 bits; they stay within 31 bits unless sleepms is given a delay of 2^31 or more.
- The disposal function of ptreset and ptdelete is a record of the messages it is given.
- vfreemem before the first vgetmem, which it does not test, and virtual heaps of zero pages, whose first vgetmem faults.
- Misaligned blocks and rounded sizes that wrap in freemem: a block comes from getmem or getstk.
- What calls do after a file has been opened twice, beyond the first byte read through the second control block.
- lfsopen returns the number of the control block instead of a device's.
- lfscreate while the directory is in memory, after which lfsopen goes on with the old one.
- The read and write bits of a file's mode, which no call tests; the mode string is given as its two other bits.
- The mutexes of the file system: a call runs to its end.
- lfscreate on a disk of fewer than three sectors, where its count of data blocks wraps; sizes of disks in bytes stay below 2^32.
- Element sizes and bytes in qsort: elements are values.
- Network, Ethernet, tty, SD card, remote disks, shell and formatted output.
