# A paged operating system, verified

This project models a small simulated operating system: a CPU with fixed 12-byte instructions, an MMU with
demand paging, LRU replacement and dirty tracking, an OS with a simulated disk, a first-fit heap allocator,
priority scheduling, locks, events and sleepers, and the assembler that produces the programs. It proves what
the parts promise each other and what holds of every run of the whole.

## How it is built

| layer | files | what it is |
|---|---|---|
| values | `Basics`, `Lru`, `Memory`, `Paging`, `Scheduling`, `Instructions`, `Processor`, `Kernel` | the state of each component as a datatype and each operation as a function, branch by branch as the source has it; exceptions are constructors of the result |
| objects | `Mmu`, `Cpu`, `Os`, `Program` | the source's own classes, with the fields they update in place; every method is proved to take the old state to what the value layer says |
| laws | `Windows`, `InstructionLaws`, `StackLaws`, `HeapRecords`, `LockLaws`, `EventLaws`, `SleepLaws`, `SharedPages`, `Startup`, `Dispatches` | what each operation means to a process or a caller, told on addresses, bytes, registers, queues and records |
| theorems | `FrameInvariant` to `System` | what holds of the value layer, hence of the objects, over every run |
| concrete runs | `Execution`, `Departures`, `Slips`, `Samples` | short assembled programs followed turn by turn from a cold start, where the system departs from its intent |

Methods of the objects ask for the parts of the system invariant they rely on, such as shared frames being in
use; `OsDevice.Os.Turn` asks for the whole and hands it on, and a cold start has it.

A run of the system is any sequence of process creations and turns of the scheduler loop (`System.After`). One
turn is `Kernel.Turn`, and `OsDevice.Os.Turn` is proved to perform exactly that. What a turn does to memory is a
list of operations fixed by the state it starts in, its trace: the byte accesses of the process picked, in order,
and then the one operation the OS performs for it, if any (`System.TurnTrace`). The memory of the system after any
events is that of the run of its trace (`System.SystemRunsPaging`), and what a turn does to the queues is a pass of
`SchedulerRuns` (`System.TurnIsPass`), so the theorems about runs of those two speak about the whole system.

## The main results

* **Frames.** In every reachable state the page tables, the used map, the LRU list, the owner map and the disk
  agree; a frame can always be had while a process exists; so no exception leaves `run()`.
* **Windows.** A byte access throws exactly outside [0x1000, 0x1000 + code size), [0x4000, 0x6000) and
  [0xE000, 0xF000), faults exactly inside and not resident, and completes exactly inside and resident
  (`Windows.AccessOutcome`); which of the three happens to an instruction follows (`Windows.StepEnds`), and what the OS
  does about it (`Dispatches.ExceptionsReach`). Over every run of the system a process has frames and saved pages only
  for pages that meet its windows (`PageWindows.PagesStayInside`).
* **Programs.** A line assembles exactly when its operands fit its mnemonic, and its bytes are then known
  (`LoadedProgram.LineBytes`); line k of a loaded program lies at 0x1000 + 12 k, and a new process is at its first line
  (`Startup`). `InstructionLaws` and `StackLaws` say of each mnemonic what the process sees of it: pushes come back in
  reverse order, a call with a balanced body comes back to the next line with sp restored, a word stored is the word
  loaded, and a comparison decides the branch after it. `Dispatches` says which service each calling line reaches, with
  which registers, and where the answer goes.
* **Flat memory.** Outside the shared window every process sees one zero-initialised byte array throughout a run
  *if and only if* no eviction of the run takes a private page that is clean and not zero
  (`FlatMemory.FlatIffSafe`); for the whole system, if and only if no turn's one OS operation does, which can be
  told before it is performed (`System.SystemIsFlatIffSafe`). The source does evict such pages: a page brought back
  from disk is marked clean while its disk copy is erased. `Departures.SecondEvictionLoses` is a program of two
  instructions that so loses its own code in three turns and is then terminated for an unknown opcode. With one
  changed line, marking such a page dirty, the condition disappears (`RepairedSwapIn.RepairedIsAlwaysFlat`).
* **Replacement.** LRU is a stack algorithm: what is resident is a prefix of one recency order that does not
  depend on memory size. Hence inclusion and no more faults with more memory, also for real systems that load the
  same programs from a cold start (`ColdStart.LargerMemoryNeverHurts`); at most one fault per page of a working set
  that fits; and at most six faults of any one instruction that can be retried, whatever bytes the evictions in
  between lose.
* **Restart.** `CPU::step` restores `ip_` but not `sp_`, and a faulting store leaves its first bytes behind.
  `Restart.RestartIsAtomic` says when a retried instruction still acts as one flat instruction; pushes, calls and
  `Popm` that fault after moving `sp_` slip by a word on their retry, and an overlapping `Movmm` across a page edge
  stores the right word only if the source word repeats at the distance of the copy. `Slips` has a run of the
  system for each; a first push whose stack page is not resident is one.
* **Heap.** A positive request counts by its low 32 bits n; Alloc succeeds exactly when n is not zero and a run of
  ceil(n / 256) unused pages exists, also where 32-bit rounding wraps, and returns the lowest. Live allocations stay apart throughout a run if and only if no Alloc hands out a
  page of one, and none does while no allocated page is evicted clean; once one is, its owner is handed out a live
  page after enough one-page requests (`HeapDisjointness.UnusedIsHandedOut`). `Departures.SameAddressTwice` is a
  program of three instructions that gets one address for two live allocations, and
  `Departures.EvictedCleanIsReallocated` one of seven that ends with two that overlap. An address is on record with n pages exactly when some Alloc returned it for n pages and no free of it, no exit and no
  Alloc that returned it again came since (`HeapRecords.RecordsAreGrants`).
* **Shared regions.** A region is one byte array: whoever has it mapped reads what anyone who had it mapped wrote there
  last, over every run (`SharedPages.RegionIsOneArray`). In a run that maps no region over a page resident in an owned
  frame, it stays mapped from the call that maps it until its process exits (`SharedPages.MappedUntilExit`). A page of the
  window that its process maps no region over is as flat as any other (`SharedPages.PageFlatIff`).
* **Owners and leaks.** The owner map is the exact inverse of the page tables throughout a run if and only if no
  region is mapped over a page resident in an owned frame and no creation finds some frames free but too few
  (`OwnerMap.AlwaysExactIff`). A program that loads from its stack page at 0xE000 and then maps region 0 does the
  first (`Departures.MappedOverStack`), and `Departures.CreationLeaks` the second; either alone is enough. A creation
  succeeds if and only if as many frames are free as its program has pages. Every frame in use stays traceable to a
  process throughout a run if and only if there is no creation of the second kind, and then only the shared frames
  are left when all processes are gone.
* **Eviction.** Whatever the operation, a resident private page it does not itself write, free or end the process of
  stays as it is or is evicted: to disk with exactly its bytes if dirty, to nowhere if clean
  (`DiskRoundTrip.StepFate`). A page evicted dirty comes back with its bytes (`DiskRoundTrip.DirtyRoundTrip`), and
  evicted again before a write reads as zeros (`DiskRoundTrip.SecondEvictionForgets`).
* **Locks and events.** A lock leaves its holder exactly when the holder itself releases it or exits, and is then its
  front waiter's or free, so over every run nobody else comes to hold it before that (`LockLaws.HeldUntilGivenUp`).
  Each time a flag is set exactly one later wait goes through on it, and each process that had to wait is woken exactly
  once (`EventLaws.SignalsAreKept`).
* **Scheduler.** Every process is in exactly one queue that matches its state, or terminated and in none; locks
  are granted in the order requested; sleepers wake on exactly their tick; the idle spin ends; `run()` returns exactly
  when everybody has terminated or waits for a lock or an event; and when it does with nobody waiting for an event,
  everybody has terminated or some processes wait for each other in a cycle.
* **Isolation.** A turn of one process leaves every other its context, allocations and liveness; and all its
  private bytes if and only if the operation the OS performs in that turn takes no page of that other process that
  is clean and not zero (`System.Isolation`).

Where comments in the source and its code disagree the model follows the code. The comments at OS.cpp:217 and
CPU.cpp:25 describe a faulting instruction as simply retried, which the code does only for instructions that have
not moved `sp_`; the comment at OS.cpp:437 calls a page free that is neither in RAM nor on disk, which is also how
a live allocation looks after a clean eviction; and pageentry.h:9 calls an invalid unmapped entry swapped to disk,
which a page evicted while clean is not. The comments of memory_test.asm expect a store to address 200 to work; that
address is in no window, and the program is terminated there in its first turn (`Samples.MemoryTestEnds`).

## Model

| member | source | states |
|---|---|---|
| `Windows.AccessOutcome` | MMU.cpp:72-107 | a byte access throws iff its address is outside [0x1000, 0x1000 + code size), [0x4000, 0x5000), [0x5000, 0x6000) and [0xE000, 0xF000), faults on its page iff inside and not resident, completes iff inside and resident, and changes nothing unless it completes |
| `Windows.StepEnds` | CPU.cpp:29-50 | a step ends at the first of its twelve code bytes and then its data bytes that is outside the windows or not resident; on an unknown opcode or bad register it throws; else it goes on or traps |
| `PageWindows.PagesStayInside` | OS.cpp:236-274 | after any creations and turns, a process has a frame or a place on disk only for pages that meet its windows |
| `Samples.MemoryTestEnds` | OS.cpp:223-227 | memory_test.asm, with any size of memory beyond the two shared frames, is terminated in its first turn at its store to address 200 |
| `Lru.Victim` | MMU.cpp:142-152 | the page chosen is in the list and not pinned; none is chosen only if every listed page is pinned |
| `Lru.ReplayIsByRecency` | MMU.cpp:134-160 | whatever is touched and dropped, the list has no duplicates and is ordered by last touch, newest first |
| `Lru.ReplayMembers` | MMU.cpp:134-160 | a frame is on the list iff it was touched and not dropped since |
| `Lru.VictimIsOldest` | MMU.cpp:142-152 | every other unpinned frame on the list was touched later than the victim |
| `FrameInvariant.PrivateFramesDisjoint` | MMU.cpp:82-107 | no two resident private pages, of one process or two, share a frame |
| `FrameInvariant.PrivateFrameUnshared` | OS.cpp:266-270 | the frame of a resident private page exists, is not shared and is owned by exactly that (pid, page) |
| `FrameInvariant.ValidIffMapped` | pageentry.h:7-16 | isValid holds iff physPage is not UNMAPPED |
| `FrameInvariant.AlwaysAFrame` | OS.cpp:243-251 | with a third frame, a free frame or an unpinned victim always exists |
| `FrameInvariant.EvictEffect` | OS.cpp:282-312 | eviction takes the LRU unpinned frame from exactly the page that owns it, saves that page iff it is dirty, and touches no other entry |
| `FrameInvariant.PageInInv` | OS.cpp:236-274 | a page fault keeps tables, used map, LRU list, owners and disk in agreement |
| `FrameInvariant.AllocInv` | OS.cpp:408-482 | so does Alloc, whatever its size and however much it evicts |
| `FrameInvariant.FreeInv` | OS.cpp:484-516 | so does FreeMemory, also of an unknown address |
| `FrameInvariant.MapSharedInv` | OS.cpp:121-134 | so does MapSharedMem, also over a resident private page |
| `FrameInvariant.CleanupLeaksNothing` | OS.cpp:317-335 | so does exit; afterwards no frame, LRU entry or disk slot belongs to that pid |
| `FrameInvariant.CreateInv` | OS.cpp:11-66 | so does process creation, whether it succeeds or runs out of frames half way |
| `PagingRuns.StepInv` | OS.cpp:82-229 | every operation keeps the frame invariant |
| `PagingRuns.EveryRunKeepsInv` | OS.cpp:236-312 | from a cold start, after any run, the invariant holds and a frame can be had while any process exists |
| `FlatMemory.TakeFrameView` | OS.cpp:282-312 | one eviction leaves a private page's bytes unchanged iff the page is not the victim or is dirty or all zero; a clean non-zero victim reads as zeros |
| `FlatMemory.PageInView` | OS.cpp:236-274 | a page fault is invisible to the faulting page and does to every other page what its eviction does |
| `FlatMemory.ReadView` | MMU.cpp:111-111 | a read returns the byte of the flat view and changes no view |
| `FlatMemory.WriteView` | MMU.cpp:112-112 | a write changes exactly its byte of exactly its process's view |
| `FlatMemory.CreateView` | OS.cpp:37-66 | a new process sees its program at 0x1000 and zeros elsewhere; nobody else sees anything change |
| `FlatMemory.SafeStepIsFlat` | OS.cpp:82-229 | an operation whose evictions are safe does to every private page what the flat specification says |
| `FlatMemory.UnsafeStepIsNotFlat` | OS.cpp:256-268 | an operation with an unsafe eviction makes some private page read differently |
| `FlatMemory.FlatIffSafe` | OS.cpp:236-312 | paged memory refines flat per-process memory throughout a run iff no eviction took a clean non-zero private page |
| `FlatMemory.ReadReturnsLastWrite` | MMU.cpp:82-128 | in such a run a completed read returns the last byte written there, or zero |
| `SharedPages.StepPage` | OS.cpp:236-312 | whatever the operation, a page of a process that maps no region over it, in the window at 0xE000 or not, reads as the flat specification says iff that operation does not evict it clean and not zero |
| `SharedPages.PageFlatIff` | OS.cpp:236-312 | so over every run, page by page |
| `SharedPages.RegionIsOneArray` | OS.cpp:121-134 | after any run, every process with a region mapped sees there what was last written to it by any process that had it mapped then, or zeros |
| `SharedPages.WrittenIsRead` | OS.cpp:121-134 | a byte written to a region by one process is what any other that has it mapped reads there, and neither access can fail |
| `SharedPages.StepAttached` | OS.cpp:121-134 | while recorded pages are mapped where they are recorded, a mapping begins with MapSharedMem, ends with exit, and nothing else begins or ends it |
| `SharedPages.MappedUntilExit` | OS.cpp:121-134 | in a run that maps no region over a page resident in an owned frame, a process has a region mapped from the time it maps it until it exits, and at no other time |
| `DiskRoundTrip.DirtyVictimIsSaved` | OS.cpp:289-304 | a dirty private victim is on disk afterwards with exactly its bytes |
| `DiskRoundTrip.SavedIsInUse` | OS.cpp:442-444 | Alloc never takes a saved page for a free one |
| `DiskRoundTrip.StepKeepsSaved` | OS.cpp:256-268 | no operation but its owner's fault, free or exit disturbs a saved page |
| `DiskRoundTrip.StepFate` | OS.cpp:282-312 | an operation that neither writes, frees nor ends the process of a resident private page leaves it as it is, or evicts it: to disk with its bytes if dirty, looking unused if clean |
| `DiskRoundTrip.EvictedIsSaved` | OS.cpp:461-469 | a dirty page evicted by any operation, a page fault or an Alloc of anyone, is on disk afterwards with exactly its bytes |
| `DiskRoundTrip.DirtyRoundTrip` | OS.cpp:253-304 | a page evicted dirty by any operation and faulted in after any run that does not claim it has the bytes it had |
| `DiskRoundTrip.EvictedCleanIsZero` | OS.cpp:289-304 | a page evicted clean by any operation looks unused and reads as zeros |
| `DiskRoundTrip.SecondEvictionForgets` | OS.cpp:256-268 | a page brought back from disk and evicted by any operation before a write reads as zeros, and that eviction is unsafe unless the page was zero |
| `StackProperty.VisitStack` | MMU.cpp:134-160 | an access moves its page to the front of the recency order and cuts the order to the evictable frames |
| `StackProperty.ResidentAreTheMostRecent` | MMU.cpp:134-160 | after any trace the resident private pages are the most recent ones, as many as fit |
| `StackProperty.MoreMemoryNeverHurts` | OS.cpp:243-271 | on the same trace a larger memory keeps every page a smaller one keeps and faults at most as often |
| `StackProperty.ResidentIncluded` | OS.cpp:243-271 | the same, page by page: resident with m frames implies resident with n >= m |
| `StackProperty.OneFaultPerPage` | MMU.cpp:134-152 | a trace touching no more pages than fit faults at most once per page |
| `StackProperty.RevisitHits` | MMU.cpp:134-152 | a page visited before in such a trace hits |
| `ColdStart.StartedStack` | OS.cpp:37-66 | programs that fit are all loaded, and the resident pages and their order do not depend on the size of memory |
| `ColdStart.LargerMemoryNeverHurts` | OS.cpp:243-271 | with the same programs loaded from a cold start, no trace faults more often in the larger memory, and what is resident in the smaller is resident in the larger |
| `ColdStart.VisitsAreRuns` | OS.cpp:219-221 | a trace of visits is a run of byte reads and page faults, with exactly as many page faults as counted |
| `HeapAllocator.FirstFitIsLowest` | OS.cpp:437-451 | the scan finds the lowest run of unused pages, and nothing only if there is none |
| `HeapAllocator.PagesNeededExact` | OS.cpp:422-422 | the 32-bit rounding is exact up to 2^32 - 256 and yields zero pages above |
| `HeapAllocator.AllocIsExact` | OS.cpp:413-458 | Alloc succeeds iff the request is positive, its low 32 bits n are not zero and a run of ceil(n / 256) unused pages exists in the heap window, and returns the lowest |
| `HeapAllocator.AllocCoversIffWord` | OS.cpp:422-422 | a 64-bit request is covered by its allocation iff it fits in 32 bits |
| `HeapAllocator.AllocatedPagesResident` | OS.cpp:461-476 | an allocation reads as zeros; its pages are all resident and clean iff it is no larger than the evictable memory |
| `HeapDisjointness.StepApart` | OS.cpp:408-516 | one operation keeps live allocations disjoint and grants no address on record iff it hands out no page of a live allocation |
| `HeapDisjointness.StepInUse` | OS.cpp:408-516 | while all allocated pages are in use, an operation hands out none of them, and keeps them so iff it evicts none clean |
| `HeapDisjointness.AllocationsStayApart` | OS.cpp:408-516 | over every run: allocated pages never look unused iff none is evicted clean; live allocations stay disjoint and no address on record is granted again iff none is handed out; and in a run of the first kind none is |
| `HeapDisjointness.UnusedIsHandedOut` | OS.cpp:437-451 | once an allocated page looks unused its owner is handed out a live page after enough one-page requests; before that nobody's next request gets one |
| `HeapDisjointness.FreedSpaceIsReusable` | OS.cpp:484-516 | freeing an allocation makes an immediately following Alloc of its size succeed, no higher |
| `HeapRecords.FreeLaw` | OS.cpp:484-516 | a free takes exactly the record at its address off, of its process alone, makes exactly its pages unused, and every other page keeps its frame or its place on disk; an address not on record changes nothing |
| `HeapRecords.FreedFrames` | OS.cpp:493-513 | exactly the frames the freed pages had become free |
| `HeapRecords.StepRecord` | OS.cpp:408-516 | after one operation an address is on record with n pages iff the operation granted it so, or it was before and the operation neither ended nor regranted it |
| `HeapRecords.RecordsAreGrants` | OS.cpp:408-516 | over every run, an address is on record with n pages iff some Alloc of that process returned it for n pages and neither a free of it, nor an exit, nor a later Alloc that returned it again came since |
| `Departures.SecondEvictionLoses` | OS.cpp:253-304 | with three frames, a two-instruction program is flat through its second turn and reads as zeros after its third, at page 0x10 that held its code; it is then terminated for an unknown opcode |
| `Departures.EvictedCleanIsReallocated` | OS.cpp:440-451 | with four frames, a seven-instruction program ends with page 0x51 in two live allocations after its fifth turn, so an Alloc of its run handed out a live page |
| `Departures.SameAddressTwice` | OS.cpp:440-476 | with three frames, a three-instruction program has the address 0x5000 from both its Allocs after its third turn, and one record |
| `Departures.MapSharedStrands` | OS.cpp:125-130 | mapping a region over a resident private page leaves its frame owned but unmapped, and evicting that frame unmaps the region |
| `OwnerMap.ExactIffMappedAndKnown` | OS.cpp:236-351 | frames are recorded for exactly the pages that page tables map to them iff every recorded page is still mapped there and every recorded pid is a process's |
| `OwnerMap.MappedIffNotStranded` | OS.cpp:121-134 | an operation keeps recorded pages mapped where recorded iff it does not map a region over a page resident in an owned frame |
| `OwnerMap.StepExact` | OS.cpp:54-134 | an operation keeps the owner map the exact inverse of the page tables iff it neither maps a region so nor is a creation that finds some frames free but too few |
| `OwnerMap.AlwaysExactIff` | OS.cpp:236-351 | over every run from a cold start, the owner map is the exact inverse of the page tables iff no region was so mapped and no creation fell short so |
| `Departures.MappedOverStack` | OS.cpp:125-130 | a three-instruction program whose second turn leaves the frame of its stack page 0xE0 owned and mapped by nothing, with every owner known |
| `Departures.CreationLeaks` | OS.cpp:54-62 | with three frames, creating a two-page program leaves no process, no free frame, and one frame in use that is not shared and mapped by nothing, though no region was mapped; no program can be created after it |
| `RepairedSwapIn.RepairedIsAlwaysFlat` | OS.cpp:256-268 | with isDirty set on swap-in, paged memory refines flat memory over every run |
| `RepairedSwapIn.CleanIsSafe` | OS.cpp:294-299 | where clean private pages are zero every eviction is safe |
| `Leaks.CreatesIffFree` | OS.cpp:37-66 | a creation succeeds iff its program is not empty and as many frames are free as it has pages |
| `Leaks.LeakTakesAll` | OS.cpp:54-62 | a creation that finds some frames free but too few fails and leaves none free |
| `Leaks.StepOwners` | OS.cpp:54-62 | every owned frame keeps belonging to a created process iff the operation is not a creation that finds some frames free but fewer than its program has pages |
| `Leaks.NothingLeft` | OS.cpp:317-335 | with all processes gone the disk is empty, and exactly the shared frames are used iff every owner is known |
| `Leaks.NoLeakIff` | OS.cpp:317-351 | over every run from a cold start, frames are traceable iff no creation found some frames free but too few; then nothing is left when all have exited |
| `SchedulerInvariant.HandleServes` | OS.cpp:98-214 | whatever stopped the process, the loop-head invariant holds again: queues, states, locks and events |
| `SchedulerInvariant.TickServes` | OS.cpp:377-388 | the tick keeps the invariant |
| `SchedulerInvariant.PickServes` | OS.cpp:367-375 | picking takes out the front of the first non-empty ready queue and nothing else, leaving exactly that process, which is Ready, in no queue; nobody is picked only if all are empty |
| `SchedulerInvariant.TerminateServes` | OS.cpp:337-350 | exit keeps the invariant and leaves no lock with that pid |
| `SchedulerInvariant.AdmitServes` | OS.cpp:28-30 | a new process enters the back of exactly the ready queue of its priority, cut to 1..32; nobody else is affected |
| `SchedulerRuns.ExactlyOnePlace` | OS.cpp:359-388 | a live process is in exactly one queue, one that matches its state; a terminated one is in none |
| `SchedulerRuns.LocksAreFifo` | OS.cpp:136-169 | each lock was granted in request order, the rest of the requests are its queue, waiters imply held, and its owner is the live process granted last |
| `SchedulerRuns.SignaledMeansNoWaiters` | OS.cpp:171-201 | a signaled event has no waiters |
| `LockLaws.AcquireLaw` | OS.cpp:136-150 | a free lock goes to the caller, who stays ready; for a held one the caller waits last; a bad id changes no lock |
| `LockLaws.ReleaseLaw` | OS.cpp:152-169 | a release by the owner makes the front waiter owner and ready, or frees the lock when nobody waits; by anyone else, or of a bad id, it leaves every lock as it is; the caller stays ready |
| `LockLaws.ExitLaw` | OS.cpp:337-350 | an exit gives up exactly the locks of its process, each to its front waiter, who becomes ready, or to nobody |
| `LockLaws.LockChangesHands` | OS.cpp:136-169 | in a pass a lock leaves its holder iff the holder is the one served and releases that lock or exits; it is then free or the front waiter's, not the old holder's; a free lock is taken iff the process served acquires it |
| `LockLaws.HeldUntilGivenUp` | OS.cpp:136-169 | over any passes in which the holder neither releases the lock nor exits, it stays the holder |
| `EventLaws.WaitLaw` | OS.cpp:171-184 | a wait on a set flag clears it and the caller stays ready; else the caller waits last; a bad id changes no event |
| `EventLaws.SignalLaw` | OS.cpp:186-201 | a signal with waiters empties the queue, makes all of them ready in waiting order ahead of the caller and leaves the flag alone; with nobody waiting it sets the flag; a bad id changes no event |
| `EventLaws.SignalsAreKept` | OS.cpp:171-201 | over every run, flags set are waits let through plus the flag still set, and waits blocked are processes woken plus those still waiting |
| `SchedulerRuns.FinishedOrDeadlocked` | OS.cpp:82-90 | if nobody is ready, asleep or waiting for an event, everybody has terminated or there is a cycle of lock waiters |
| `SchedulerRuns.CycleIsStuck` | OS.cpp:136-150 | nobody on such a cycle is in a ready or sleeping queue |
| `SchedulerRuns.TickKeepsOrder` | OS.cpp:377-388 | the tick wakes exactly the sleepers that are due and keeps the order of the rest |
| `SchedulerRuns.SleepsExactly` | OS.cpp:377-388 | a sleeper with counter c becomes ready on exactly the max(1, c)-th tick, whatever others do |
| `SchedulerRuns.SleepSets` | OS.cpp:107-113 | a Sleep trap sets 1 for a count of zero or less, else the count modulo 2^32 |
| `SleepLaws.SleepLaw` | OS.cpp:107-113 | a sleeper goes last among the sleepers with that counter; nothing else changes |
| `SleepLaws.TickLaw` | OS.cpp:377-388 | in one tick the sleepers that are due become ready, in the order they went to sleep, behind whoever is ready at their priorities; the rest stay asleep in that order with one tick less to go; nothing else changes |
| `SleepLaws.YieldLaw` | OS.cpp:359-365 | whoever yields goes to the back of the ready queue of its priority; nothing else changes |
| `SchedulerRuns.IdleTickProgress` | OS.cpp:83-86 | while nobody is ready a tick readies somebody or brings the first sleeper strictly closer |
| `Instructions.DecodeCode` | CPU.cpp:52-268 | every opcode the assembler can emit has its own case in the CPU's switch |
| `Instructions.WordRoundTrip` | PROGRAM.CPP:161-166 | a word emitted byte by byte is read back as that word |
| `Instructions.AssembledLine` | PROGRAM.CPP:69-159 | line k of an assembled program is bytes 12 k to 12 k + 11 |
| `LoadedProgram.OperandsPass` | PROGRAM.CPP:222-233 | registers the assembler accepts pass the CPU's checkReg |
| `LoadedProgram.LineBytes` | PROGRAM.CPP:69-159 | a line assembles iff its operands fit its mnemonic; its bytes are the opcode number, the first operand and the second, lowest byte first, zero where the mnemonic takes none |
| `LoadedProgram.CheckedIffSpelled` | PROGRAM.CPP:222-233 | the CPU accepts the registers of an instruction iff some line of assembly spells it, Setpriority apart |
| `LoadedProgram.CodeResident` | OS.cpp:54-62 | right after loading every code page is resident |
| `LoadedProgram.FetchIsAssembled` | CPU.cpp:45-50 | after loading, fetch at 0x1000 + 12 k returns exactly the opcode and operands of line k, across page edges, and they decode |
| `Startup.LoadedLine` | OS.cpp:54-65 | after loading, line k lies at 0x1000 + 12 k, resident and in the code window |
| `Startup.StartsAtItsFirstLine` | OS.cpp:11-31 | a new process is at its first line, registers and flags clear, sp at 0xF000, Ready and last in the ready queue of its priority cut to 1..32; other processes keep their contexts and records |
| `FlatInstructions.Read32IsFlat` | MMU.cpp:114-121 | a word read returns the flat word, changes no byte and no residency |
| `FlatInstructions.WriteBytesIsFlat` | MMU.cpp:123-128 | a word write that faults has written exactly its bytes before the first page that is not resident |
| `FlatInstructions.StepMatches` | CPU.cpp:29-39 | an attempt at an instruction completes as the flat instruction or faults with part of its store done and everything but sp as before |
| `InstructionLaws.MoveImmediate` | CPU.cpp:105-108 | movi: the register holds the immediate as a signed 32-bit number, and nothing else changes but ip, which is past the line |
| `InstructionLaws.MoveRegister` | CPU.cpp:110-113 | movr: the register holds the other |
| `InstructionLaws.Adds` | CPU.cpp:135-146 | incr, addi, addr: the sum, wrapped to 64 bits |
| `InstructionLaws.Jumps` | CPU.cpp:170-178 | jmp, jmpi, jmpa: ip is the operand past the next line, or the address named |
| `InstructionLaws.Comparing` | CPU.cpp:180-192 | cmpi, cmpr: the flags remember x == y and x < y as signed 64-bit numbers |
| `InstructionLaws.Branching` | CPU.cpp:194-225 | each conditional jump is taken iff its flags say so, and else falls through |
| `InstructionLaws.CompareThenBranch` | CPU.cpp:180-225 | a comparison and then a branch: taken iff x < y, x > y or x == y, as the branch is named |
| `InstructionLaws.Loads` | CPU.cpp:115-119 | movmr: the register holds the word at the address, signed, and no byte changes |
| `InstructionLaws.Stores` | CPU.cpp:121-126 | movrm: exactly the four bytes at the address become the low word of the register |
| `InstructionLaws.Copies` | CPU.cpp:128-133 | movmm: exactly the four bytes at the destination become the word at the source |
| `InstructionLaws.StoreThenLoad` | CPU.cpp:115-126 | movrm then movmr of one address yields the low 32 bits stored, signed |
| `InstructionLaws.Prints` | CPU.cpp:148-162 | printing and setting a priority change nothing a process can see |
| `InstructionLaws.PrintsMemory` | CPU.cpp:153-168 | nor does printing from memory, where it does not fault or throw |
| `StackLaws.Pushes` | CPU.cpp:242-247 | pushi, pushr: sp is a word lower and exactly that word is the operand |
| `StackLaws.Pops` | CPU.cpp:248-251 | popr: the register holds the word on top, signed, and sp is a word higher |
| `StackLaws.Calls` | CPU.cpp:227-231 | call: exactly the word pushed becomes the address of the line after it, and ip goes the register past that line |
| `StackLaws.CallsMemory` | CPU.cpp:232-238 | callm: so, by the word in memory as it is after the push |
| `StackLaws.Returns` | CPU.cpp:239-240 | ret: ip is the word on top, and sp is a word higher |
| `StackLaws.PopsToMemory` | CPU.cpp:252-257 | popm: exactly the word at the address becomes the one on top, and sp is a word higher |
| `StackLaws.StackMachine` | CPU.cpp:242-251 | straight-line pushes and pops, however many, do what an abstract stack does: every pop gets the word pushed last and not popped yet |
| `StackLaws.PushesComeBack` | CPU.cpp:242-251 | n pushed words come back in reverse order, with sp following |
| `StackLaws.CallReturns` | CPU.cpp:227-240 | call, a balanced body, ret: ip is at the line after the call, sp is restored |
| `StackLaws.CallmReturns` | CPU.cpp:232-240 | so for callm |
| `Restart.FaultKeeps` | CPU.cpp:29-39 | a fault leaves the whole context as it was iff the instruction had not moved sp; else sp is off by one word |
| `Restart.QuietKeepsBytes` | OS.cpp:219-221 | a safe run of other work between a fault and its retry leaves the process's bytes alone |
| `Restart.StoppedStoreIff` | MMU.cpp:123-128 | a store stopped at a page edge leaves the instruction that made it intact iff its early bytes, where they fall into that instruction, are there already |
| `Restart.RestartIsAtomic` | CPU.cpp:25-39 | an instruction that can be retried on the memory it first met, faulted any number of times, ends as one flat instruction on that memory |
| `Restart.PushSlips` | CPU.cpp:227-247 | a push or call that faults after moving sp ends one word too low on its retry |
| `Restart.PopSlips` | CPU.cpp:252-257 | a Popm that faults on its write ends one word too high on its retry |
| `Restart.RereadIffRepeats` | CPU.cpp:128-133 | an upward overlapping Movmm stopped at a page edge stores the right word iff the source repeats at that distance |
| `Slips.FirstPushSlips` | CPU.cpp:227-247 | a first push whose stack page is not resident, run by the system: sp ends at 0xEFF8 where one push leaves it at 0xEFFC |
| `Slips.FirstPopSlips` | CPU.cpp:252-257 | a Popm into an untouched page, run by the system: sp ends at 0xF000 where one pop leaves it at 0xEFFC |
| `Slips.FirstCopyRereads` | CPU.cpp:128-133 | a Movmm of the bytes 1, 2, 3, 4 one byte up over a page edge, in a reachable state: the retry stores the wrong word |
| `RetryBound.AtMostSixRetries` | CPU.cpp:29-50 | with frames for its pages, an instruction of the only runnable process that can be retried as first fetched faults at most once per page, six times at most, whatever the evictions in between lose |
| `Kernel.StepTraps` | CPU.cpp:57-71 | the register numbers a trap hands to the OS are always valid |
| `KernelRuns.DispatchIsRun` | OS.cpp:92-227 | a dispatch is the run of its trace, the accesses of the quantum and at most one operation of the OS, all of that process, and one service of the scheduler |
| `KernelRuns.RanKeepsInv` | CPU.cpp:16-23 | after a quantum the frame invariant holds and a fault names a page that is not resident |
| `Dispatches.QuantumIsFifty` | CPU.cpp:16-23 | a quantum that nothing stops is fifty instructions; then the process is ready again with the context it has then |
| `Dispatches.ExceptionsReach` | OS.cpp:219-227 | a dispatch that comes to an access outside the windows, an unknown opcode or a bad register ends with the process terminated; one that comes to a page not resident brings it in and the process stays ready |
| `Dispatches.SchedulerCallsReach` | OS.cpp:107-201 | each line that calls the scheduler reaches exactly its service with register 1, or the immediate, as argument; the process goes on after the line, memory as it left it |
| `Dispatches.ExitReaches` | OS.cpp:99-101 | exit cleans the process up and terminates it |
| `Dispatches.AllocReaches` | OS.cpp:203-205 | alloc asks for the bytes in its first register and answers in its second |
| `Dispatches.FreeReaches` | OS.cpp:207-209 | freememory frees the address in its register, cut to 32 bits |
| `Dispatches.MapReaches` | OS.cpp:121-134 | mapsharedmem maps the region in register 1 and answers in its second register; a number that names no region is ignored |
| `System.TurnKeepsInv` | OS.cpp:83-228 | every turn keeps the whole invariant, no exception leaves run(), the Terminated guard never fires, and the turn does to memory exactly what its trace does |
| `System.TurnIsSafe` | OS.cpp:92-227 | the evictions of a turn are safe iff those of the one operation the OS performs in it are |
| `System.TurnIsPass` | OS.cpp:83-228 | a turn does to the queues what a pass of the scheduler does |
| `System.IdleSpinEnds` | OS.cpp:86-86 | each turn of the idle spin brings the first sleeper strictly closer |
| `System.ReturnsIffNobodyToRun` | OS.cpp:83-86 | run() returns iff everybody has terminated or waits for a lock or an event, and changes nothing then |
| `Isolation.SparesIff` | OS.cpp:236-312 | an operation of one process leaves all private bytes of another as they are iff no eviction of it takes a clean non-zero page of that other |
| `System.Isolation` | OS.cpp:68-77 | a turn of one process leaves every other its context, allocations and liveness, and all its private bytes iff the operation the OS performs takes no clean non-zero page of that other |
| `System.CreateProcessInv` | OS.cpp:11-31 | creating a process keeps the whole invariant |
| `System.SystemRunsPaging` | OS.cpp:82-229 | the memory of the system, after any creations and turns, is that of the run of its trace, and that run is safe iff every turn was |
| `System.SystemIsFlatIffSafe` | OS.cpp:82-312 | after any creations and turns, memory was flat after every operation of the trace iff no turn took a clean non-zero private page |
| `System.TurnsAreEvents` | OS.cpp:82-229 | the loop entered after some events ends in the state after as many turns as it made, all it was given unless it returned |
| `System.WhenRunReturns` | OS.cpp:82-90 | when run() returns with no event waiters there is a lock cycle, or everybody has terminated and, if every owner is known, only the shared frames are left |
| `MmuDevice.Mmu.ZeroPhysPage` | MMU.cpp:17-21 | exactly that frame becomes zero |
| `MmuDevice.Mmu.AllocPhysPage` | MMU.cpp:23-33 | the lowest free frame, used, zeroed and most recent; nothing changes when memory is full |
| `MmuDevice.Mmu.FreePhysPage` | MMU.cpp:35-40 | the frame is free and off the LRU list; out of range nothing changes |
| `MmuDevice.Mmu.MapPageInto` | MMU.cpp:57-65 | the table grows as needed and exactly that entry becomes valid and clean |
| `MmuDevice.Mmu.Translate` | MMU.cpp:82-107 | the outcome `Windows.AccessOutcome` describes: bounds error, page fault, or the physical address, with the dirty bit set on writes and the frame most recent |
| `MmuDevice.Mmu.Read8` | MMU.cpp:111-111 | the translated byte, or the exception |
| `MmuDevice.Mmu.Write8` | MMU.cpp:112-112 | exactly the translated byte changes, or the exception |
| `MmuDevice.Mmu.Read32` | MMU.cpp:114-121 | four byte reads in order, stopping at the first exception |
| `MmuDevice.Mmu.Write32` | MMU.cpp:123-128 | four byte writes in order, stopping at the first exception with the earlier bytes written |
| `MmuDevice.Mmu.TouchPhysPage` | MMU.cpp:134-140 | the page is in front once; list, position map and touch history stay in agreement |
| `MmuDevice.Mmu.GetLRUPhysPage` | MMU.cpp:142-152 | the unpinned page whose last touch lies furthest back |
| `MmuDevice.Mmu.RemoveLRUEntry` | MMU.cpp:154-160 | exactly that page leaves the list and the position map |
| `MmuDevice.Mmu.ReadPhysPage` | MMU.cpp:166-171 | the 256 bytes of the frame |
| `MmuDevice.Mmu.WritePhysPage` | MMU.cpp:173-177 | exactly that frame holds the buffer |
| `CpuDevice.Cpu.SaveTo` | CPU.cpp:271-279 | the context as a value |
| `CpuDevice.Cpu.LoadFrom` | CPU.cpp:281-289 | the context becomes exactly that value |
| `CpuDevice.Cpu.Fetch` | CPU.cpp:45-50 | three word reads; ip moves only if all succeed |
| `CpuDevice.Cpu.ExecuteTrap` | CPU.cpp:54-103 | system calls: operands recorded, the right trap |
| `CpuDevice.Cpu.ExecutePlain` | CPU.cpp:105-192 | moves, arithmetic and comparisons change registers and flags only |
| `CpuDevice.Cpu.ExecuteJump` | CPU.cpp:170-225 | jumps change ip only |
| `CpuDevice.Cpu.ExecuteMove` | CPU.cpp:115-168 | memory moves and prints, with their exceptions |
| `CpuDevice.Cpu.ExecutePush` | CPU.cpp:227-247 | calls and pushes, sp moved before the write |
| `CpuDevice.Cpu.ExecutePop` | CPU.cpp:239-257 | returns and pops, sp moved up a word after the read, as `StackLaws.Returns` and `StackLaws.Pops` tell |
| `CpuDevice.Cpu.Execute` | CPU.cpp:52-269 | the whole switch, with bad registers and unknown opcodes |
| `CpuDevice.Cpu.Step` | CPU.cpp:29-39 | fetch and execute; a page fault restores ip and nothing else |
| `CpuDevice.Cpu.Run` | CPU.cpp:16-23 | at most that many steps, stopping at the first trap or exception |
| `OsDevice.Os.constructor` | OS.cpp:6-9 | a cold start: all frames free but two shared ones, all queues empty; the state of a run without events |
| `OsDevice.Os.EnqueueReady` | OS.cpp:359-365 | Ready, and at the back of the queue of its clamped priority |
| `OsDevice.Os.PickNextReady` | OS.cpp:367-375 | the front of the first non-empty queue, removed |
| `OsDevice.Os.TickSleepers` | OS.cpp:377-388 | each sleeper of this tick dropped, woken or counted down once, in order |
| `OsDevice.Os.EvictOnePage` | OS.cpp:282-312 | the LRU unpinned frame, its page saved if dirty and unmapped, off the LRU list; none if all are pinned |
| `OsDevice.Os.HandlePageFault` | OS.cpp:236-274 | the page installed with its saved bytes or zeros, the process ready; false exactly when no frame can be had |
| `OsDevice.Os.FindRun` | OS.cpp:437-451 | the scan with runStart and runLen computes the first fit |
| `OsDevice.Os.HandleAlloc` | OS.cpp:408-482 | the allocation, its record and its address or 0; false exactly when it needs a frame and none can be had |
| `OsDevice.Os.HandleFreeMemory` | OS.cpp:484-516 | frames, disk slots and entries of the allocation released and its record alone erased, as `HeapRecords.FreeLaw` tells |
| `OsDevice.Os.GoToSleep` | OS.cpp:107-113 | WaitingSleep with its counter, at the back of the sleepers |
| `OsDevice.Os.MapSharedMem` | OS.cpp:121-134 | a valid region mapped without an owner and its address returned; an invalid one ignored |
| `OsDevice.Os.AcquireLock` | OS.cpp:136-150 | granted if free, queued if held, ignored if no such lock |
| `OsDevice.Os.ReleaseLock` | OS.cpp:152-169 | the owner's lock handed to the front waiter or freed, as `LockLaws.ReleaseLaw` tells |
| `OsDevice.Os.WaitEvent` | OS.cpp:171-184 | consumes a signal or waits |
| `OsDevice.Os.SignalEvent` | OS.cpp:186-201 | wakes all waiters in order, or leaves a signal, as `EventLaws.SignalLaw` tells |
| `OsDevice.Os.CleanupProcess` | OS.cpp:317-351 | frames, disk slots, table and allocations gone, locks handed over, Terminated |
| `OsDevice.Os.Serve` | OS.cpp:98-227 | every trap, page faults, and every other exception |
| `OsDevice.Os.Dispatch` | OS.cpp:92-227 | context in, a quantum, context out, and the service |
| `OsDevice.Os.Turn` | OS.cpp:83-228 | one turn of run(), keeping the invariant of the whole system |
| `OsDevice.Os.Run` | OS.cpp:82-229 | exactly the given number of turns of the loop, fewer only if it returns by itself; then nobody is ready or asleep |
| `OsDevice.Os.LoadProcessImage` | OS.cpp:37-66 | code pages mapped and the program written into them, or the exception |
| `OsDevice.Os.CreateProcess` | OS.cpp:11-31 | a new ready process with its program loaded, or no process at all; the invariant of the whole system is handed on |
| `ProgramImage.Program.Emit32` | PROGRAM.CPP:161-166 | the four bytes of the word, lowest first |
| `ProgramImage.Program.AssembleLine` | PROGRAM.CPP:51-159 | the twelve bytes of the line, or the exception with nothing emitted |
| `ProgramImage.Program.LoadLines` | PROGRAM.CPP:10-33 | the bytes of all lines, or the exception when a line fails or nothing was assembled |
| `ProgramImage.Program.LoadIntoMemory` | PROGRAM.CPP:43-47 | the program written byte by byte through the MMU, stopping at the first exception |

## Left out

- Reading files, comment stripping, tokenising and number parsing (PROGRAM.CPP:18-29, 170-259): lines arrive as an opcode and parsed operands.
- Console output, statistics, `cycles`, `contextSwitches`, `workingSetPages`, `running_` and `name`: bookkeeping no property rests on. Setpriority and Setpriorityi do nothing in the source and nothing here.
- `MMU::addSharedRegion`: never called, so `isValidVaddr_` has no shared regions.
- `PhysMem`: a byte array whose bounds check is the one error of a valid entry that names no frame, which the frame invariant excludes.
- `activePageTable_` and the references into `processes_`: page tables are kept with the MMU and the active one is named by the process's index. Dangling pointers after the process vector grows are not modelled.
- Process creation puts the record into the process table before loading and takes it out again when loading throws; the source pushes it after loading. Nothing runs in between.
- Program images larger than 0xE000 bytes: they index the source's page table out of range.
- `nextPid_` does not wrap: fewer than 2^32 creations. Signed overflow of a 64-bit register is modelled as two's complement wrap.
- Memory sizes that are no multiple of 256 bytes or hold fewer than two pages: the source's constructors throw.
- The text printed by Printr, Printm, Printcr and Printcm, and what Input and Inputc would read: the source reads nothing.
- The two pages of the window at 0xE000 in `DiskRoundTrip`, `StackProperty` and `Restart`, which speak of pages outside it; what their bytes are is in `SharedPages`.
- OsDevice.Os.Run: `while (true)` is modelled as any number of turns; that the idle spin inside it ends is System.IdleSpinEnds.
- ColdStart.LargerMemoryNeverHurts: about traces of page accesses; programs that allocate see which heap pages are resident, so the accesses they make can depend on the size of memory.
- OsDevice.Os.ReleasePage: a valid entry that names no frame is taken as unmapped where the source would throw; the frame invariant excludes it.
- Restart.RestartIsAtomic: asks that the instruction's own bytes survive its store's early ones, exactly when `Restart.StoppedStoreIff` says; an instruction that turns into another one acting alike is not covered.
- RetryBound.AtMostSixRetries: says the instruction stops faulting, not that its addresses are in bounds; instructions that move `sp_` before they fault meet another address on each retry and are not covered. It asks that early bytes miss the instruction's own code altogether, because unsafe evictions in between may change the word a memory move stores.
- System.WhenRunReturns: with processes waiting for events nothing is said about why run() returned.
