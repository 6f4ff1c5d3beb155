# Raxzus Flow: a verified model

Raxzus Flow is the heap of RaxzusOS, a 32-bit x86 kernel. Seven size classes each own 256 MB of
address space and a page directory. Free blocks hold the links of the free lists, freed large
regions keep their first page mapped to hold the link of theirs, and every page is mapped twice,
in the directory of its class and in the kernel's. The address of a pointer alone says which
allocator it came from. All of this bookkeeping sits in memory that clients write to.

The project models that heap down to the bits of the frame bitmap and the words of the page
tables, and proves that it implements a simple abstract machine: stacks of free blocks, a stack of
free slots and a map from frames to roles. It also models the round-robin scheduler and three
small number routines.

## How the proof is built

1. **Frames** (`Frames.dfy`). The bitmap array refines a set of frames. Both nested scans find the
   lowest clear one.
2. **Page tables** (`PageTables.dfy`, `MapLaw.dfy`, `Places.dfy`). Physical memory is 2^18 frames of 1024 words.
   `Walk` is the translation of section 4.3 (32-Bit Paging) of the Intel SDM, Volume 3A; the code
   has no such function. `Mmu` is the abstract state (the role of each marked frame, the
   directories, the installed entries) and `Rep` says that memory holds it.
3. **Shared pages** (`Spaces.dfy`, `Regions.dfy`). `AddPage` and `DropPage` are the two ways the
   heap changes the tables; `Balanced` (equal pairs of entries, one role per frame, exact counts)
   is what they keep.
4. **The machine** (`Machine.dfy`). The class `Paging` has the C functions as methods. From boot
   on, every access goes through `Walk` with the kernel directory active.
5. **The abstract heap** (`HeapModel.dfy`, `SizeClasses.dfy`, `LargeRegions.dfy`, `HeapInv.dfy`,
   `LargeInv.dfy`, `HeapRuns.dfy`, `HeapBoot.dfy`). `View` is the abstract state, `Step` one client
   call, `Run` a sequence of them, `Ready` the invariant.
6. **What follows** (`CallLaws.dfy`, `BootLaws.dfy`, `HeapTheorems.dfy`, `HeapHistory.dfy`,
   `Translation.dfy`). What each call does and what boot leaves, in addresses and sizes. Accounting, roles,
   reuse, routing, isolation and the exact room a request needs, for every state that satisfies the
   invariant; high water, address space lost, frames cleared and the number of processes, for every
   run.
7. **The heap itself** (`HeapMemory.dfy`, `HeapSteps.dfy`, `Heap.dfy`, `System.dfy`). The class
   `Heap` has the functions of lib/heap_domain.c as methods. Its ghost field `v` is the abstract
   heap, `Valid` says that memory, bitmap and records hold it, and every method steps `v` exactly.
   `Heap.BootAndRun` joins it all: from any contents of memory, boot and any legal run end in a
   valid heap whose `v` is the abstract run's state, so everything in `System` and under 6 holds
   there.
8. **The scheduler** (`Rounds.dfy`, `Scheduler.dfy`). Pure facts about a walk of a ring, then a
   linked list of process blocks whose `Schedule` method follows that walk.
9. **Numbers** (`SquareRoot.dfy`, `Decimal.dfy`).

The invariants are not empty promises: `HeapBoot.BootReady` shows that the state after boot
satisfies `Ready` and `Inv`, and `Heap.BootAndRun` constructs a machine and a heap object that
satisfy `Valid`, for every placement of the kernel image that leaves 1814 frames.

What the code relies on and does not check is the predicate `HeapRuns.Enabled`: a class has carved
fewer than 65536 pages when it needs one more; the large cursor stays at or below 0xC0000000; a
request is at most 0xFFFFEFFC bytes; every frame taken lies below 0x40000000, because tables are
reached at their physical address plus 0xC0000000; clients free live pointers and write inside live
blocks. `HeapTheorems.ServedByCount` turns the part about frames and address space into a condition
on counters that holds before the call if and only if the call is served. Pointers below 0x10000000,
null among them, may be freed freely: `kfree_heap` ignores them.

Where the code falls short of what a caller may expect, with the exact condition:

- `isqrt(2)` is 2. The starting guess n / 2 + 1 is not below n there, so the loop does not run.
  `SquareRoot.Isqrt` proves that 2 is the only such 32-bit number.
- `string_to_int` takes a minus sign for a digit worth -3. `Decimal.RoundTripOnMachine` proves that
  printing and reading back, with no step leaving int, gives the number exactly when it is not
  negative, which is also exactly when `is_valid_number` accepts the text. Signed overflow has no
  meaning in C; where it wraps, -2115098112 is the one negative number that comes back by accident.
- The size above which the page rounding of `kmalloc_large` wraps is 0xFFFFEFFC exactly
  (`HeapTheorems.PageRounding`); a larger request would get one page or none.
- Reusing a free slot for a smaller request drops the rest of its address space for good.
  `HeapHistory.RunSpace` accounts for every page of it.
- A process directory, also with the stack and code pages of `create_process` in it, maps no live
  heap address outside the two 4 MB stretches of those pages (`Translation.ProcessDirectoryLacksHeap`).
  Process blocks come from the 128-byte class, so under such a directory `schedule` can read none of
  them (`System.ProcessBlockUnreadable`). `init_process_scheduler` loads the directory of the first
  process (lib/process_manager.c:144-153) and `isr_wrapper_32` that of the next one, so this is so
  from the first tick on. The scheduler theorems hold with the kernel directory active.
- The code page of a user process lies at 0x10000000, the base of the 64-byte class: under its
  directory that heap address shows the process's own frame (`Translation.UserCodeShadowsHeap`).

One place that looks like a fault and is none: `current_index` has 16 bits, and at 0 `create_process`
replaces the list. No legal run creates 65537 processes (`HeapHistory.ProcessLimit`): each keeps a
4096-byte kernel stack, and that class has 65536 blocks (`System.IndexNeverWraps`).

## Model

| member | source | states |
|---|---|---|
| `Frames.FirstFreeBound` | lib/pmm.c:124-149 | first fit never returns a frame above the number of marked frames, so a bound on the count bounds every address handed out |
| `Frames.FullWord` | lib/pmm.c:97-99 | the shortcut of both scans is right: a word equals 0xFFFFFFFF exactly when all 32 of its frames are marked |
| `Frames.FrameBitmap.InitPmm` | lib/pmm.c:49-65 | afterwards exactly the frames of the kernel image are marked and `used_frames` is their number |
| `Frames.FrameBitmap.SetBit` | lib/pmm.c:182-191 | the set of marked frames gains or loses one frame; any other status changes nothing and gives 0 |
| `Frames.FrameBitmap.SetFrame` | lib/pmm.c:28-36 | marks the frame of a physical address; an address from 0xC0000000 up changes nothing |
| `Frames.FrameBitmap.ClearFrame` | lib/pmm.c:39-46 | unmarks the frame of a physical address, returns the new bitmap word and leaves `used_frames` alone; 0 and no change from 0xC0000000 up |
| `Frames.FrameBitmap.GetNextFreeKernelFrame` | lib/pmm.c:88-121 | returns, marks and counts the lowest clear frame past the kernel image; 0 and no change exactly when there is none |
| `Frames.FrameBitmap.GetNextFreeProcessFrame` | lib/pmm.c:124-149 | returns, marks and counts the lowest clear frame of all; halts exactly when one of the first 32 frames is clear |
| `Machine.ScansAgree` | lib/pmm.c:92-147 | while the kernel image is marked both scans find the same frame |
| `PageTables.DirectMap` | lib/paging_manager.c:90-123 | with the kernel half in place, every physical page n below 0x40000000 walks at 0xC0000000 + n with flags 0x103 |
| `PageTables.WalkFinds` | lib/pmm.c:160-176 | every abstract entry is what the processor's walk finds in memory |
| `MapLaw.MapKeepsRep` | lib/pmm.c:152-177 | the words `map_page` writes make memory hold the new abstract entries and still hold all others |
| `MapLaw.MapPageLaw` | lib/pmm.c:152-177 | get/put: the walk of the page yields phys or flags; no page of any other directory changes; no other page of this one when the table existed, none outside its 4 MB when a table was installed |
| `Machine.TableInstalled` | lib/pmm.c:164-173 | a missing table is the static one for index 0 of the kernel directory and otherwise the lowest unmarked frame, then marked; the directory entry is its address with the flags |
| `Spaces.AddPageBalanced` | lib/heap_domain.c:76-78 | a frame and two `map_page` calls keep entries in equal pairs, one role per frame and the counts exact |
| `Spaces.DropPageBalanced` | lib/heap_domain.c:284-301 | unmapping a page in both directories and clearing its frame keeps the same |
| `Regions.AddPagesFits` | lib/heap_domain.c:262-272 | a run of pages stays in reach of the direct map exactly when the number of marked frames does |
| `Regions.AddPagesFreshTables` | lib/pmm.c:164-173 | mapping n fresh pages costs exactly two tables per 4 MB boundary crossed and one frame for each page and table, in reach or not |
| `Machine.Paging.SetupEntries` | lib/paging_manager.c:54-59 | the kernel directory and its first table are zero, no other frame is touched |
| `Machine.Paging.MapKernelMemory` | lib/paging_manager.c:90-123 | the cached-table loop fills 256 disjoint tables with the direct map, leaves the lower half of the directory and all frames outside as they were |
| `Machine.Paging.MapKernelFrame` | lib/paging_manager.c:96-121 | one round extends the direct map by one frame and keeps the cached table right |
| `Machine.Paging.Boot` | kernel.c:87-88 | from any memory contents, boot leaves tables and bitmap in the initial abstract state |
| `Machine.Paging.GetNextFreeProcessFrame` | lib/pmm.c:124-149 | gives the next frame its role; neither the halt loop nor a null result is reachable |
| `Machine.Paging.GetNextFreeKernelFrame` | lib/pmm.c:88-121 | the same frame, from the other scan |
| `Machine.Paging.MapPage` | lib/pmm.c:152-177 | memory becomes exactly what `MapLaw.MapMemory` says, the law of `MapLaw.MapPageLaw` with it |
| `Machine.Paging.LargeUnmapPage` | lib/heap_domain.c:284-304 | both entries of the page are gone, its frame is cleared when asked, every page frame keeps its contents |
| `Machine.Paging.NewDirectory` | lib/paging_manager.c:126-139 | a new directory in a fresh frame: nothing below 0xC0000000, the kernel's 256 entries above, no page frame touched |
| `Machine.Paging.AddPageTo` | lib/heap_domain.c:124-136 | the frame request and both `map_page` calls together are one abstract `AddPage` |
| `SizeClasses.PopKeeps` | lib/heap_domain.c:105-110 | taking the newest block keeps free and live blocks a partition of the carved range |
| `SizeClasses.PushKeeps` | lib/heap_domain.c:182-183 | so does giving a live block back |
| `SizeClasses.CarveKeeps` | lib/heap_domain.c:82-94 | so does threading a new page in front |
| `SizeClasses.BlocksApart` | lib/heap_domain.c:59-60 | two blocks of a class never overlap |
| `LargeRegions.TakeKeeps` | lib/heap_domain.c:239-256 | live regions and free slots stay disjoint inside [0x80000000, cursor) whether a request reuses the newest slot or takes fresh space |
| `LargeRegions.ReleaseKeeps` | lib/heap_domain.c:306-321 | they stay so when a region becomes a slot |
| `LargeRegions.TakePages` | lib/heap_domain.c:239-272 | exactly the pages of the new region become live, and a reused slot gives up exactly its kept page |
| `HeapInv.CarveInv` | lib/heap_domain.c:68-95 | carving a page keeps the whole invariant: partitions, regions, mapped pages, tables, counts, client data |
| `HeapInv.PopInv` | lib/heap_domain.c:105-110 | a pop keeps the whole invariant |
| `HeapInv.DomFreeInv` | lib/heap_domain.c:176-185 | a small free keeps the whole invariant |
| `LargeInv.BigAllocInv` | lib/heap_domain.c:228-280 | a large request keeps the whole invariant, reusing or fresh |
| `LargeInv.BigFreeInv` | lib/heap_domain.c:306-321 | a large free keeps the whole invariant |
| `LargeInv.ReuseTables` | lib/heap_domain.c:243-246 | reusing a slot installs no table |
| `HeapRuns.StepReady` | lib/heap_domain.c:338-359 | every call of a well-behaved client, and every new directory, keeps the invariant |
| `HeapRuns.Run` | lib/heap_domain.c:338-359 | every state of every legal run satisfies the invariant |
| `HeapHistory.RunInOrder` | lib/heap_domain.c:338-359 | a run is its calls in order, each made in the state the earlier ones leave |
| `HeapBoot.BootReady` | lib/heap_domain.c:323-336 | `init_all_heaps` establishes the invariant whenever 1814 frames below 0x40000000 are left, and never runs out on the way |
| `BootLaws.BootBlocks` | lib/heap_domain.c:326-332 | the state after boot in numbers: 256 pages at each base, 64, 32, ..., 1 blocks of 64, 128, ..., 4096 bytes a page, all free, the newest page first and each page in address order |
| `BootLaws.BootFrames` | lib/heap_domain.c:323-336 | nine directories, 1814 frames taken, the large cursor at 0x80000000, no slot and no region |
| `BootLaws.BootNothingLive` | lib/heap_domain.c:323-336 | no address and no pointer is live before the first call |
| `HeapBoot.ReachableReady` | lib/heap_domain.c:323-359 | the invariant holds in every state reachable from boot |
| `HeapTheorems.Accounting` | lib/heap_domain.c:68-95 | marked frames are the kernel image, the directories, one per carved page, one per live large page, one per free slot and two tables for each 4 MB carved from |
| `HeapTheorems.UseHasFrame` | lib/pmm.c:124-149 | every directory, table and owned page has a marked frame outside the kernel image whose role is that use |
| `HeapTheorems.OneRolePerFrame` | lib/heap_domain.c:115-135 | two different uses never share a frame |
| `HeapTheorems.MarkedFrameHasUse` | lib/heap_domain.c:262-272 | every marked frame outside the kernel image serves a use the heap still has: no frame leaks |
| `HeapTheorems.OnePageKind` | lib/heap_domain.c:312-320 | an owned page is a carved small page, a live large page or a kept first page, and exactly one of these |
| `CallLaws.FreeThenReuse` | lib/heap_domain.c:239-321 | freeing a live large pointer and then asking for at most what its pages hold cannot fail, returns the same pointer, moves no cursor, installs no table and marks old - freed + new frames |
| `HeapTheorems.BigServed` | lib/heap_domain.c:228-272 | the exact number of frames a large request takes, and it is served if and only if they fit |
| `HeapTheorems.CarveServed` | lib/heap_domain.c:115-135 | the same for one more page of a class: one frame, three at a 4 MB boundary |
| `HeapTheorems.ServedByCount` | lib/heap_domain.c:338-347 | whether a request or a new directory is served is decided by counters alone, checked before the call, in both directions |
| `HeapTheorems.PageRounding` | lib/heap_domain.c:234 | the 32-bit page count covers request and header if and only if the size is at most 0xFFFFEFFC, and is 0 or 1 above |
| `HeapTheorems.SmallProgress` | lib/heap_domain.c:105-110 | a request of at most 4096 bytes is served without touching a page table while fewer blocks of its class are live than carved, and 256 pages always are |
| `CallLaws.FreeThenMalloc` | lib/heap_domain.c:176-185 | freeing a live small pointer and then asking for a size whose smallest class it is in cannot fail, returns the pointer, restores every class and touches no page table |
| `HeapTheorems.Routing` | lib/heap_domain.c:338-359 | the pointer of `kmalloc` is not null, is aligned, goes back to its own allocator in `kfree_heap`, and all its bytes are live now and were not before |
| `CallLaws.SmallestClass` | lib/heap_domain.c:338-346 | by address: up to 64 bytes at 0x10000000, up to 128 at 0x20000000, ..., up to 4096 at 0x70000000, aligned to the block size; above that past 0x80000000, 4 bytes into a page |
| `CallLaws.SmallRequest` | lib/heap_domain.c:101-172 | the newest free block goes out, or with none the first block of a page mapped at `next_virt_addr`, the others left free in address order; nothing outside the class changes |
| `CallLaws.LargeRequest` | lib/heap_domain.c:228-280 | the least number of pages that hold size and header, from the newest slot if it has as many, else from the cursor; nothing small changes |
| `CallLaws.LeastRounded` | lib/heap_domain.c:234 | the 32-bit page count is the least that holds size and header, for every size up to 0xFFFFEFFC |
| `CallLaws.RequestLive` | lib/heap_domain.c:338-347 | exactly the bytes of the new block become live, 64, 128, ..., 4096 or the rest of its pages, and exactly one pointer |
| `CallLaws.FreeCall` | lib/heap_domain.c:349-359 | the block goes to the front of the free list its address names, a region with its page count to the front of the slots; below 0x10000000 nothing happens; nothing else changes |
| `CallLaws.FreeLive` | lib/heap_domain.c:349-359 | every live pointer may be freed; exactly the bytes of its block stop being live, and exactly that pointer |
| `CallLaws.WriteCall` | lib/heap_domain.c:138-142 | a client may write every word of live memory; the write records that word and changes nothing else |
| `CallLaws.SpawnCall` | lib/paging_manager.c:126-139 | a new directory takes the lowest unmarked frame and changes nothing of the heap |
| `HeapTheorems.PeakIsRunningMax` | lib/heap_domain.c:101-185 | one call raises the recorded peak exactly when more blocks are live than ever before |
| `HeapHistory.PeakOfRun` | lib/heap_domain.c:101-185 | over any run the recorded peak is the maximum of live blocks over all its states |
| `HeapTheorems.HighWaterFootprint` | lib/heap_domain.c:105-158 | a class has carved exactly max(256, ceil(recorded peak / blocks per page)) pages |
| `HeapHistory.RunFootprint` | lib/heap_domain.c:68-158 | in every run from boot a class has carved exactly max(256, ceil(p / blocks per page)) pages, p the most blocks live at once in any state of the run |
| `HeapHistory.StepSpace` | lib/heap_domain.c:239-256 | a call loses address space only by reusing a larger slot, and then exactly the difference |
| `HeapHistory.RunSpace` | lib/heap_domain.c:239-320 | conservation: in every run from boot, cursor - 0x80000000 is live pages plus slot pages plus the leftovers of all reuses so far |
| `HeapHistory.ClearedOfRun` | lib/heap_domain.c:246-315 | the counter of cleared frames grows by n - 1 for the free of an n-page region, by 1 for a reuse, by nothing else |
| `HeapTheorems.FullClass` | lib/heap_domain.c:101-158 | a class never has more live blocks than 65536 pages hold, and serves no request once it has that many |
| `HeapHistory.ProcessLimit` | lib/process_manager.c:101 | no legal run from boot creates more than 65536 processes, since each keeps a kernel stack |
| `HeapTheorems.DataStays` | lib/heap_domain.c:338-359 | a word a client wrote survives every call but its own overwrite or the free of its block |
| `Translation.DoubleMapping` | lib/heap_domain.c:129-135 | an owned page walks to the same frame and flags through its own directory and the kernel's |
| `Translation.DistinctFrames` | lib/heap_domain.c:262-272 | distinct owned pages lie in distinct frames |
| `Translation.SharedKernelHalf` | lib/heap_domain.c:49-55 | every directory ever made maps 0xC0000000 and up as the direct map |
| `Translation.BandOnly` | lib/heap_domain.c:43-55 | the directory of an allocator maps nothing below 0xC0000000 outside its own band; a process directory, as `create_process_page_directory` leaves it, maps nothing there at all |
| `Machine.Paging.MapProcess` | lib/process_manager.c:54-78 | the frames and `map_page` calls of `create_process`, kernel or user, are the abstract places of that process |
| `Places.PlaceYields` | lib/process_manager.c:62-64 | a page of a process walks to its new frame with its flags |
| `Places.KernelProcess` | lib/process_manager.c:54-78 | a kernel process: 0xBFFFF000 walks to a frame that was not marked, with flags 3; no walk changes outside that 4 MB of its directory |
| `Places.UserProcess` | lib/process_manager.c:54-64 | a user process: 0xBFFFF000 and 0x10000000 walk to two different frames that were not marked, with flags 7; no walk changes outside those two 4 MB |
| `Places.PlacesElsewhere` | lib/process_manager.c:54-64 | the pages of any number of processes change no walk of any directory outside the 4 MB stretches they lie in |
| `Translation.ProcessesLeaveHeap` | lib/process_manager.c:54-64 | they change no walk under the kernel's or an allocator's directory |
| `Translation.ProcessDirectoryLacksHeap` | lib/process_manager.c:50-64 | whatever processes have their stack and code pages, under a process directory the walk of every live heap address outside those two stretches finds no page |
| `Translation.UserCodeShadowsHeap` | lib/process_manager.c:62-64 | under a user process's directory 0x10000000 walks to a frame that was not marked before, so to no heap page |
| `Translation.HeapPutGet` | lib/heap_domain.c:182 | a heap write changes that word and no other and leaves every table as it was |
| `Translation.ClientWriteIsolated` | lib/heap_domain.c:138-142 | a write inside live memory changes no walk of any page in any directory and no other heap word |
| `HeapSteps.HeldPop` | lib/heap_domain.c:107-108 | the link in the popped block is the new head of the list |
| `HeapSteps.HeldPush` | lib/heap_domain.c:182-183 | one word written makes memory hold the longer list and all the rest as before |
| `HeapSteps.HeldWrite` | lib/heap_domain.c:138-142 | a client write leaves every link, chain word, count and header in place |
| `HeapSteps.HeldCarve` | lib/heap_domain.c:82-92 | the threading loop makes memory hold the new page's blocks in front of the old list |
| `HeapSteps.HeldBigAlloc` | lib/heap_domain.c:274-279 | the header completes a large allocation in memory |
| `HeapSteps.HeldBigFree` | lib/heap_domain.c:317-320 | the chain and count words complete a large free in memory |
| `HeapSteps.FreeListInMemory` | lib/heap_domain.c:105-109 | following the links through the page tables gives exactly the abstract list |
| `Heap.Heap.InitHeapDomain` | lib/heap_domain.c:31-97 | directory, metadata and 256 threaded pages: the next stage of the abstract boot |
| `Heap.Heap.HeapDomainAlloc` | lib/heap_domain.c:101-172 | the abstract pop, after one page more exactly when nothing is free; returns the popped block |
| `Heap.Heap.HeapDomainFree` | lib/heap_domain.c:176-185 | the abstract push; null is ignored |
| `Heap.Heap.InitLargeDomain` | lib/heap_domain.c:205-223 | the eighth directory, cursor at 0x80000000, no free slot |
| `Heap.Heap.KmallocLarge` | lib/heap_domain.c:228-280 | the abstract large allocation, null and no change for size 0; returns the byte after the header |
| `Heap.Heap.KfreeLarge` | lib/heap_domain.c:306-321 | the abstract large free of exactly the pages allocated, the count read from memory; null is ignored |
| `Heap.Heap.InitAllHeaps` | lib/heap_domain.c:323-336 | from the booted machine to the abstract boot state |
| `Heap.Heap.Kmalloc` | lib/heap_domain.c:338-347 | the abstract allocation in the class of the size, and its pointer |
| `Heap.Heap.KfreeHeap` | lib/heap_domain.c:349-359 | the abstract free in the allocator the address names; an address below 0x10000000 changes nothing |
| `Heap.Heap.ClientWrite` | lib/heap_domain.c:138-142 | a store inside a live block changes the recorded client data and nothing else |
| `Heap.Heap.ClientRead` | lib/heap_domain.c:138-142 | a load returns what the client last stored there |
| `Heap.Heap.NewProcessDirectory` | lib/paging_manager.c:126-139 | a process directory joins the directories, the heap is as before |
| `Heap.Heap.RunAll` | lib/heap_domain.c:338-359 | any legal sequence of calls leaves the machine in the state of the abstract run |
| `Heap.BootAndRun` | kernel.c:87-89 | from any memory contents: boot, set up the heaps, run; the machine ends valid and in the state of the abstract run |
| `System.FreeListIntact` | lib/heap_domain.c:82-94 | from `next_free_block` the links in memory lead through distinct blocks to null; these and the live blocks are exactly the block boundaries of [base, `next_virt_addr`), none both |
| `System.LargeListIntact` | lib/heap_domain.c:317-320 | from `next_free_virt` the links lead through the free slots, newest first, each followed by its page count |
| `System.HeaderIntact` | lib/heap_domain.c:309-310 | the header `kfree_large` reads is the page count `kmalloc_large` wrote, also after a larger slot was reused |
| `System.BitmapAccounting` | lib/pmm.c:60-63 | the exact number of marked frames, and `used_frames` is that plus the counter of cleared frames, modulo 2^32 |
| `System.UsedFramesOfRun` | lib/pmm.c:60-63 | after any run from boot `used_frames` is the kernel image, the heap's frames and every frame the calls of the run cleared, modulo 2^32 |
| `System.ScansSafe` | lib/pmm.c:135-138 | in every state both scans agree and look past the kernel image only, so the halt loop is never entered |
| `System.ProcessBlockUnreadable` | lib/process_manager.c:43 | no byte of a live process block has a page under any process directory, whatever processes have their pages |
| `System.IndexNeverWraps` | lib/process_manager.c:101-112 | with 65536 processes on the list, each with its own kernel stack, the next `kmalloc(4096)` is not served, so the list is never replaced |
| `Rounds.StepLowers` | lib/process_manager.c:165-184 | a round of the loop that does not end it lowers the sum of the sleep times |
| `Rounds.NextStop` | lib/process_manager.c:163-184 | the loop ends, at the first step that leaves a process without sleep |
| `Rounds.SleepsByVisits` | lib/process_manager.c:180-182 | each sleep time has gone down by the number of visits, never below zero |
| `Rounds.VisitTimeUnique` | lib/process_manager.c:167-178 | closed form: the m-th visit of a process is at its distance plus m - 1 rounds |
| `Scheduler.ChoiceIsLeast` | lib/process_manager.c:163-184 | the process picked is the strict minimum of (max(sleep, 1), cyclic distance) among all |
| `Scheduler.ChoiceSleeps` | lib/process_manager.c:180-184 | the chosen one has sleep 0 (or its negative value); every other sleep fell by exactly the times it was passed, and that was not enough to wake it |
| `Scheduler.OneWalk` | interrupt_stubs.s:43-78 | any number of ticks is one continuous walk of the ring |
| `Scheduler.Fairness` | lib/process_manager.c:165-184 | a process with sleep s is dispatched first at exactly its max(s, 1)-th visit, within n * max(s, 1) ticks, by no earlier tick |
| `Scheduler.FairnessWithCreation` | lib/process_manager.c:108-184 | with processes created between ticks in any order, a process with sleep s is dispatched within N * max(s, 1) ticks, N the final number of processes |
| `Scheduler.EventsInOrder` | lib/process_manager.c:108-184 | events take effect one after the other: a tick, or a process with sleep 0 at the end of the list |
| `Scheduler.DispatchedByTick` | interrupt_stubs.s:43-78 | being dispatched means that some timer event leaves the process current |
| `Scheduler.ProcessManager.Append` | lib/process_manager.c:108-121 | the block joins the end of the doubly linked list, empty or not; with 65536 blocks on it the list becomes the new block alone |
| `Scheduler.ProcessManager.CreateProcess` | lib/process_manager.c:41-121 | the list grows by one fresh process that does not sleep and the current process stays; at a wrapped index, which `System.IndexNeverWraps` rules out, the new process would replace the list |
| `Scheduler.ProcessManager.InitProcessScheduler` | lib/process_manager.c:124-128 | whatever was on the list, it becomes one new process, current and next |
| `Scheduler.ProcessManager.Schedule` | lib/process_manager.c:163-184 | the loop over the linked list ends where the abstract walk does, with its sleep times; links and current process untouched |
| `Scheduler.ProcessManager.TimerTick` | interrupt_stubs.s:43-78 | schedule and current := next are one abstract tick, with the kernel directory active |
| `Scheduler.ProcessManager.TimerTicks` | interrupt_stubs.s:43-78 | k interrupts are k abstract ticks, so `Scheduler.Fairness` speaks of the list, with the kernel directory active |
| `Scheduler.ProcessManager.Handle` | lib/process_manager.c:108-184 | any mixture of timer interrupts and new processes is the abstract sequence of events, so `Scheduler.FairnessWithCreation` speaks of the list, with the kernel directory active |
| `SquareRoot.NewtonFits` | lib/memtest.c:24 | x + n / x never leaves 32 bits |
| `SquareRoot.NewtonAbove` | lib/memtest.c:24 | a Newton step never falls below the root |
| `SquareRoot.Isqrt` | lib/memtest.c:21-26 | with x strictly decreasing, returns r with r * r <= n < (r + 1) * (r + 1) if and only if n is not 2, and 2 for n = 2, all in wrapping 32-bit arithmetic |
| `Decimal.ReadDigits` | lib/kutils.c:56-68 | the numeral of n reads back as n and is all digits |
| `Decimal.PrintValue` | lib/vga.c:122-126 | a numeral without leading zeros is what its value prints as |
| `Decimal.DigitsLength` | lib/vga.c:94 | n prints in at most k digits exactly when n < 10^k |
| `Decimal.RoundTrip` | lib/kutils.c:46-68 | the printed text is all digits, and its base-ten reading is the number printed, if and only if the number is not negative |
| `Decimal.RoundTripOnMachine` | lib/kutils.c:56-68 | for every int: no step of reading the text back overflows and the number comes back, if and only if it is not negative; in wrapping 32-bit arithmetic it comes back if and only if it is not negative or is -2115098112 |
| `Decimal.WrapStep` | lib/kutils.c:60-64 | wrapping after every step of the loop is wrapping the whole reading |
| `Decimal.DigitsOverflow` | lib/kutils.c:60-64 | over digits, no step overflows int exactly when the number itself fits |
| `Decimal.TextInjective` | lib/vga.c:93-142 | different numbers print differently |
| `Decimal.TextExactly` | lib/vga.c:93-142 | the text is the numeral and nothing else: no needless zero, a minus sign exactly for a negative number |
| `Decimal.NoOverflowMeans` | lib/kutils.c:60-64 | no overflow means that every product and every sum of the loop is an int |
| `Decimal.IsValidNumber` | lib/kutils.c:46-54 | true exactly when all characters before the terminator are digits; true of the empty string |
| `Decimal.StringToInt` | lib/kutils.c:56-68 | the wrapped base-ten reading of any string, whether every step stayed within int, and then the reading itself |
| `Decimal.Emit` | lib/vga.c:120-129 | the digits lowest first and the terminator, nothing before them touched |
| `Decimal.Reverse` | lib/vga.c:131-139 | the digit portion back to front in place, nothing else touched |
| `Decimal.IntToString` | lib/vga.c:93-142 | for every int, INT_MIN included, the 12-byte buffer holds the text and its terminator |
| `Decimal.PrintAndRead` | lib/kutils.c:46-68 | print, check, read: valid exactly from 0 up; defined and unchanged exactly from 0 up; equal on a wrapping machine exactly from 0 up and at -2115098112 |

## Left out

- Requests that run out of frames: a table in a frame from 0x40000000 up has no direct-map address, so the code stops working before the 4 GB bitmap is full, and the null branches of `heap_domain_alloc` and `kmalloc_large` and the fatal loops of the initialisers lie beyond that bound. The bitmap scans themselves model the null result.
- Frames between 0x80000000 and the end of the bitmap: `calculate_page`, `find_index` and `find_bit` take a C int and give other results there.
- TLB flushes and the writes of CR0, CR3 and CR4: the kernel directory is taken as active throughout, and a walk sees memory as it is.
- The 4 MB mapping of the boot loader: `init_paging` writes to physical memory directly in the model.
- Client accesses are whole aligned words; partial writes inside a word would add nothing to the isolation argument.
- Pages of a fresh table that the code has not mapped yet: `map_page` does not zero a new table, so claims about walks are about owned pages, whole 4 MB stretches without a table, and the kernel half.
- The heap's runs contain the directory that `create_process` makes; its stack and code pages come after a run (`Places`), not between its calls. The contents of the stack and the code copy are assembly-bound.
- The seven domain structs are one sequence of records, indexed by class, and physical memory is a sequence field that stores replace; aliasing among C pointers appears only as addresses.
- Sleep times change only in `schedule`: the system call that would set one is commented out in the source.
- `ASSERT_PHYSICAL` and `ASSERT_VIRTUAL` failures of `map_page`, and all messages printed.
- Port I/O, interrupt controller, disk, clock, keyboard, shell, screen, benchmarks, `double_to_string`, `tokinize_words`: hardware effects, floating point or easy next to the rest.
- Frames.FrameBitmap.SetFrame: covers addresses below 0x80000000 and from 0xC0000000 up; in the gap the C int is negative and the code writes outside the bitmap.
- Frames.FrameBitmap.ClearFrame: the same gap.
- Frames.FrameBitmap.GetNextFreeKernelFrame: leaves out bitmaps whose lowest clear frame is from 0x80000 up, where `set_frame` meets the same gap.
- Frames.FrameBitmap.GetNextFreeProcessFrame: the same bitmaps.
- Machine.Paging.GetNextFreeProcessFrame: needs a clear frame below 0x40000000, the bound of the direct map, which `HeapTheorems.ServedByCount` turns into a count.
- Machine.Paging.GetNextFreeKernelFrame: the same bound.
- Machine.Paging.NewDirectory: the same bound.
- Machine.Paging.AddPageTo: the same bound.
- Machine.Paging.MapPage: covers lower-half addresses and frames taken for the page, which is how the heap calls it; the kernel half is mapped once, at boot.
- Machine.Paging.LargeUnmapPage: covers mapped pages, the only ones the heap unmaps; for another page of an existing table the code would clear whatever frame the unzeroed entry names.
- Heap.Heap.InitHeapDomain: needs the 1814 frames of `HeapBoot.BootReady`; with fewer the code loops for ever.
- Heap.Heap.InitLargeDomain: the same frames.
- Heap.Heap.InitAllHeaps: the same frames.
- Heap.Heap.HeapDomainAlloc: needs a free block or the room `HeapTheorems.CarveServed` describes; past 65536 pages a class would run into the next one's addresses.
- Heap.Heap.KmallocLarge: needs the room `HeapTheorems.BigServed` describes and a size whose rounding does not wrap (`HeapTheorems.PageRounding`).
- Heap.Heap.Kmalloc: the two conditions before, by size.
- Heap.Heap.NewProcessDirectory: needs one frame below 0x40000000.
- Scheduler.ProcessManager.TimerTick: the switch to the next process's page directory is not modelled; under it process blocks cannot be read (`Translation.ProcessDirectoryLacksHeap`).
- Scheduler.ProcessManager.TimerTicks: the same switch.
- Scheduler.ProcessManager.Handle: the same switch.
- Machine.Paging.MapProcess: needs its frames below 0x40000000, as `Machine.Paging.AddPageTo` does.
- HeapTheorems.Accounting: speaks of runs in which no request ran out of frames.
