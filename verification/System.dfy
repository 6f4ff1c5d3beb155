/**
 * What holds on the machine itself, in every state a heap object can be in: statements about the
 * bitmap, the page tables and the words in memory, read with the kernel directory active.
 */
module System {
  import opened Frames
  import opened PageTables
  import opened Places
  import opened Spaces
  import opened Regions
  import opened Machine
  import opened HeapModel
  import opened SizeClasses
  import opened LargeRegions
  import opened HeapInv
  import opened HeapRuns
  import opened HeapTheorems
  import opened Translation
  import opened HeapMemory
  import opened HeapSteps
  import opened HeapBoot
  import opened HeapHistory
  import opened Heap
  import opened Scheduler

  lemma ValidParts(h: Heap)
    requires h.Valid()
    ensures h.paging.Valid() && Rep(h.paging.mem, h.v.mmu) && h.paging.m == h.v.mmu
    ensures Inv(h.v) && |h.v.doms| == CLASSES && Held(h.paging.mem, h.v) && RecordsOk(h.doms, h.large, h.v)
    ensures |h.v.mmu.dirs| > 0 && h.v.mmu.dirs[0] == h.paging.kdir < DIRECT_FRAMES && WfMemory(h.paging.mem)
  {
    hide Rep, Inv, Held, RecordsOk, HighWater;
    RepShape(h.paging.mem, h.v.mmu);
  }

  /** A block boundary between the class's base and its next_virt_addr. */
  predicate InClass(k: nat, next: nat, a: nat)
    requires k < CLASSES
  {
    BasePage(k) * 4096 <= a < next && a % BlockSize(k) == 0
  }

  /**
   * The free list of a class, read out of memory that clients write to: from next_free_block the
   * links lead through distinct blocks to a null link, and those blocks together with the live
   * ones are exactly the block boundaries up to next_virt_addr, none of them both.
   */
  lemma FreeListIntact(h: Heap, k: nat, fuel: nat)
    requires h.Valid() && k < CLASSES && fuel >= |h.v.doms[k].free|
    ensures |h.doms| == CLASSES && WfMemory(h.paging.mem) && h.paging.kdir < DIRECT_FRAMES
    ensures var s := Chase(h.paging.mem, h.paging.kdir, h.doms[k].nextFreeBlock, fuel);
            && Distinct(s)
            && (forall a: nat :: InClass(k, h.doms[k].nextVirtAddr, a) <==> a in s || a in h.v.doms[k].live)
            && (forall a | a in s :: a !in h.v.doms[k].live)
  {
    hide Rep, Inv, Held, Chase, RecordsOk;
    ValidParts(h);
    FreeListInMemory(h.paging.mem, h.v, k, fuel);
    RecordsFacts(h.doms, h.large, h.v, k);
    InvDom(h.v, k);
    DomOkParts(k, h.v.doms[k]);
  }

  /** The addresses of free slots. */
  function SlotStarts(s: seq<Slot>): (r: seq<nat>)
    ensures |r| == |s| && forall i | 0 <= i < |s| :: r[i] == s[i].start * 4096
  {
    seq(|s|, i requires 0 <= i < |s| => s[i].start * 4096)
  }

  lemma SlotChain(mem: Memory, m: Mmu, s: seq<Slot>)
    requires Rep(mem, m) && SlotsLinked(mem, m, s)
    ensures Linked(mem, m, SlotStarts(s)) && First(SlotStarts(s)) == SlotAddress(s)
  {
    hide Rep, Holds;
    forall i | 0 <= i < |s| ensures Holds(mem, m, SlotStarts(s)[i], LinkAt(SlotStarts(s), i)) {
      assert SlotHolds(mem, m, s, i);
    }
  }

  /**
   * The chain of freed large regions, read out of memory: from next_free_virt the links lead
   * through the slots, newest first, to a null link, and the word after each link is the number
   * of pages the slot can be reused for.
   */
  lemma LargeListIntact(h: Heap, fuel: nat)
    requires h.Valid() && fuel >= |h.v.big.slots|
    ensures WfMemory(h.paging.mem) && h.paging.kdir < DIRECT_FRAMES
    ensures Chase(h.paging.mem, h.paging.kdir, h.large.nextFreeVirt, fuel) == SlotStarts(h.v.big.slots)
    ensures forall j | 0 <= j < |h.v.big.slots| ::
              ReadWord(h.paging.mem, h.paging.kdir, h.v.big.slots[j].start * 4096 + 4) == h.v.big.slots[j].count
  {
    hide Rep, Inv, Chase, ReadWord, Linked, Headers, DataHeld, ListsHeld, Holds, RecordOk;
    ValidParts(h);
    var s := h.v.big.slots;
    SlotChain(h.paging.mem, h.v.mmu, s);
    SlotsNotNull(h.v);
    ChaseLinked(h.paging.mem, h.v.mmu, SlotStarts(s), fuel);
    forall j | 0 <= j < |s| ensures ReadWord(h.paging.mem, h.paging.kdir, s[j].start * 4096 + 4) == s[j].count {
      assert SlotHolds(h.paging.mem, h.v.mmu, s, j);
      ReadHeld(h.paging.mem, h.v.mmu, s[j].start * 4096 + 4, s[j].count);
    }
  }

  lemma SlotsNotNull(v: View)
    requires Inv(v)
    ensures forall i | 0 <= i < |v.big.slots| :: SlotStarts(v.big.slots)[i] != 0
  {
    hide Inv, Disjoint;
    InvBig(v);
  }

  /** kfree_large reads back the page count kmalloc_large wrote, whatever the client wrote since. */
  lemma HeaderIntact(h: Heap, start: nat)
    requires h.Valid() && start in h.v.big.live
    ensures WfMemory(h.paging.mem) && h.paging.kdir < DIRECT_FRAMES
    ensures ReadWord(h.paging.mem, h.paging.kdir, start * 4096) == h.v.big.live[start]
  {
    hide Rep, Inv, ReadWord, ListsHeld, SlotsLinked, DataHeld, Holds, RecordsOk;
    ValidParts(h);
    ReadHeld(h.paging.mem, h.v.mmu, start * 4096, h.v.big.live[start]);
  }

  /** The frames the heap accounts for: directories, pages, kept pages, tables. */
  ghost function Footing(v: View): int
    requires |v.doms| == CLASSES && LARGE_PAGE <= v.big.cursor
  {
    |v.mmu.dirs| - 1 + SumCarved(v.doms) + Total(v.big.live) + |v.big.slots|
      + 2 * (SumTables(v.doms) + Tables(v.big.cursor - LARGE_PAGE))
  }

  /** The number of marked frames, and how far used_frames runs ahead of it: one per frame cleared so far. */
  lemma BitmapAccounting(h: Heap)
    requires h.Valid()
    ensures |h.v.doms| == CLASSES && LARGE_PAGE <= h.v.big.cursor
    ensures |h.paging.frames.used| == h.paging.frames.reserve + Footing(h.v)
    ensures h.paging.frames.usedFrames == (|h.paging.frames.used| + h.v.mmu.cleared) % 0x1_0000_0000
  {
    hide Rep, Inv, Held, RecordsOk, Total, SumCarved, SumTables, Tables;
    ValidParts(h);
    Accounting(h.v);
    KeysSize(h.v.mmu.own);
  }

  /** The same after any run from boot, the frames cleared counted call by call. */
  lemma UsedFramesOfRun(h: Heap, ops: seq<Op>)
    requires h.Valid() && h.paging.kdir + KERNEL_TABLES + BOOT_FRAMES <= DIRECT_FRAMES
    requires Ready(BootView(h.paging.kdir)) && EnabledRun(BootView(h.paging.kdir), ops)
    requires h.v == Run(BootView(h.paging.kdir), ops)
    ensures |h.v.doms| == CLASSES && LARGE_PAGE <= h.v.big.cursor
    ensures h.paging.frames.usedFrames
            == (h.paging.frames.reserve + Footing(h.v) + ClearedOver(BootView(h.paging.kdir), ops)) % 0x1_0000_0000
  {
    hide Rep, Inv, Held, RecordsOk, Ready, EnabledRun, Run, ClearedOver, BootView, Footing;
    BitmapAccounting(h);
    BootState(h.paging.kdir);
    ClearedOfRun(BootView(h.paging.kdir), ops);
  }

  lemma KeysSize<K, V>(m: map<K, V>)
    ensures |m.Keys| == |m|
  {
    assert forall k | k in m.Keys :: k in m;
  }

  /**
   * Both scans return the same frame, which lies past the kernel image; the process scan never
   * looks at frame 0 and so never enters its halt loop.
   */
  lemma ScansSafe(h: Heap)
    requires h.Valid()
    ensures var used, reserve := h.paging.frames.used, h.paging.frames.reserve;
            FirstFreeFrom(used, reserve) == FirstFree(used) && FirstFree(used) >= reserve >= 32
  {
    hide Rep, Inv, Held, RecordsOk;
    ValidParts(h);
    h.paging.ReservedUsed();
    ScansAgree(h.paging.frames.used, h.paging.frames.reserve);
  }

  // ---------------------------------------------------------------------------------------
  // Processes
  // ---------------------------------------------------------------------------------------

  /** sizeof(struct PCB): six words, fourteen saved registers, five words. */
  const PCB_SIZE: nat := 100

  /** Every byte of a live block of class k is live memory of that class. */
  lemma BlockLive(v: View, k: nat, ptr: nat, a: nat)
    requires Inv(v) && k < CLASSES && ptr in v.doms[k].live && ptr <= a < ptr + BlockSize(k)
    ensures LiveWord(v, a) && a / 0x1000_0000 - 1 == k
  {
    hide Inv, BlockOf, BlockSize;
    InvDom(v, k);
    DomOkParts(k, v.doms[k]);
    BlockRoute(k, v.doms[k].carved, ptr);
    IsBlockAligned(k, v.doms[k].carved, ptr);
    BlockOfInside(k, ptr, a);
  }

  /**
   * A process block comes from kmalloc and so lies in the 128-byte class. With the directory of any
   * process active, whatever processes have their pages, no byte of it can be read.
   */
  lemma ProcessBlockUnreadable(h: Heap, xs: seq<Place>, d: nat, ptr: nat, a: nat)
    requires h.Valid() && CanPlaceAll(h.v.mmu, xs) && OfProcesses(xs) && 9 <= d < |h.v.mmu.dirs|
    requires ptr in h.v.doms[ClassOf(PCB_SIZE)].live && ptr <= a < ptr + PCB_SIZE
    ensures Rep(h.paging.mem, h.v.mmu) && h.v.mmu.dirs[d] < DIRECT_FRAMES && a / 4096 < PAGES
    ensures Walk(PlacedAllMemory(h.paging.mem, h.v.mmu, xs), h.v.mmu.dirs[d], a / 4096) == None
  {
    hide Rep, Inv, Held, RecordsOk, CanPlaceAll, LiveWord, Walk;
    ValidParts(h);
    BlockLive(h.v, 1, ptr, a);
    ProcessDirectoryLacksHeap(h.paging.mem, h.v, xs, d, a);
  }

  /**
   * The 16-bit process index never wraps: were there 65536 processes on the list, each with its own
   * kernel stack, the kmalloc for the stack of the next one could not be served.
   */
  lemma IndexNeverWraps(h: Heap, manager: ProcessManager)
    requires h.Valid() && manager.Linked()
    requires forall i | 0 <= i < |manager.ring| :: manager.ring[i].kernelStack in h.v.doms[STACK_CLASS].live
    requires forall i, j | 0 <= i < j < |manager.ring| :: manager.ring[i].kernelStack != manager.ring[j].kernelStack
    ensures |h.v.doms| == CLASSES && |h.v.mmu.dirs| > 0
    ensures |manager.ring| == INDICES ==> !Enabled(h.v, Malloc(STACK_SIZE))
  {
    hide Rep, Inv, Held, RecordsOk, Ready, Enabled, STACK_CLASS;
    ReadyFacts(h.v);
    var stacks := StacksOf(manager.ring);
    StacksNow(h.v, stacks);
  }

  /** The kernel stacks of a list of processes, as many as there are processes. */
  ghost function StacksOf(ring: seq<Pcb>): (r: set<nat>)
    ensures forall a :: a in r <==> exists i :: 0 <= i < |ring| && ring[i].kernelStack == a
    ensures (forall i, j | 0 <= i < j < |ring| :: ring[i].kernelStack != ring[j].kernelStack) ==> |r| == |ring|
  {
    if ring == [] then {}
    else
      var n := |ring| - 1;
      assert forall i | 0 <= i < n :: ring[..n][i] == ring[i];
      StacksOf(ring[..n]) + {ring[n].kernelStack}
  }
}
