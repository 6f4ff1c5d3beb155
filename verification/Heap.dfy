/**
 * lib/heap_domain.c: the allocators themselves. All bookkeeping is read from and written to
 * memory through the page tables; the ghost field `v` is the abstract heap each call steps.
 */
module Heap {
  import opened Frames
  import opened PageTables
  import opened Spaces
  import opened Regions
  import opened Machine
  import opened HeapModel
  import opened SizeClasses
  import opened LargeRegions
  import opened HeapInv
  import opened LargeInv
  import opened HeapRuns
  import opened HeapBoot
  import opened HeapTheorems
  import opened Translation
  import opened HeapMemory
  import opened HeapSteps

  /** heap_domain_t. */
  datatype DomainRecord = DomainRecord(pageDirectory: Word, blockSize: nat, blocksPerPage: nat,
                                       nextFreeBlock: Word, nextVirtAddr: Word)

  /** large_domain_t. */
  datatype LargeRecord = LargeRecord(pageDirectory: Word, nextVirtAddr: Word, nextFreeVirt: Word)

  /** A domain record agrees with its class. */
  predicate RecordOk(k: nat, r: DomainRecord, v: View)
    requires k < CLASSES && |v.doms| == CLASSES
  {
    && k + 1 < |v.mmu.dirs| && r.pageDirectory == v.mmu.dirs[k + 1] * 4096 + KERNEL_BASE
    && r.blockSize == BlockSize(k) && r.blocksPerPage == BlocksPerPage(k)
    && r.nextFreeBlock == First(v.doms[k].free)
    && r.nextVirtAddr == (BasePage(k) + v.doms[k].carved) * 4096
  }

  predicate LargeRecordOk(r: LargeRecord, v: View) {
    && 8 < |v.mmu.dirs| && r.pageDirectory == v.mmu.dirs[8] * 4096 + KERNEL_BASE
    && r.nextVirtAddr == v.big.cursor * 4096
    && r.nextFreeVirt == SlotAddress(v.big.slots)
  }

  predicate RecordsOk(doms: seq<DomainRecord>, large: LargeRecord, v: View)
    requires |v.doms| == CLASSES
  {
    && |doms| == CLASSES && LargeRecordOk(large, v)
    && forall k | 0 <= k < CLASSES :: RecordOk(k, doms[k], v)
  }

  class Heap {
    const paging: Paging
    /** heap_64, heap_128, ..., heap_4k. */
    var doms: seq<DomainRecord>
    var large: LargeRecord
    ghost var v: View

    /** Memory, bitmap and page tables hold the abstract heap. */
    ghost predicate Backed()
      reads this, paging, paging.frames, paging.frames.bitmap
    {
      && paging.Valid() && paging.m == v.mmu
      && Inv(v) && |v.doms| == CLASSES && Held(paging.mem, v)
    }

    ghost predicate Valid()
      reads this, paging, paging.frames, paging.frames.bitmap
    {
      Backed() && Ready(v) && RecordsOk(doms, large, v)
    }

    // -------------------------------------------------------------------------------------
    // Heap words
    // -------------------------------------------------------------------------------------

    method Peek(va: Word) returns (w: Word)
      requires paging.Valid() && va % 4 == 0 && PageMapped(paging.m, va / 4096)
      ensures w == HeapWord(paging.mem, paging.m, va)
    {
      hide Rep, HeapWord, HeapPut;
      HeapAccess(paging.mem, paging.m, va);
      w := paging.Load(va);
    }

    method Poke(va: Word, w: Word)
      requires paging.Valid() && va % 4 == 0 && PageMapped(paging.m, va / 4096)
      modifies paging`mem
      ensures paging.Valid() && paging.mem == HeapPut(old(paging.mem), paging.m, va, w)
    {
      hide Rep, HeapWord, HeapPut;
      HeapAccess(paging.mem, paging.m, va);
      HeapPutGet(paging.mem, paging.m, va, w, va);
      paging.Store(va, w);
    }

    // -------------------------------------------------------------------------------------
    // Size classes
    // -------------------------------------------------------------------------------------

    /** What threading the page at `virt` relies on: it is mapped now and was not when u was current. */
    ghost predicate Threading(virt: Word, mem0: Memory, u: View, k: nat)
      reads this, paging, paging.frames, paging.frames.bitmap
    {
      && k < CLASSES && |u.doms| == CLASSES && paging.Valid() && virt % 4096 == 0 && virt < KERNEL_BASE
      && PageMapped(paging.m, virt / 4096) && !PageMapped(u.mmu, virt / 4096)
      && Rep(mem0, u.mmu) && Same(mem0, u.mmu, paging.mem, paging.m, u)
    }

    /** Writes the link of block i. */
    method LinkBlock(virt: Word, blockSize: nat, i: nat, link: Word, ghost mem0: Memory, ghost u: View, ghost k: nat)
      requires Threading(virt, mem0, u, k) && blockSize == BlockSize(k) && i < BlocksPerPage(k)
      requires Chained(paging.mem, paging.m, PageBlocks(k, virt / 4096), i)
      modifies paging`mem
      ensures Threading(virt, mem0, u, k)
      ensures Chained(paging.mem, paging.m, PageBlocks(k, virt / 4096), i)
      ensures Holds(paging.mem, paging.m, PageBlocks(k, virt / 4096)[i], link)
    {
      hide Rep, Same, Holds, HeapPut, PageMapped, BlockSize, BlocksPerPage, PageBlocks, Chained;
      LinkAddress(k, virt / 4096, i);
      ThreadOne(mem0, u, paging.mem, paging.m, k, virt / 4096, i, link);
      Poke(virt + i * blockSize, link);
    }

    /** The loop that threads a free list through the blocks of a page; `tail` ends it. */
    method ThreadPage(virt: Word, blockSize: nat, blocksPerPage: nat, tail: Word,
                      ghost mem0: Memory, ghost u: View, ghost k: nat)
      requires Threading(virt, mem0, u, k) && blockSize == BlockSize(k) && blocksPerPage == BlocksPerPage(k)
      modifies paging`mem
      ensures Threading(virt, mem0, u, k)
      ensures var s := PageBlocks(k, virt / 4096);
              && Chained(paging.mem, paging.m, s, |s| - 1) && Holds(paging.mem, paging.m, s[|s| - 1], tail)
    {
      hide Rep, Same, Holds, HeapPut, PageMapped, BlockSize, BlocksPerPage, PageBlocks, Chained;
      ghost var p := virt / 4096;
      EmptyChain(paging.mem, paging.m, k, p);
      for i := 0 to blocksPerPage - 1
        invariant Threading(virt, mem0, u, k) && Chained(paging.mem, paging.m, PageBlocks(k, p), i)
      {
        LinkAddress(k, p, i);
        LinkBlock(virt, blockSize, i, virt + (i + 1) * blockSize, mem0, u, k);
        ChainGrows(paging.mem, paging.m, PageBlocks(k, p), i);
      }
      LinkBlock(virt, blockSize, blocksPerPage - 1, tail, mem0, u, k);
    }

    /** One more page of blocks for a class, in front of its free list. */
    method GrowDomain(k: nat, tail: Word)
      requires k < CLASSES && |doms| == CLASSES && |v.doms| == CLASSES && RecordOk(k, doms[k], v)
      requires Backed() && CanCarve(v, k) && tail == First(v.doms[k].free)
      modifies this`doms, this`v, paging, paging.frames, paging.frames.bitmap
      ensures Backed() && |old(v).mmu.dirs| > 0 && v == Carve(old(v), k)
      ensures |doms| == CLASSES && RecordOk(k, doms[k], v)
      ensures forall j | 0 <= j < CLASSES && j != k :: doms[j] == old(doms)[j]
    {
      hide Rep, Inv, Held, Same, Holds, HeapPut, PageMapped, BlockSize, BlocksPerPage, PageBlocks, Chained, CanCarve,
           AddPage, KeepsPages, Good, Addable, PageFramesKept;
      ghost var u, mem0 := v, paging.mem;
      var virt := doms[k].nextVirtAddr;
      CarvePre(v, k);
      paging.AddPageTo(doms[k].pageDirectory, virt);
      AddedSame(mem0, u, paging.mem, k);
      ThreadPage(virt, doms[k].blockSize, doms[k].blocksPerPage, tail, mem0, u, k);
      doms := doms[k := doms[k].(nextFreeBlock := virt, nextVirtAddr := virt + 4096)];
      HeldCarve(mem0, u, paging.mem, k);
      CarveInv(u, k);
      v := Carve(v, k);
    }

    /** Takes the head of a free list: one word read, no memory written. */
    method PopHead(k: nat) returns (ptr: Word)
      requires k < CLASSES && |doms| == CLASSES && |v.doms| == CLASSES && RecordOk(k, doms[k], v)
      requires Backed() && v.doms[k].free != []
      modifies this`doms, this`v
      ensures Backed() && v == Pop(old(v), k) && ptr == old(v).doms[k].free[0]
      ensures |doms| == CLASSES && RecordOk(k, doms[k], v)
      ensures forall j | 0 <= j < CLASSES && j != k :: doms[j] == old(doms)[j]
    {
      hide Rep, Inv, Held, HeapWord, PageMapped, BlockSize, BlocksPerPage;
      HeldPop(paging.mem, v, k);
      PopInv(v, k);
      ptr := doms[k].nextFreeBlock;
      var next := Peek(ptr);
      doms := doms[k := doms[k].(nextFreeBlock := next)];
      v := Pop(v, k);
    }

    /** heap_domain_alloc: pops the free list, or maps one more page first when it is empty. */
    method HeapDomainAlloc(k: nat) returns (ptr: Word)
      requires Valid() && k < CLASSES && (v.doms[k].free != [] || CanCarve(v, k))
      modifies this`doms, this`v, paging, paging.frames, paging.frames.bitmap
      ensures Valid() && |old(v).mmu.dirs| > 0 && v == DomAlloc(old(v), k) && ptr == DomPointer(old(v), k)
    {
      hide Rep, Inv, Held, Ready, RecordOk, CanCarve, Carve, Pop, LargeRecordOk;
      ghost var u := v;
      HeadZero(u, k);
      DomAllocReady(u, k);
      RecordsFacts(doms, large, v, k);
      if doms[k].nextFreeBlock != 0 {
        ptr := PopHead(k);
      } else {
        GrowDomain(k, 0);
        CarvedFront(u, k);
        ptr := PopHead(k);
      }
      RecordsStay(old(doms), doms, large, u, v, k) by { AllocKeeps(u, k); }
    }

    /** Threads a block in front of its free list: one word written. */
    method PushHead(k: nat, ptr: Word)
      requires k < CLASSES && |doms| == CLASSES && |v.doms| == CLASSES && RecordOk(k, doms[k], v)
      requires Backed() && ptr in v.doms[k].live
      modifies this`doms, this`v, paging`mem
      ensures Backed() && v == DomFree(old(v), k, ptr)
      ensures |doms| == CLASSES && RecordOk(k, doms[k], v)
      ensures forall j | 0 <= j < CLASSES && j != k :: doms[j] == old(doms)[j]
    {
      hide Rep, Inv, Held, HeapPut, DomFree, PageMapped;
      ghost var u, r := v, doms[k];
      HeldPush(paging.mem, v, k, ptr);
      FreedUntracked(v, k, ptr);
      DomFreeInv(v, k, ptr);
      FreeKeeps(u, k, ptr, r);
      Poke(ptr, doms[k].nextFreeBlock);
      doms := doms[k := doms[k].(nextFreeBlock := ptr)];
      v := DomFree(v, k, ptr);
    }

    /** heap_domain_free: threads the block back in front; a null pointer is ignored. */
    method HeapDomainFree(k: nat, ptr: Word)
      requires Valid() && k < CLASSES && (ptr == 0 || ptr in v.doms[k].live)
      modifies this`doms, this`v, paging`mem
      ensures Valid() && v == if ptr == 0 then old(v) else DomFree(old(v), k, ptr)
    {
      hide Rep, Inv, Held, Ready, RecordOk, LargeRecordOk, DomFree, RecordsOk;
      if ptr == 0 { return; }
      ghost var u := v;
      RecordsFacts(doms, large, v, k);
      DomFreeReady(v, k, ptr);
      FreeKeeps(u, k, ptr, doms[k]);
      PushHead(k, ptr);
      RecordsStay(old(doms), doms, large, u, v, k);
    }

    // -------------------------------------------------------------------------------------
    // Large allocations
    // -------------------------------------------------------------------------------------

    /**
     * Where a request of `pages` pages goes: the newest free slot if it is large enough, whose
     * kept page is unmapped and its frame cleared, otherwise fresh address space.
     */
    method ChooseRegion(pages: nat) returns (virtStart: Word)
      requires Valid() && CanBig(v, pages)
      modifies this`large, paging`mem, paging`m, paging.frames`used, paging.frames.bitmap
      ensures paging.Valid() && paging.m == Cleared(v.mmu, v.big, pages) && virtStart == BigStart(v.big, pages) * 4096
      ensures old(paging.Valid()) && Rep(old(paging.mem), v.mmu) && |v.doms| == CLASSES && Held(old(paging.mem), v)
      ensures Same(old(paging.mem), v.mmu, paging.mem, paging.m, Unslotted(v, pages))
      ensures LargeMoved(old(large), large, v, pages)
    {
      hide Rep, Inv, Held, Ready, RecordOk, HeapWord, HeapPut, Cleared, CanBig, Same, PageMapped, Good, Balanced,
           PageFramesKept, DropPage;
      LargeFacts(paging.mem, v, pages);
      if large.nextFreeVirt != 0 {
        var candidate := large.nextFreeVirt;
        var freedPages := Peek(candidate + 4);
        if freedPages >= pages {
          virtStart := candidate;
          var next := Peek(candidate);
          large := large.(nextFreeVirt := next);
          ghost var mem0 := paging.mem;
          paging.LargeUnmapPage(large.pageDirectory, virtStart, true);
          SlotDropped(mem0, v, paging.mem, pages);
        } else {
          virtStart := large.nextVirtAddr;
          large := large.(nextVirtAddr := large.nextVirtAddr + pages * 4096);
        }
      } else {
        virtStart := large.nextVirtAddr;
        large := large.(nextVirtAddr := large.nextVirtAddr + pages * 4096);
      }
    }

    /** The loop of kmalloc_large: n fresh frames, each entered in the large and the kernel directory. */
    method MapRegion(virtStart: Word, pages: nat, ghost mem0: Memory, ghost u: View)
      requires paging.Valid() && virtStart % 4096 == 0 && |u.doms| == CLASSES && Rep(mem0, u.mmu)
      requires Good(paging.m) && AddableRun(paging.m, virtStart / 4096, pages) && LARGE_PAGE <= virtStart / 4096
      requires |paging.m.dirs| > 8 && large.pageDirectory == paging.m.dirs[8] * 4096 + KERNEL_BASE
      requires Same(mem0, u.mmu, paging.mem, paging.m, u)
      modifies paging`mem, paging`m, paging.frames`used, paging.frames`usedFrames, paging.frames.bitmap
      ensures paging.Valid() && paging.m == AddPages(old(paging.m), virtStart / 4096, pages)
      ensures Same(mem0, u.mmu, paging.mem, paging.m, u)
    {
      hide Rep, Good, AddableRun, Addable, Same, AddPage, PageFramesKept, KeepsPages, PageMapped, Wf;
      ghost var m1, start := paging.m, virtStart / 4096;
      for i := 0 to pages
        invariant paging.Valid() && paging.m == AddPages(m1, start, i) && Same(mem0, u.mmu, paging.mem, paging.m, u)
      {
        RunPage(m1, start, pages, i);
        var virt := virtStart + i * 4096;
        ghost var mem1 := paging.mem;
        paging.AddPageTo(large.pageDirectory, virt);
        PageAddedSame(mem0, u, mem1, AddPages(m1, start, i), paging.mem, start + i);
      }
    }

    /** The body of kmalloc_large once the page count is known: region, pages, header. */
    method AllocRegion(pages: nat) returns (virtStart: Word)
      requires Valid() && CanBig(v, pages)
      modifies this`large, this`v, paging, paging.frames, paging.frames.bitmap
      ensures Backed() && |old(v).mmu.dirs| > 0 && v == BigAlloc(old(v), pages)
      ensures virtStart == BigStart(old(v).big, pages) * 4096 && LargeMoved(old(large), large, old(v), pages)
    {
      hide Rep, Inv, Held, Ready, RecordOk, Cleared, CanBig, Same, Good, AddableRun, AddPages, BigStart, BigTake,
           SlotAddress, Unslotted;
      ghost var mem0 := paging.mem;
      BigRun(v, pages) by { ReadyFacts(v); }
      RegionFacts(v, pages) by { ReadyFacts(v); }
      virtStart := ChooseRegion(pages);
      MapRegion(virtStart, pages, mem0, Unslotted(v, pages));
      WriteHeader(virtStart, pages, mem0);
    }

    /** The page count goes into the first word of the region. */
    method WriteHeader(virtStart: Word, pages: nat, ghost mem0: Memory)
      requires |v.doms| == CLASSES && |v.mmu.dirs| > 8 && pages < 0x1_0000_0000
      requires paging.Valid() && paging.m == BigAlloc(v, pages).mmu && virtStart == BigStart(v.big, pages) * 4096
      requires Rep(mem0, v.mmu) && Same(mem0, v.mmu, paging.mem, paging.m, Unslotted(v, pages))
      requires Held(mem0, v) && Inv(v) && CanBig(v, pages)
      modifies this`v, paging`mem
      ensures Backed() && v == BigAlloc(old(v), pages)
    {
      hide Rep, Inv, Held, HeapPut, Cleared, CanBig, Same, PageMapped, AddPages, BigStart, BigTake, Unslotted;
      BigAllocInv(v, pages);
      RegionMapped(v, pages);
      PageAddress(BigStart(v.big, pages));
      HeaderWritten(mem0, v, paging.mem, pages, paging.m, virtStart);
      Poke(virtStart, pages);
      v := BigAlloc(v, pages);
    }

    /** kmalloc_large. */
    method KmallocLarge(size: Word) returns (ptr: Word)
      requires Valid() && (size == 0 || (size <= 0xFFFF_EFFC && CanBig(v, PagesFor(size))))
      modifies this`large, this`v, paging, paging.frames, paging.frames.bitmap
      ensures Valid()
      ensures size == 0 ==> ptr == 0 && v == old(v)
      ensures size != 0 ==>
                && |old(v).mmu.dirs| > 0 && v == BigAlloc(old(v), PagesFor(size))
                && ptr == BigPointer(old(v), PagesFor(size))
    {
      hide Rep, Inv, Held, Ready, RecordsOk, CanBig, BigAlloc, BigStart, LargeMoved;
      if size == 0 { return 0; }
      PageRounding(size);
      var pages := RoundedPages(size);
      ghost var u := v;
      BigAllocReady(u, pages);
      RegionFacts(u, pages) by { ReadyFacts(u); }
      var virtStart := AllocRegion(pages);
      LargeRecords(doms, old(large), large, u, pages);
      ptr := virtStart + 4;
    }

    /** The loop of kfree_large: pages 1 to n - 1 are unmapped and their frames cleared. */
    method UnmapTail(realStart: Word, pages: nat, ghost start: nat, ghost u: View)
      requires paging.Valid() && paging.m == u.mmu && realStart == start * 4096
      requires |u.doms| == CLASSES && Region(u.mmu, start, pages) && ClearOf(u, start, pages)
      requires |u.mmu.dirs| > 8 && large.pageDirectory == u.mmu.dirs[8] * 4096 + KERNEL_BASE
      modifies paging`mem, paging`m, paging.frames`used, paging.frames.bitmap
      ensures paging.Valid() && paging.m == DropPages(u.mmu, start + 1, pages - 1)
      ensures Rep(old(paging.mem), u.mmu) && Same(old(paging.mem), u.mmu, paging.mem, paging.m, u)
    {
      hide Rep, Region, ClearOf, Good, Balanced, Same, DropPage, PageFramesKept, PageMapped, Wf, KeepsPages, Tracked;
      ghost var mem0 := paging.mem;
      SameMemory(mem0, u);
      assert pages >= 1 by { RegionSize(u.mmu, start, pages); }
      for i := 1 to pages
        invariant paging.Valid() && paging.m == DropPages(u.mmu, start + 1, i - 1)
        invariant Same(mem0, u.mmu, paging.mem, paging.m, u)
      {
        TailPage(u.mmu, start, pages, i, paging.m);
        DropOneMore(u.mmu, start + 1, i);
        PageAddress(start + i);
        ghost var r, mem1 := paging.m, paging.mem;
        DropPageEffect(r, start + i);
        PageClear(u, start, pages, start + i);
        paging.LargeUnmapPage(large.pageDirectory, realStart + i * 4096, true);
        PageDroppedSame(mem0, u, mem1, r, paging.mem, paging.m, start + i);
      }
    }

    /** The end of kfree_large: chain word, count word, list head. */
    method ChainRegion(realStart: Word, pages: nat, ghost start: nat, ghost mem0: Memory)
      requires |v.doms| == CLASSES && start in v.big.live && v.big.live[start] == pages && pages >= 1
      requires realStart == start * 4096 && large.nextFreeVirt == SlotAddress(v.big.slots)
      requires paging.Valid() && paging.m == BigFree(v, start).mmu
      requires Rep(mem0, v.mmu) && Same(mem0, v.mmu, paging.mem, paging.m, Unregioned(v, start))
      requires ClearOf(Unregioned(v, start), start, pages)
      requires Held(mem0, v) && Inv(v)
      modifies this`large, this`v, paging`mem
      ensures Backed() && v == BigFree(old(v), start)
      ensures large == old(large).(nextFreeVirt := realStart)
    {
      hide Rep, Inv, Held, HeapPut, Same, PageMapped, BigFree, Unregioned, Holds, SlotAddress, ClearOf;
      BigFreeInv(v, start);
      BigFreeMmu(v, start);
      StartStays(v, start);
      PageAddress(start);
      ChainWritten(mem0, v, paging.mem, start, paging.m, large.nextFreeVirt, pages, realStart);
      Poke(realStart, large.nextFreeVirt);
      Poke(realStart + 4, pages);
      large := large.(nextFreeVirt := realStart);
      v := BigFree(v, start);
    }

    /** kfree_large: the page count is read back from the header; a null pointer is ignored. */
    method KfreeLarge(ptr: Word)
      requires Valid() && (ptr == 0 || (ptr % 4096 == 4 && ptr / 4096 in v.big.live))
      modifies this`large, this`v, paging`mem, paging`m, paging.frames`used, paging.frames.bitmap
      ensures Valid()
      ensures ptr == 0 ==> v == old(v)
      ensures ptr != 0 ==>
                && ptr / 4096 in old(v).big.live && old(v).big.live[ptr / 4096] >= 1
                && v == BigFree(old(v), ptr / 4096)
    {
      hide Rep, Inv, Held, Ready, RecordOk, Same, DropPages, BigFree, HeapWord, PageMapped, Unregioned, SlotAddress,
           Region,
           ClearOf;
      if ptr == 0 { return; }
      ghost var start, u, mem0 := ptr / 4096, v, paging.mem;
      HeaderHeld(paging.mem, v, start);
      BigFreeReady(v, start);
      BigFreeMmu(v, start);
      RegionReady(v, start);
      var realStart := ptr - 4;
      var pages := Peek(realStart);
      UnmapTail(realStart, pages, start, Unregioned(v, start));
      ChainRegion(realStart, pages, start, mem0);
      FreedRecords(doms, old(large), u, start);
    }

    // -------------------------------------------------------------------------------------
    // Entry points
    // -------------------------------------------------------------------------------------

    /** kmalloc. */
    method Kmalloc(size: Word) returns (ptr: Word)
      requires Valid() && Enabled(v, Malloc(size))
      modifies this`doms, this`large, this`v, paging, paging.frames, paging.frames.bitmap
      ensures Valid() && |old(v).doms| == CLASSES && |old(v).mmu.dirs| > 0
      ensures v == MallocStep(old(v), size) && ptr == MallocPointer(old(v), size)
    {
      hide Rep, Inv, Held, Ready, RecordsOk, CanCarve, CanBig, DomAlloc, DomPointer, BigAlloc, BigPointer;
      ReadyFacts(v);
      if size <= 64 { ptr := HeapDomainAlloc(0); return; }
      if size <= 128 { ptr := HeapDomainAlloc(1); return; }
      if size <= 256 { ptr := HeapDomainAlloc(2); return; }
      if size <= 512 { ptr := HeapDomainAlloc(3); return; }
      if size <= 1024 { ptr := HeapDomainAlloc(4); return; }
      if size <= 2048 { ptr := HeapDomainAlloc(5); return; }
      if size <= 4096 { ptr := HeapDomainAlloc(6); return; }
      ptr := KmallocLarge(size);
    }

    /** kfree_heap: the address alone says which allocator the block belongs to. */
    method KfreeHeap(ptr: Word)
      requires Valid() && |v.mmu.dirs| > 0 && Enabled(v, Free(ptr))
      modifies this`doms, this`large, this`v, paging`mem, paging`m, paging.frames`used, paging.frames.bitmap
      ensures Valid() && |old(v).doms| == CLASSES && v == FreeStep(old(v), ptr)
    {
      hide Rep, Inv, Held, Ready, RecordsOk, DomFree, BigFree;
      if 0x1000_0000 <= ptr < 0x2000_0000 { HeapDomainFree(0, ptr); }
      else if 0x2000_0000 <= ptr < 0x3000_0000 { HeapDomainFree(1, ptr); }
      else if 0x3000_0000 <= ptr < 0x4000_0000 { HeapDomainFree(2, ptr); }
      else if 0x4000_0000 <= ptr < 0x5000_0000 { HeapDomainFree(3, ptr); }
      else if 0x5000_0000 <= ptr < 0x6000_0000 { HeapDomainFree(4, ptr); }
      else if 0x6000_0000 <= ptr < 0x7000_0000 { HeapDomainFree(5, ptr); }
      else if 0x7000_0000 <= ptr < 0x8000_0000 { HeapDomainFree(6, ptr); }
      else if 0x8000_0000 <= ptr { KfreeLarge(ptr); }
    }

    /** A client stores a word in memory it holds. */
    method ClientWrite(va: Word, w: Word)
      requires Valid() && va % 4 == 0 && LiveWord(v, va)
      modifies this`v, paging`mem
      ensures Valid() && v == old(v).(data := old(v).data[va := w])
    {
      hide Rep, Inv, Held, Ready, LiveWord, HeapPut, PageMapped;
      ghost var u := v;
      HeldWrite(paging.mem, v, va, w);
      WriteInv(v, va, w);
      WriteReady(v, va, w) by { ReadyFacts(v); }
      Poke(va, w);
      v := v.(data := v.data[va := w]);
      SameRecords(doms, large, u, v);
    }

    /** A client loads a word of its memory: it reads what it last wrote there. */
    method ClientRead(va: Word) returns (w: Word)
      requires Valid() && va % 4 == 0 && LiveWord(v, va)
      ensures va in v.data ==> w == v.data[va]
    {
      hide Rep, Inv, Ready, LiveWord, HeapWord, ListsHeld, SlotsLinked, Headers, RecordsOk;
      LivePageMapped(v, va);
      w := Peek(va);
      if va in v.data { assert Holds(paging.mem, v.mmu, va, v.data[va]); }
    }

    /** A new page directory, whoever asks for it. */
    method NewDirectory() returns (dir: Word)
      requires Backed() && NextFrame(v.mmu) < DIRECT_FRAMES
      modifies this`v, paging, paging.frames, paging.frames.bitmap
      ensures Backed() && v == AddDir(old(v)) && dir == DirectAddress(NextFrame(old(v).mmu))
      ensures v.mmu.dirs == old(v).mmu.dirs + [NextFrame(old(v).mmu)]
    {
      hide Rep, Inv, Held, NewDir, PageFramesKept;
      ghost var u, mem0 := v, paging.mem;
      AddDirInv(v);
      dir := paging.NewDirectory();
      v := AddDir(v);
      DirAddedHeld(mem0, u, paging.mem);
    }

    /** create_process_page_directory. */
    method NewProcessDirectory() returns (dir: Word)
      requires Valid() && NextFrame(v.mmu) < DIRECT_FRAMES
      modifies this`v, paging, paging.frames, paging.frames.bitmap
      ensures Valid() && v == AddDir(old(v)) && dir == DirectAddress(NextFrame(old(v).mmu))
    {
      hide Rep, Inv, Held, Ready, NewDir;
      ghost var u := v;
      SpawnReady(v);
      dir := NewDirectory();
      MoreDirs(doms, large, u, v);
    }

    /** A whole client run: the heap in memory follows the abstract one call by call. */
    method RunAll(ops: seq<Op>)
      requires Valid() && Ready(v) && EnabledRun(v, ops)
      modifies this`doms, this`large, this`v, paging, paging.frames, paging.frames.bitmap
      ensures Valid() && Ready(old(v)) && EnabledRun(old(v), ops) && v == Run(old(v), ops)
    {
      hide Rep, Inv, Held, Ready, RecordsOk, Step, Enabled;
      ghost var u := v;
      var i := 0;
      assert ops[0..] == ops;
      while i < |ops|
        invariant 0 <= i <= |ops| && Valid() && Ready(v) && EnabledRun(v, ops[i..]) && Ready(u) && EnabledRun(u, ops)
        invariant Run(v, ops[i..]) == Run(u, ops)
      {
        assert ops[i..][0] == ops[i] && ops[i..][1..] == ops[i + 1..];
        StepReady(v, ops[i]);
        ReadyFacts(v);
        Perform(ops[i]);
        i := i + 1;
      }
    }

    /** One call of a run. */
    method Perform(op: Op)
      requires Valid() && |v.mmu.dirs| > 0 && Enabled(v, op)
      modifies this`doms, this`large, this`v, paging, paging.frames, paging.frames.bitmap
      ensures Valid() && |old(v).doms| == CLASSES && |old(v).mmu.dirs| > 0 && v == Step(old(v), op)
    {
      hide Rep, Inv, Held, Ready, RecordsOk, MallocStep, FreeStep, MallocPointer, CanCarve, CanBig, LiveWord;
      OpWords(v, op);
      match op
      case Malloc(size) => var ptr := Kmalloc(size);
      case Free(ptr) => KfreeHeap(ptr);
      case Write(va, w) => ClientWrite(va, w);
      case Spawn => var dir := NewProcessDirectory();
    }

    // -------------------------------------------------------------------------------------
    // Boot
    // -------------------------------------------------------------------------------------

    /** The static structs before init_all_heaps. */
    constructor (paging: Paging)
      ensures this.paging == paging && |doms| == CLASSES
    {
      this.paging := paging;
      doms := seq(CLASSES, _ => DomainRecord(0, 0, 0, 0, 0));
      large := LargeRecord(0, 0, 0);
      v := EmptyView(0);
    }

    /** Boot with the first k classes set up. */
    ghost predicate Booting(k: nat, e: View)
      reads this, paging, paging.frames, paging.frames.bitmap
    {
      && k <= CLASSES && |doms| == CLASSES && Backed()
      && |e.doms| == CLASSES && |e.mmu.dirs| > 0 && v == InitDomains(e, k)
      && (if k < CLASSES then Stage(v, k, 0, k) else Stage(v, CLASSES - 1, PREMAP, CLASSES))
      && |v.mmu.dirs| > 0 && Reserve(v.mmu) + BOOT_FRAMES <= DIRECT_FRAMES
      && forall j | 0 <= j < k :: RecordOk(j, doms[j], v)
    }

    /** init_heap_domain. */
    method InitHeapDomain(k: nat, blockSize: nat, virtBase: Word, ghost e: View)
      requires k < CLASSES && blockSize == BlockSize(k) && virtBase == BasePage(k) * 4096 && Booting(k, e)
      modifies this`doms, this`v, paging, paging.frames, paging.frames.bitmap
      ensures Booting(k + 1, e)
    {
      hide Rep, Inv, Held, RecordOk, Stage, InitDomain, AddDir, BlockSize;
      MakeDomain(k, blockSize, virtBase);
      DomainsStep(e, k);
      if k + 1 < CLASSES { StageNext(v, k); }
    }

    /** A directory, then PREMAP pages carved one in front of the other. */
    method MakeDomain(k: nat, blockSize: nat, virtBase: Word)
      requires k < CLASSES && |doms| == CLASSES && blockSize == BlockSize(k) && virtBase == BasePage(k) * 4096
      requires Backed() && Stage(v, k, 0, k) && Reserve(v.mmu) + BOOT_FRAMES <= DIRECT_FRAMES
      requires forall j | 0 <= j < k :: RecordOk(j, doms[j], v)
      modifies this`doms, this`v, paging, paging.frames, paging.frames.bitmap
      ensures Backed() && |old(v).doms| == CLASSES && |old(v).mmu.dirs| > 0 && v == InitDomain(old(v), k)
      ensures |doms| == CLASSES && Stage(v, k, PREMAP, k + 1) && v.mmu.dirs[0] == old(v).mmu.dirs[0]
      ensures forall j | 0 <= j <= k :: RecordOk(j, doms[j], v)
    {
      hide Rep, Inv, Held, NextFrame, NewDir, AddPage, BlockSize, Carve, Stage, CanCarve;
      StageShape(v, k, 0, k);
      StageDir(v, k, 0, k);
      ghost var u := AddDir(v);
      var dir := NewDirectory();
      StageShape(u, k, 0, k + 1);
      FreshClass(u, k);
      BlockFacts(k);
      doms := doms[k := DomainRecord(dir, blockSize, 4096 / blockSize, 0, virtBase)];
      Premap(k, u);
    }

    /** The premapping loop. */
    method Premap(k: nat, ghost u: View)
      requires k < CLASSES && |doms| == CLASSES && Backed() && v == u && |u.mmu.dirs| > 0
      requires Stage(u, k, 0, k + 1) && Reserve(u.mmu) + BOOT_FRAMES <= DIRECT_FRAMES
      requires forall j | 0 <= j <= k :: RecordOk(j, doms[j], v)
      modifies this`doms, this`v, paging, paging.frames, paging.frames.bitmap
      ensures Backed() && |u.doms| == CLASSES && v == CarveMany(u, k, PREMAP)
      ensures |doms| == CLASSES && Stage(v, k, PREMAP, k + 1) && v.mmu.dirs == u.mmu.dirs
      ensures forall j | 0 <= j <= k :: RecordOk(j, doms[j], v)
    {
      hide Rep, Inv, Held, AddPage, BlockSize, BlocksPerPage, Stage, CanCarve, Carve;
      StageShape(u, k, 0, k + 1);
      for p := 0 to PREMAP
        invariant Backed() && |doms| == CLASSES && v == CarveMany(u, k, p) && v.mmu.dirs == u.mmu.dirs
        invariant Stage(v, k, p, k + 1)
        invariant forall j | 0 <= j <= k :: RecordOk(j, doms[j], v)
      {
        StageFits(v, k, p);
        StageCarve(v, k, p);
        ghost var v0, was := v, doms;
        assert RecordOk(k, doms[k], v);
        GrowDomain(k, doms[k].nextFreeBlock);
        CarveShapes(v0, k);
        forall j | 0 <= j <= k ensures RecordOk(j, doms[j], v) {
          if j != k { assert RecordOk(j, was[j], v0); }
        }
      }
    }

    /** init_large_domain. */
    method InitLargeDomain(ghost e: View)
      requires Booting(CLASSES, e)
      modifies this`large, this`v, paging, paging.frames, paging.frames.bitmap
      ensures |e.doms| == CLASSES && |e.mmu.dirs| > 0
      ensures Backed() && v == AddDir(InitDomains(e, CLASSES)) && RecordsOk(doms, large, v)
    {
      hide Rep, Inv, Held, NextFrame, NewDir, BlockSize, BlocksPerPage, InitDomains;
      ghost var u := v;
      StageDir(v, CLASSES - 1, PREMAP, CLASSES);
      var dir := NewDirectory();
      large := LargeRecord(dir, 0x8000_0000, 0);
      forall j | 0 <= j < CLASSES ensures RecordOk(j, doms[j], v) { assert RecordOk(j, doms[j], u); }
    }

    /** init_all_heaps. */
    method InitAllHeaps()
      requires paging.Valid() && paging.m == BootMmu(paging.kdir) && |doms| == CLASSES
      requires paging.kdir + KERNEL_TABLES + BOOT_FRAMES <= DIRECT_FRAMES
      modifies this, paging, paging.frames, paging.frames.bitmap
      ensures Valid() && v == BootView(paging.kdir)
    {
      hide Rep, Inv, Held, Ready, Booting, AddDir;
      ghost var e := EmptyView(paging.kdir);
      v := e;
      StartBooting(e);
      InitHeapDomain(0, 64, 0x1000_0000, e);
      InitHeapDomain(1, 128, 0x2000_0000, e);
      InitHeapDomain(2, 256, 0x3000_0000, e);
      InitHeapDomain(3, 512, 0x4000_0000, e);
      InitHeapDomain(4, 1024, 0x5000_0000, e);
      InitHeapDomain(5, 2048, 0x6000_0000, e);
      InitHeapDomain(6, 4096, 0x7000_0000, e);
      BootReady(paging.kdir);
      InitLargeDomain(e);
    }

    lemma StartBooting(e: View)
      requires paging.Valid() && paging.m == BootMmu(paging.kdir) && |doms| == CLASSES
      requires paging.kdir + KERNEL_TABLES + BOOT_FRAMES <= DIRECT_FRAMES && e == EmptyView(paging.kdir) && v == e
      ensures Booting(0, e)
    {
      hide Rep, Inv, Held, Stage, RecordOk;
      EmptyStage(paging.mem, paging.kdir);
    }
  }

  /**
   * The whole story: from any contents of memory, boot the kernel, set up the heaps and let a
   * client make any legal sequence of calls. The machine ends in the abstract run's state.
   * (BootReady proves that BootView is ready; EnabledRun needs it to be stated.)
   */
  method BootAndRun(kdir: nat, ram: Memory, ops: seq<Op>) returns (heap: Heap)
    requires kdir + KERNEL_TABLES + BOOT_FRAMES <= DIRECT_FRAMES && WfMemory(ram)
    requires Ready(BootView(kdir)) && EnabledRun(BootView(kdir), ops)
    ensures heap.Valid() && heap.paging.kdir == kdir && heap.v == Run(BootView(kdir), ops)
  {
    hide Rep, Ready, BootView, EnabledRun;
    var paging := new Paging(kdir, ram);
    paging.Boot();
    heap := new Heap(paging);
    heap.InitAllHeaps();
    heap.RunAll(ops);
  }

  /** The operands of a legal call are machine words. */
  lemma OpWords(v: View, op: Op)
    requires |v.doms| == CLASSES && |v.mmu.dirs| > 0 && Ready(v) && Enabled(v, op)
    ensures op.Malloc? ==> op.size < 0x1_0000_0000
    ensures op.Free? ==> op.ptr < 0x1_0000_0000
    ensures op.Write? ==> op.va < 0x1_0000_0000
  {
    hide Inv, CanCarve, CanBig, LiveWord, Ready;
    ReadyFacts(v);
    if op.Write? { LivePageMapped(v, op.va); }
    if op.Free? && RouteOf(op.ptr) == Some(7) { InvRegion(v, op.ptr / 4096); }
  }

  /** A class whose directory has just been made. */
  lemma FreshClass(u: View, k: nat)
    requires k < CLASSES && Stage(u, k, 0, k + 1)
    ensures u.doms[k].free == [] && u.doms[k].carved == 0
  {
    hide DomsOk, BigOk, DirsOk, PagesOk, TablesOk, CountsOk, DataOk, Good, Partition;
    InvDom(u, k);
    assert |u.doms[k].free| == 0;
  }

  lemma CarveShapes(v: View, k: nat)
    requires |v.doms| == CLASSES && k < CLASSES && |v.mmu.dirs| > 0
    ensures Carve(v, k).mmu.dirs == v.mmu.dirs && |Carve(v, k).doms| == CLASSES
    ensures forall j | 0 <= j < CLASSES && j != k :: Carve(v, k).doms[j] == v.doms[j]
  {
    hide AddPage, PageBlocks;
    CarveDirsStay(v, k);
  }

  lemma EmptyStage(mem: Memory, kdir: nat)
    requires kdir + KERNEL_TABLES <= DIRECT_FRAMES && Rep(mem, BootMmu(kdir))
    ensures Stage(EmptyView(kdir), 0, 0, 0) && Held(mem, EmptyView(kdir)) && EmptyView(kdir).mmu.dirs == [kdir]
    ensures Inv(EmptyView(kdir))
  {
    hide Rep, Inv;
    EmptyInv(kdir);
  }

  lemma DomainsStep(e: View, k: nat)
    requires k < CLASSES && |e.doms| == CLASSES && |e.mmu.dirs| > 0
    ensures InitDomains(e, k + 1) == InitDomain(InitDomains(e, k), k)
  {
    hide InitDomain;
  }

  lemma SameRecords(doms: seq<DomainRecord>, large: LargeRecord, v: View, v': View)
    requires |v.doms| == CLASSES && RecordsOk(doms, large, v) && v'.mmu == v.mmu && v'.doms == v.doms && v'.big == v.big
    ensures RecordsOk(doms, large, v')
  {
    hide BlockSize, BlocksPerPage;
    forall k | 0 <= k < CLASSES ensures RecordOk(k, doms[k], v') { assert RecordOk(k, doms[k], v); }
  }

  lemma MoreDirs(doms: seq<DomainRecord>, large: LargeRecord, v: View, v': View)
    requires |v.doms| == CLASSES && RecordsOk(doms, large, v) && v'.doms == v.doms && v'.big == v.big
    requires |v'.mmu.dirs| >= |v.mmu.dirs| && forall d | 0 <= d < |v.mmu.dirs| :: v'.mmu.dirs[d] == v.mmu.dirs[d]
    ensures RecordsOk(doms, large, v')
  {
    hide BlockSize, BlocksPerPage;
    forall k | 0 <= k < CLASSES ensures RecordOk(k, doms[k], v') { assert RecordOk(k, doms[k], v); }
  }

  /** A new directory changes no heap word. */
  lemma DirAddedHeld(mem0: Memory, v: View, mem: Memory)
    requires |v.doms| == CLASSES && Rep(mem0, v.mmu) && Held(mem0, v) && Rep(mem, NewDir(v.mmu))
        && PageFramesKept(v.mmu, mem0, mem)
    ensures Held(mem, AddDir(v))
  {
    hide Rep, Held, Same, Tracked, HeapWord;
    SameMemory(mem0, v);
    TablesKeepSame(mem0, v.mmu, mem0, v.mmu, mem, NewDir(v.mmu), v);
    SameHeld(mem0, mem, v, AddDir(v));
  }

  lemma EmptyChain(mem: Memory, m: Mmu, k: nat, p: nat)
    requires Rep(mem, m) && k < CLASSES
    ensures Chained(mem, m, PageBlocks(k, p), 0)
  {
  }

  lemma ChainGrows(mem: Memory, m: Mmu, s: seq<nat>, i: nat)
    requires Rep(mem, m) && i + 1 < |s| && Chained(mem, m, s, i) && Holds(mem, m, s[i], s[i + 1])
    ensures Chained(mem, m, s, i + 1)
  {
    hide Rep, Holds;
  }

  /** Block addresses computed by the loop. */
  lemma LinkAddress(k: nat, p: nat, i: nat)
    requires k < CLASSES && i < BlocksPerPage(k)
    ensures p * 4096 + i * BlockSize(k) == PageBlocks(k, p)[i] && i * BlockSize(k) + BlockSize(k) <= 4096
    ensures i + 1 < BlocksPerPage(k) ==> p * 4096 + (i + 1) * BlockSize(k) == PageBlocks(k, p)[i + 1]
    ensures (i + 1) * BlockSize(k) <= 4096 && 0 <= i * BlockSize(k) <= 4096
  {
    PageBlockIn(k, p, i);
    BlockFacts(k);
    OrderedMultiples(i, BlocksPerPage(k), BlockSize(k));
    hide BlockSize, BlocksPerPage;
    assert (i + 1) * BlockSize(k) == i * BlockSize(k) + BlockSize(k);
  }

  lemma CarvePre(v: View, k: nat)
    requires Inv(v) && k < CLASSES && CanCarve(v, k)
    ensures |v.doms| == CLASSES && |v.mmu.dirs| > k + 1 && Good(v.mmu)
    ensures var p := BasePage(k) + v.doms[k].carved;
            && Addable(v.mmu, p) && Band(p) == k + 1 && v.mmu.dirs[k + 1] < DIRECT_FRAMES && p < LARGE_PAGE
            && !PageMapped(v.mmu, p) && PageMapped(AddPage(v.mmu, p), p) && AddPage(v.mmu, p).dirs == v.mmu.dirs
            && First(CarvePage(k, v.doms[k]).free) == p * 4096 && CarvePage(k, v.doms[k]).carved == v.doms[k].carved + 1
  {
    hide DomsOk, BigOk, DirsOk, PagesOk, TablesOk, CountsOk, DataOk, PageMapped, KeepsPages, Balanced, WfPdes,
         WfPtes, AddPage;
    var p := BasePage(k) + v.doms[k].carved;
    CarveAddable(v, k);
    AddPageEffect(v.mmu, p);
    DirFrame(v.mmu, k + 1);
    LinkAddress(k, p, 0);
  }

  /** Mapping a new page leaves every tracked word where it was. */
  lemma AddedSame(mem0: Memory, v: View, mem: Memory, k: nat)
    requires |v.doms| == CLASSES && k < CLASSES && Inv(v) && CanCarve(v, k) && |v.mmu.dirs| > 0
    requires Rep(mem0, v.mmu) && Rep(mem, AddPage(v.mmu, BasePage(k) + v.doms[k].carved))
    requires PageFramesKept(v.mmu, mem0, mem)
    ensures Same(mem0, v.mmu, mem, AddPage(v.mmu, BasePage(k) + v.doms[k].carved), v)
  {
    hide Rep, Inv, Same, AddPage, KeepsPages, Good, Addable, Tracked, CanCarve;
    var p := BasePage(k) + v.doms[k].carved;
    CarvePre(v, k);
    AddPageEffect(v.mmu, p);
    SameMemory(mem0, v);
    TablesKeepSame(mem0, v.mmu, mem0, v.mmu, mem, AddPage(v.mmu, p), v);
  }

  /** The list head is null exactly when nothing is free. */
  lemma HeadZero(v: View, k: nat)
    requires Ready(v) && k < CLASSES
    ensures |v.doms| == CLASSES && |v.mmu.dirs| > 8 && Inv(v)
    ensures First(v.doms[k].free) == 0 <==> v.doms[k].free == []
  {
    hide Inv;
    ReadyFacts(v);
    if v.doms[k].free != [] {
      InvDoms(v);
      FreeBlockSmall(v, k, v.doms[k].free[0]);
    }
  }

  lemma InvDoms(v: View)
    requires Inv(v)
    ensures DomsOk(v)
  {
    hide Good, DomsOk, BigOk, DirsOk, PagesOk, TablesOk, CountsOk, DataOk;
  }

  lemma RecordsFacts(doms: seq<DomainRecord>, large: LargeRecord, v: View, k: nat)
    requires |v.doms| == CLASSES && k < CLASSES && RecordsOk(doms, large, v)
    ensures |doms| == CLASSES && RecordOk(k, doms[k], v) && doms[k].nextFreeBlock == First(v.doms[k].free)
  {
  }

  lemma CarvedFront(v: View, k: nat)
    requires |v.doms| == CLASSES && k < CLASSES && |v.mmu.dirs| > 0
    ensures |Carve(v, k).doms| == CLASSES && Carve(v, k).doms[k].free != []
  {
    hide AddPage;
  }

  /** An operation on class k leaves the other records right. */
  lemma RecordsStay(was: seq<DomainRecord>, doms: seq<DomainRecord>, large: LargeRecord, v: View, v': View, k: nat)
    requires |v.doms| == CLASSES && |v'.doms| == CLASSES && k < CLASSES && RecordsOk(was, large, v)
    requires v'.mmu.dirs == v.mmu.dirs && v'.big == v.big && |doms| == CLASSES && RecordOk(k, doms[k], v')
    requires forall j | 0 <= j < CLASSES && j != k :: v'.doms[j] == v.doms[j] && doms[j] == was[j]
    ensures RecordsOk(doms, large, v')
  {
    hide BlockSize, BlocksPerPage;
    forall j | 0 <= j < CLASSES ensures RecordOk(j, doms[j], v') {
      if j != k { assert RecordOk(j, was[j], v); }
    }
  }

  lemma AllocKeeps(v: View, k: nat)
    requires |v.doms| == CLASSES && k < CLASSES && |v.mmu.dirs| > 0
    ensures var v' := DomAlloc(v, k);
            && v'.mmu.dirs == v.mmu.dirs && v'.big == v.big && |v'.doms| == CLASSES
            && forall j | 0 <= j < CLASSES && j != k :: v'.doms[j] == v.doms[j]
  {
    hide AddPage, PageBlocks;
    AddPageGrows(v.mmu, BasePage(k) + v.doms[k].carved);
  }

  lemma FreeKeeps(v: View, k: nat, ptr: nat, r: DomainRecord)
    requires |v.doms| == CLASSES && k < CLASSES && RecordOk(k, r, v) && ptr < 0x1_0000_0000
    ensures var v' := DomFree(v, k, ptr);
            && v'.mmu.dirs == v.mmu.dirs && v'.big == v.big && |v'.doms| == CLASSES && v'.mmu == v.mmu
            && RecordOk(k, r.(nextFreeBlock := ptr), v')
            && forall j | 0 <= j < CLASSES && j != k :: v'.doms[j] == v.doms[j]
  {
    hide Forget, BlockSize, BlocksPerPage;
  }

  /** How the large record changes when a region of n pages is chosen. */
  predicate LargeMoved(was: LargeRecord, r: LargeRecord, v: View, n: nat) {
    && r.pageDirectory == was.pageDirectory
    && r.nextVirtAddr == BigTake(v.big, n).cursor * 4096 && r.nextFreeVirt == SlotAddress(BigTake(v.big, n).slots)
  }

  lemma LargeFacts(mem: Memory, v: View, n: nat)
    requires |v.doms| == CLASSES && Rep(mem, v.mmu) && Ready(v) && Held(mem, v) && CanBig(v, n)
    ensures |v.mmu.dirs| > 8 && v.mmu.dirs[8] < DIRECT_FRAMES && Balanced(v.mmu)
    ensures LARGE_PAGE <= BigStart(v.big, n) && BigStart(v.big, n) + n <= KERNEL_PAGE
    ensures SlotAddress(v.big.slots) == 0 <==> v.big.slots == []
    ensures v.big.slots != [] ==>
              && LARGE_PAGE <= v.big.slots[0].start < KERNEL_PAGE && PageMapped(v.mmu, v.big.slots[0].start)
              && Holds(mem, v.mmu, v.big.slots[0].start * 4096, SlotAddress(v.big.slots[1..]))
              && Holds(mem, v.mmu, v.big.slots[0].start * 4096 + 4, v.big.slots[0].count)
    ensures !Reuses(v.big, n) ==>
              && Cleared(v.mmu, v.big, n) == v.mmu && Same(mem, v.mmu, mem, v.mmu, Unslotted(v, n))
              && v.big.cursor + n <= KERNEL_PAGE
    ensures Reuses(v.big, n) ==>
              && PageMapped(v.mmu, BigStart(v.big, n))
              && Cleared(v.mmu, v.big, n) == DropPage(v.mmu, BigStart(v.big, n))
  {
    hide Rep, Inv, Same, BigOk, CanTake, ListsHeld, Headers, DataHeld, Holds, SlotHolds, HighWater, Good, DropPage;
    ReadyFacts(v);
    InvBig(v);
    CanTakeBig(v, n);
    TakeFacts(v.big, n);
    GoodParts(v.mmu);
    DirFrame(v.mmu, 8);
    SameMemory(mem, Unslotted(v, n));
    if v.big.slots != [] { FirstSlot(mem, v); }
    if Reuses(v.big, n) { ClearedEffect(v, n); }
    if !Reuses(v.big, n) { FreshRoom(v.big, n); }
  }

  lemma FreshRoom(b: Big, n: nat)
    requires CanTake(b, n) && !Reuses(b, n)
    ensures b.cursor + n <= KERNEL_PAGE
  {
  }

  lemma GoodParts(m: Mmu)
    requires Good(m)
    ensures Balanced(m) && WfFrames(m) && Wf(m)
  {
    hide Balanced, WfFrames, WfPdes, WfPtes;
  }

  lemma FirstSlot(mem: Memory, v: View)
    requires |v.doms| == CLASSES && Rep(mem, v.mmu) && Inv(v) && v.big.slots != []
        && SlotsLinked(mem, v.mmu, v.big.slots)
    ensures LARGE_PAGE <= v.big.slots[0].start < KERNEL_PAGE
    ensures Holds(mem, v.mmu, v.big.slots[0].start * 4096, SlotAddress(v.big.slots[1..]))
    ensures Holds(mem, v.mmu, v.big.slots[0].start * 4096 + 4, v.big.slots[0].count)
    ensures PageMapped(v.mmu, v.big.slots[0].start)
  {
    hide Rep, Inv, HeapWord;
    InvBig(v);
    assert Within(v.big, v.big.slots[0].start, v.big.slots[0].count);
    assert SlotHolds(mem, v.mmu, v.big.slots, 0);
  }

  /** Unmapping the kept page of a reused slot leaves the rest of the heap's words where they were. */
  lemma SlotDropped(mem0: Memory, v: View, mem: Memory, n: nat)
    requires |v.doms| == CLASSES && Rep(mem0, v.mmu) && Inv(v) && CanBig(v, n) && Reuses(v.big, n)
    requires Rep(mem, Cleared(v.mmu, v.big, n)) && PageFramesKept(v.mmu, mem0, mem)
    ensures Same(mem0, v.mmu, mem, Cleared(v.mmu, v.big, n), Unslotted(v, n))
  {
    hide Rep, Inv, Same, CanTake, HeapWord, CanBig, Tracked, KeepsPages, Good, Cleared;
    var m1, u := Cleared(v.mmu, v.big, n), Unslotted(v, n);
    CanTakeBig(v, n);
    ClearedEffect(v, n);
    SameMemory(mem0, u);
    forall a: nat, w: nat | Tracked(u, a) && Holds(mem0, v.mmu, a, w) ensures PageMapped(m1, a / 4096) {
      UnslottedClear(v, n, a);
      InvPage(v, a / 4096);
    }
    TablesKeepSame(mem0, v.mmu, mem0, v.mmu, mem, m1, u);
  }

  lemma InvPage(v: View, p: nat)
    requires Inv(v)
    ensures |v.doms| == CLASSES && (PageMapped(v.mmu, p) <==> Owned(v, p))
  {
    hide Good, DomsOk, BigOk, DirsOk, PagesOk, TablesOk, CountsOk, DataOk, PageMapped, Owned;
    PageKnown(v, p);
  }

  lemma RunPage(m: Mmu, start: nat, n: nat, i: nat)
    requires Good(m) && AddableRun(m, start, n) && i < n && LARGE_PAGE <= start
    ensures var r := AddPages(m, start, i);
            && Good(r) && Addable(r, start + i) && r.dirs == m.dirs
            && AddPages(m, start, i + 1) == AddPage(r, start + i)
            && Band(start + i) == 8 && |m.dirs| > 8 && m.dirs[8] < DIRECT_FRAMES && start + i < KERNEL_PAGE
  {
    hide Good, AddPage, InDirect, AddPages;
    NextInRun(m, start, n, i);
    var r := AddPages(m, start, i);
    GoodParts(r);
    DirFrame(r, 8);
  }

  /** One more page mapped in the run. */
  lemma PageAddedSame(mem0: Memory, u: View, mem: Memory, m: Mmu, mem': Memory, p: nat)
    requires |u.doms| == CLASSES && Rep(mem0, u.mmu) && Rep(mem, m) && Good(m) && Addable(m, p) && |m.dirs| > 0
    requires Same(mem0, u.mmu, mem, m, u) && Rep(mem', AddPage(m, p)) && PageFramesKept(m, mem, mem')
    ensures Same(mem0, u.mmu, mem', AddPage(m, p), u)
  {
    hide Rep, Good, Addable, AddPage, KeepsPages, Tracked, HeapWord;
    AddPageEffect(m, p);
    forall a: nat, w: nat | Tracked(u, a) && Holds(mem0, u.mmu, a, w) ensures PageMapped(AddPage(m, p), a / 4096) {
      assert Holds(mem, m, a, w);
    }
    TablesKeepSame(mem0, u.mmu, mem, m, mem', AddPage(m, p), u);
  }

  lemma RegionFacts(v: View, n: nat)
    requires |v.doms| == CLASSES && Inv(v) && CanBig(v, n)
    ensures |v.mmu.dirs| > 8 && Cleared(v.mmu, v.big, n).dirs == v.mmu.dirs && n >= 1
    ensures LARGE_PAGE <= BigStart(v.big, n) && BigStart(v.big, n) + n <= KERNEL_PAGE
    ensures Unslotted(v, n).mmu == v.mmu && Unslotted(v, n).doms == v.doms
  {
    hide Inv, BigOk, CanTake, CanBig, Cleared;
    InvBig(v);
    CanTakeBig(v, n);
    TakeFacts(v.big, n);
  }

  lemma RegionMapped(v: View, n: nat)
    requires |v.doms| == CLASSES && |v.mmu.dirs| > 8 && Inv(v) && CanBig(v, n)
    ensures var start := BigStart(v.big, n); PageMapped(BigAlloc(v, n).mmu, start) && n >= 1
  {
    hide Good, Inv, AddPages, Cleared, BigStart, BigTake, AddableRun, CanBig, CanTake, KeepsPages, PageMapped;
    CanTakeBig(v, n);
    BigRun(v, n);
    AddPagesEffect(Cleared(v.mmu, v.big, n), BigStart(v.big, n), n);
  }

  lemma HeaderWritten(mem0: Memory, v: View, mem: Memory, n: nat, m: Mmu, va: nat)
    requires |v.doms| == CLASSES && |v.mmu.dirs| > 8 && n < 0x1_0000_0000
    requires m == BigAlloc(v, n).mmu && va == BigStart(v.big, n) * 4096 && PageMapped(m, va / 4096)
    requires Rep(mem0, v.mmu) && Rep(mem, m) && Same(mem0, v.mmu, mem, m, Unslotted(v, n))
    requires Held(mem0, v) && Inv(v) && CanBig(v, n)
    ensures Rep(HeapPut(mem, m, va, n), m) && Held(HeapPut(mem, m, va, n), BigAlloc(v, n))
  {
    hide Rep, Inv, Held, Same, Holds, HeapPut, Tracked, AddPages, Cleared, BigStart, BigTake, CanBig, PageMapped;
    var u := Unslotted(v, n);
    CanTakeBig(v, n);
    if Tracked(u, va) { UnslottedClear(v, n, va); }
    PutKeepsSame(mem0, v.mmu, mem, m, u, va, n);
    PutHolds(mem, m, va, n);
    HeldBigAlloc(mem0, v, HeapPut(mem, m, va, n), n);
  }

  lemma LargeRecords(doms: seq<DomainRecord>, was: LargeRecord, large: LargeRecord, v: View, n: nat)
    requires |v.doms| == CLASSES && |v.mmu.dirs| > 8 && RecordsOk(doms, was, v) && LargeMoved(was, large, v, n)
    ensures RecordsOk(doms, large, BigAlloc(v, n))
  {
    hide BlockSize, BlocksPerPage, AddPages, Cleared, BigTake, SlotAddress;
    var v' := BigAlloc(v, n);
    forall k | 0 <= k < CLASSES ensures RecordOk(k, doms[k], v') { assert RecordOk(k, doms[k], v); }
  }

  /** n mapped pages of the large region. */
  ghost predicate Region(m: Mmu, start: nat, n: nat) {
    && Good(m) && n >= 1 && LARGE_PAGE <= start && start + n <= KERNEL_PAGE
    && forall q: nat | start <= q < start + n :: PageMapped(m, q)
  }

  /** No tracked word of u lies in those pages. */
  ghost predicate ClearOf(u: View, start: nat, n: nat)
    requires |u.doms| == CLASSES
  {
    forall a: nat | Tracked(u, a) :: !(start <= a / 4096 < start + n)
  }

  lemma RegionSize(m: Mmu, start: nat, n: nat)
    requires Region(m, start, n)
    ensures n >= 1
  {
  }

  lemma RegionReady(v: View, start: nat)
    requires |v.doms| == CLASSES && start in v.big.live && Inv(v)
    ensures Unregioned(v, start).doms == v.doms && Unregioned(v, start).mmu == v.mmu
    ensures Region(v.mmu, start, v.big.live[start]) && ClearOf(Unregioned(v, start), start, v.big.live[start])
  {
    hide Inv, Good, Tracked, Unregioned;
    RegionShape(v, start);
    InvRegion(v, start);
    forall a: nat | Tracked(Unregioned(v, start), a) ensures !(start <= a / 4096 < start + v.big.live[start]) {
      UnregionedClear(v, start, a);
    }
  }

  /** Page i of a region is still mapped when its turn comes. */
  lemma TailPage(m: Mmu, start: nat, n: nat, i: nat, r: Mmu)
    requires Region(m, start, n) && 1 <= i < n && r == DropPages(m, start + 1, i - 1)
    ensures Good(r) && Balanced(r) && PageMapped(r, start + i) && r.dirs == m.dirs
    ensures LARGE_PAGE <= start + i < KERNEL_PAGE && |r.dirs| > 8 && r.dirs[8] < DIRECT_FRAMES
  {
    hide Good, DropPage, KeepsPages, DropPages, PageMapped, Balanced, Wf, WfFrames;
    DropPagesEffect(m, start + 1, i - 1);
    GoodParts(r);
    LargeDir(r, start + i);
  }

  lemma DropOneMore(m: Mmu, p: nat, n: nat)
    requires n >= 1 && PageMapped(DropPages(m, p, n - 1), p + n - 1)
    ensures DropPages(m, p, n) == DropPage(DropPages(m, p, n - 1), p + n - 1)
  {
    hide DropPage;
  }

  lemma LargeDir(m: Mmu, p: nat)
    requires Good(m) && PageMapped(m, p) && LARGE_PAGE <= p
    ensures |m.dirs| > 8 && m.dirs[8] < DIRECT_FRAMES
  {
    hide WfFrames, RoleMet, TablePair, Counted;
    assert PagePair(m, 0, p);
    assert PteOk(m, 8, p);
    assert PdeOk(m, 8, p / 1024);
    DirFrame(m, 8);
  }

  lemma InvRegion(v: View, start: nat)
    requires Inv(v) && start in v.big.live
    ensures |v.doms| == CLASSES && Good(v.mmu) && v.big.live[start] >= 1 && LARGE_PAGE <= start
    ensures start + v.big.live[start] <= KERNEL_PAGE
    ensures forall q: nat | start <= q < start + v.big.live[start] :: PageMapped(v.mmu, q)
  {
    hide Good, DomsOk, DirsOk, PagesOk, TablesOk, CountsOk, DataOk, PageMapped;
    RegionPages(v, start);
  }

  lemma PageClear(u: View, start: nat, n: nat, p: nat)
    requires |u.doms| == CLASSES && ClearOf(u, start, n) && start <= p < start + n
    ensures forall a: nat | Tracked(u, a) :: a / 4096 != p
  {
    hide Tracked;
  }

  /** One more page of the freed region unmapped. */
  lemma PageDroppedSame(mem0: Memory, u: View, mem: Memory, r: Mmu, mem': Memory, r': Mmu, p: nat)
    requires |u.doms| == CLASSES && forall a: nat | Tracked(u, a) :: a / 4096 != p
    requires KeepsPages(r, r') && forall q: nat :: PageMapped(r', q) <==> q != p && PageMapped(r, q)
    requires Rep(mem0, u.mmu) && Rep(mem, r) && Rep(mem', r')
    requires Same(mem0, u.mmu, mem, r, u) && PageFramesKept(r, mem, mem')
    ensures Same(mem0, u.mmu, mem', r', u)
  {
    hide Rep, KeepsPages, Tracked, HeapWord;
    forall a: nat, w: nat | Tracked(u, a) && Holds(mem0, u.mmu, a, w) ensures PageMapped(r', a / 4096) {
      assert Holds(mem, r, a, w);
    }
    TablesKeepSame(mem0, u.mmu, mem, r, mem', r', u);
  }

  lemma RegionShape(v: View, start: nat)
    requires start in v.big.live
    ensures Unregioned(v, start).doms == v.doms && Unregioned(v, start).mmu == v.mmu
  {
  }

  lemma StartStays(v: View, start: nat)
    requires |v.doms| == CLASSES && Inv(v) && start in v.big.live && v.big.live[start] >= 1
    ensures PageMapped(BigFree(v, start).mmu, start) && LARGE_PAGE <= start < KERNEL_PAGE
    ensures v.big.live[start] < 0x1_0000_0000
  {
    hide Inv, Good, KeepsPages, DropPages, BigRelease, Forget;
    InvRegion(v, start);
    DropPagesEffect(v.mmu, start + 1, v.big.live[start] - 1);
  }

  lemma ChainWritten(mem0: Memory, v: View, mem: Memory, start: nat, m: Mmu, link: Word, n: Word, a: nat)
    requires |v.doms| == CLASSES && start in v.big.live && n == v.big.live[start] && n >= 1 && a == start * 4096
    requires m == BigFree(v, start).mmu && PageMapped(m, a / 4096) && PageMapped(m, (a + 4) / 4096)
    requires link == SlotAddress(v.big.slots) && ClearOf(Unregioned(v, start), start, n)
    requires Rep(mem0, v.mmu) && Rep(mem, m) && Same(mem0, v.mmu, mem, m, Unregioned(v, start)) && Held(mem0, v)
    ensures Rep(HeapPut(mem, m, a, link), m)
    ensures Rep(HeapPut(HeapPut(mem, m, a, link), m, a + 4, n), m)
    ensures Held(HeapPut(HeapPut(mem, m, a, link), m, a + 4, n), BigFree(v, start))
  {
    hide Rep, Held, Same, Holds, HeapPut, Tracked, BigFree, Unregioned, PageMapped, SlotAddress;
    var u := Unregioned(v, start);
    PageAddress(start);
    RegionShape(v, start);
    PutKeepsSame(mem0, v.mmu, mem, m, u, a, link);
    PutHolds(mem, m, a, link);
    var mem1 := HeapPut(mem, m, a, link);
    PutKeepsSame(mem0, v.mmu, mem1, m, u, a + 4, n);
    PutHolds(mem1, m, a + 4, n);
    PutKeepsHolds(mem1, m, a + 4, n, a, link);
    HeldBigFree(mem0, v, HeapPut(mem1, m, a + 4, n), start);
  }

  /** The header of a live region holds its page count. */
  lemma HeaderHeld(mem: Memory, v: View, start: nat)
    requires |v.doms| == CLASSES && Rep(mem, v.mmu) && Ready(v) && Held(mem, v) && start in v.big.live
    ensures Inv(v) && |v.mmu.dirs| > 8 && 1 <= v.big.live[start] < 0x1_0000_0000
    ensures PageMapped(v.mmu, start) && HeapWord(mem, v.mmu, start * 4096) == v.big.live[start]
  {
    hide Rep, Inv, ListsHeld, SlotsLinked, DataHeld, HighWater;
    InvRegion(v, start);
    assert Holds(mem, v.mmu, start * 4096, v.big.live[start]);
  }

  lemma BigFreeMmu(v: View, start: nat)
    requires start in v.big.live && v.big.live[start] >= 1
    ensures BigFree(v, start).mmu == DropPages(v.mmu, start + 1, v.big.live[start] - 1)
    ensures BigFree(v, start).doms == v.doms
  {
    hide DropPages, BigRelease, Forget;
  }

  lemma FreedRecords(doms: seq<DomainRecord>, was: LargeRecord, v: View, start: nat)
    requires |v.doms| == CLASSES && RecordsOk(doms, was, v) && start in v.big.live && v.big.live[start] >= 1
    requires start * 4096 < 0x1_0000_0000
    ensures RecordsOk(doms, was.(nextFreeVirt := start * 4096), BigFree(v, start))
  {
    hide BlockSize, BlocksPerPage, DropPages, Forget;
    var v' := BigFree(v, start);
    forall k | 0 <= k < CLASSES ensures RecordOk(k, doms[k], v') { assert RecordOk(k, doms[k], v); }
  }
}
