/**
 * What each call does, in addresses and sizes. The laws speak of `Step` and `MallocPointer` and of
 * the fields of the state, and give every size, base address and page count as a number, so that
 * they hold the functions that define the abstract heap to what the source does.
 */
module CallLaws {
  import opened Frames
  import opened PageTables
  import opened Spaces
  import opened Regions
  import opened HeapModel
  import opened SizeClasses
  import opened LargeRegions
  import opened HeapInv
  import opened LargeInv
  import opened HeapRuns
  import opened HeapTheorems
  import opened Translation

  /** Where the block or region of a live pointer ends. */
  function BlockEnd(v: View, ptr: nat): nat {
    if ptr < 0x2000_0000 then ptr + 64
    else if ptr < 0x3000_0000 then ptr + 128
    else if ptr < 0x4000_0000 then ptr + 256
    else if ptr < 0x5000_0000 then ptr + 512
    else if ptr < 0x6000_0000 then ptr + 1024
    else if ptr < 0x7000_0000 then ptr + 2048
    else if ptr < 0x8000_0000 then ptr + 4096
    else if ptr / 4096 in v.big.live then (ptr / 4096 + v.big.live[ptr / 4096]) * 4096
    else ptr
  }

  lemma SmallEnd(v: View, k: nat, ptr: nat)
    requires k < CLASSES && RouteOf(ptr) == Some(k)
    ensures BlockEnd(v, ptr) == ptr + BlockSize(k) && ptr / 0x1000_0000 - 1 == k
  {
  }

  // ---------------------------------------------------------------------------------------
  // kmalloc, small
  // ---------------------------------------------------------------------------------------

  /** The size class by address: the smallest that holds the request. */
  predicate InSmallestClass(size: nat, p: nat) {
    && (size <= 64 ==> 0x1000_0000 <= p < 0x2000_0000 && p % 64 == 0)
    && (64 < size <= 128 ==> 0x2000_0000 <= p < 0x3000_0000 && p % 128 == 0)
    && (128 < size <= 256 ==> 0x3000_0000 <= p < 0x4000_0000 && p % 256 == 0)
    && (256 < size <= 512 ==> 0x4000_0000 <= p < 0x5000_0000 && p % 512 == 0)
    && (512 < size <= 1024 ==> 0x5000_0000 <= p < 0x6000_0000 && p % 1024 == 0)
    && (1024 < size <= 2048 ==> 0x6000_0000 <= p < 0x7000_0000 && p % 2048 == 0)
    && (2048 < size <= 4096 ==> 0x7000_0000 <= p < 0x8000_0000 && p % 4096 == 0)
    && (4096 < size ==> 0x8000_0000 <= p < 0xC000_0000 && p % 4096 == 4)
  }

  /** A request goes to the smallest class that holds it, and above 4096 bytes to the large region. */
  lemma SmallestClass(v: View, size: nat)
    requires |v.doms| == CLASSES && |v.mmu.dirs| > 8 && Ready(v) && Enabled(v, Malloc(size))
    ensures InSmallestClass(size, MallocPointer(v, size))
  {
    hide Ready, Inv, Good, DomPointer, Refilled, IsBlock, CanCarve, CanBig, CanTake, BigStart, BigOk;
    ReadyFacts(v);
    if size <= 4096 {
      var k := ClassOf(size);
      DomPointerFresh(v, k);
      BlockRoute(k, Refilled(v, k).doms[k].carved, MallocPointer(v, size));
      IsBlockAligned(k, Refilled(v, k).doms[k].carved, MallocPointer(v, size));
    } else {
      LargeStart(v, PagesFor(size));
    }
  }

  lemma LargeStart(v: View, n: nat)
    requires Inv(v) && CanBig(v, n)
    ensures 0x8000_0000 <= BigPointer(v, n) < 0xC000_0000 && BigPointer(v, n) % 4096 == 4
    ensures BigPointer(v, n) / 4096 == BigStart(v.big, n)
  {
    hide Inv, CanTake, BigOk, BigStart, InDirect, BigAlloc;
    InvBig(v);
    CanTakeBig(v, n);
    TakeFacts(v.big, n);
    PageAddress(BigStart(v.big, n));
  }

  /** The class has handed out its newest free block. */
  predicate HandedOut(d: Dom, d': Dom, p: nat) {
    && d.free != [] && p == d.free[0] && d'.free == d.free[1..] && d'.carved == d.carved
    && p !in d.live && d'.live == d.live + {p}
  }

  /** It had none, mapped a page at `next`, handed out its first block and kept the others in address order. */
  predicate HandedOutFresh(d: Dom, d': Dom, p: nat, next: nat, b: nat) {
    && d.free == [] && p == next && d'.carved == d.carved + 1
    && (|d'.free| + 1) * b == 4096 && (forall i | 0 <= i < |d'.free| :: d'.free[i] == p + (i + 1) * b)
    && p !in d.live && d'.live == d.live + {p}
  }

  /**
   * A small request takes the newest free block. When there is none it maps one page at
   * next_virt_addr, returns its first block and leaves the others free in address order. Nothing
   * outside the class changes, and without a new page no page table.
   */
  predicate ServedSmall(v: View, v': View, p: nat) {
    var k := p / 0x1000_0000 - 1;
    && 0 <= k < 7 && |v.doms| == |v'.doms| == 7
    && v' == v.(mmu := v'.mmu, doms := v.doms[k := v'.doms[k]])
    && (if v.doms[k].free != [] then v'.mmu == v.mmu && HandedOut(v.doms[k], v'.doms[k], p)
        else BlockEnd(v, p) >= p
             && HandedOutFresh(v.doms[k], v'.doms[k], p,
                               (k + 1) * 0x1000_0000 + v.doms[k].carved * 4096, BlockEnd(v, p) - p))
  }

  lemma SmallRequest(v: View, size: nat)
    requires |v.doms| == CLASSES && |v.mmu.dirs| > 8 && Ready(v) && size <= 4096 && Enabled(v, Malloc(size))
    ensures ServedSmall(v, Step(v, Malloc(size)), MallocPointer(v, size))
  {
    hide Ready, Inv, Good, CanCarve, IsBlock, ServedSmall, ClassOf, DomAlloc, DomPointer, Refilled;
    ReadyFacts(v);
    var k := ClassOf(size);
    DomPointerFresh(v, k);
    BlockRoute(k, Refilled(v, k).doms[k].carved, DomPointer(v, k));
    AllocEffect(v, k);
  }

  lemma AllocEffect(v: View, k: nat)
    requires |v.doms| == CLASSES && |v.mmu.dirs| > 0 && k < CLASSES
    requires RouteOf(DomPointer(v, k)) == Some(k) && DomPointer(v, k) !in v.doms[k].live
    ensures ServedSmall(v, DomAlloc(v, k), DomPointer(v, k))
  {
    hide AddPage, BlockEnd, BlockSize, BlocksPerPage, PageBlocks, BasePage, RouteOf;
    SmallEnd(v, k, DomPointer(v, k));
    BlockFacts(k);
    if v.doms[k].free == [] { FirstPage(k, v.doms[k]); }
    assert v.doms[k := v.doms[k]] == v.doms;
  }

  /** Carving a page of an empty class. */
  lemma FirstPage(k: nat, d: Dom)
    requires k < CLASSES && d.free == []
    ensures var s, p := CarvePage(k, d).free, (k + 1) * 0x1000_0000 + d.carved * 4096;
            && |s| == BlocksPerPage(k) && s[0] == p
            && forall i | 0 <= i < |s| - 1 :: s[1..][i] == p + (i + 1) * BlockSize(k)
  {
    hide BlockSize, BlocksPerPage;
    assert CarvePage(k, d).free == PageBlocks(k, BasePage(k) + d.carved);
  }

  // ---------------------------------------------------------------------------------------
  // kmalloc, large
  // ---------------------------------------------------------------------------------------

  /**
   * A large request takes the least number of pages that hold it and its header. It gets the newest
   * free slot if that has as many pages, and otherwise the pages at the cursor. Nothing small changes.
   */
  predicate ServedLarge(v: View, v': View, p: nat, size: nat) {
    var start := p / 4096;
    && p == start * 4096 + 4 && start in v'.big.live && TookPages(v.big, v'.big, start, v'.big.live[start])
    && (v'.big.live[start] - 1) * 4096 < size + 4 <= v'.big.live[start] * 4096
    && v' == v.(mmu := v'.mmu, big := v'.big) && v'.mmu.dirs == v.mmu.dirs
  }

  predicate TookPages(b: Big, b': Big, start: nat, n: nat) {
    && n >= 1 && start !in b.live && b'.live == b.live[start := n]
    && (if b.slots != [] && b.slots[0].count >= n
        then start == b.slots[0].start && b'.slots == b.slots[1..] && b'.cursor == b.cursor
        else start == b.cursor && b'.slots == b.slots && b'.cursor == b.cursor + n)
  }

  lemma LargeRequest(v: View, size: nat)
    requires |v.doms| == CLASSES && |v.mmu.dirs| > 8 && Ready(v) && size > 4096 && Enabled(v, Malloc(size))
    ensures ServedLarge(v, Step(v, Malloc(size)), MallocPointer(v, size), size)
  {
    hide Ready, Inv, Good, CanBig, CanTake, BigOk, PagesFor, BigStart, BigAlloc, BigPointer, BigTake, ServedLarge;
    ReadyFacts(v);
    var n := PagesFor(size);
    CanTakeBig(v, n);
    InvBig(v);
    TakeFacts(v.big, n);
    LeastPages(size);
    LargeServed(v, n, size);
  }

  lemma LargeServed(v: View, n: nat, size: nat)
    requires |v.mmu.dirs| > 0 && n >= 1 && BigStart(v.big, n) !in v.big.live && (n - 1) * 4096 < size + 4 <= n * 4096
    requires BigStart(v.big, n) in BigTake(v.big, n).live && BigTake(v.big, n).live[BigStart(v.big, n)] == n
    ensures ServedLarge(v, BigAlloc(v, n), BigPointer(v, n), size)
  {
    hide BigStart, BigTake, TookPages, AddPages, Cleared;
    TakeEffect(v.big, n);
    PageAddress(BigStart(v.big, n));
  }

  lemma TakeEffect(b: Big, n: nat)
    requires n >= 1 && BigStart(b, n) !in b.live
    ensures TookPages(b, BigTake(b, n), BigStart(b, n), n)
  {
  }

  lemma LeastPages(size: nat)
    ensures PagesFor(size) >= 1 && (PagesFor(size) - 1) * 4096 < size + 4 <= PagesFor(size) * 4096
  {
  }

  /** The page count the 32-bit code computes is the least that holds the request and its header. */
  lemma LeastRounded(size: nat)
    requires size <= 0xFFFF_EFFC
    ensures (RoundedPages(size) - 1) * 4096 < size + 4 <= RoundedPages(size) * 4096
  {
    PageRounding(size);
    LeastPages(size);
  }

  // ---------------------------------------------------------------------------------------
  // What a request makes live
  // ---------------------------------------------------------------------------------------

  /** Exactly the bytes of the new block become live, at least as many as asked for, and exactly its pointer. */
  lemma RequestLive(v: View, size: nat, a: nat, q: nat)
    requires |v.doms| == CLASSES && |v.mmu.dirs| > 8 && Ready(v) && Enabled(v, Malloc(size))
    ensures var p, v' := MallocPointer(v, size), Step(v, Malloc(size));
            && |v'.doms| == CLASSES && p + size <= BlockEnd(v', p)
            && (p <= a < BlockEnd(v', p) ==> !LiveWord(v, a))
            && (LiveWord(v', a) <==> LiveWord(v, a) || p <= a < BlockEnd(v', p))
            && !LivePointer(v, p) && (LivePointer(v', q) <==> LivePointer(v, q) || q == p)
  {
    hide Ready, Inv, Good, LiveWord, LivePointer, MallocPointer, Step, Enabled, BlockEnd;
    if size <= 4096 { SmallLiveChange(v, size, a, q); } else { LargeLiveChange(v, size, a, q); }
  }

  /** The addresses of one block are those whose block it is. */
  lemma InBlockOf(k: nat, p: nat, a: nat)
    requires k < CLASSES && p % BlockSize(k) == 0
    ensures BlockOf(k, a) == p <==> p <= a < p + BlockSize(k)
  {
    hide BlockSize, BlockOf;
    BlockOfAligned(k, a);
    if p <= a < p + BlockSize(k) { BlockOfInside(k, p, a); }
  }

  lemma SmallLiveChange(v: View, size: nat, a: nat, q: nat)
    requires |v.doms| == CLASSES && |v.mmu.dirs| > 8 && Ready(v) && Enabled(v, Malloc(size)) && size <= 4096
    ensures var p, v' := MallocPointer(v, size), Step(v, Malloc(size));
            && |v'.doms| == CLASSES && p + size <= BlockEnd(v', p)
            && (p <= a < BlockEnd(v', p) ==> !LiveWord(v, a))
            && (LiveWord(v', a) <==> LiveWord(v, a) || p <= a < BlockEnd(v', p))
            && !LivePointer(v, p) && (LivePointer(v', q) <==> LivePointer(v, q) || q == p)
  {
    hide Ready, Inv, Good, CanCarve, BlockEnd, BlockSize, ClassOf, RouteOf, DomPointer, DomAlloc, LiveWord, LivePointer;
    ReadyFacts(v);
    AllocLive(v, ClassOf(size), a, q);
    SmallEnd(Step(v, Malloc(size)), ClassOf(size), MallocPointer(v, size));
    ClassFits(size);
  }

  lemma AllocLive(v: View, k: nat, a: nat, q: nat)
    requires |v.doms| == CLASSES && |v.mmu.dirs| > 0 && k < CLASSES
    requires Inv(v) && (v.doms[k].free != [] || CanCarve(v, k))
    ensures var p, v' := DomPointer(v, k), DomAlloc(v, k);
            && |v'.doms| == CLASSES && RouteOf(p) == Some(k)
            && (p <= a < p + BlockSize(k) ==> !LiveWord(v, a))
            && (LiveWord(v', a) <==> LiveWord(v, a) || p <= a < p + BlockSize(k))
            && !LivePointer(v, p) && (LivePointer(v', q) <==> LivePointer(v, q) || q == p)
  {
    hide Inv, CanCarve, IsBlock, BlockSize, RouteOf, DomPointer, DomAlloc, Refilled, LiveWord, LivePointer;
    var p := DomPointer(v, k);
    DomPointerFresh(v, k);
    BlockRoute(k, Refilled(v, k).doms[k].carved, p);
    IsBlockAligned(k, Refilled(v, k).doms[k].carved, p);
    BlockInBand(k, Refilled(v, k).doms[k].carved, p);
    AllocOthers(v, k);
    BlockAdded(v, DomAlloc(v, k), k, p, a, q);
  }

  lemma BlockInBand(k: nat, carved: nat, p: nat)
    requires k < CLASSES && carved <= BAND_PAGES && IsBlock(k, carved, p)
    ensures (k + 1) * 0x1000_0000 <= p && p + BlockSize(k) <= (k + 2) * 0x1000_0000
  {
    hide BlockSize, BlocksPerPage;
    BlockIndex(k, p);
    assert p / 4096 < (k + 2) * BAND_PAGES;
  }

  lemma AllocOthers(v: View, k: nat)
    requires |v.doms| == CLASSES && |v.mmu.dirs| > 0 && k < CLASSES
    ensures var v' := DomAlloc(v, k);
            && |v'.doms| == CLASSES && v'.big == v.big
            && forall j | 0 <= j < CLASSES && j != k :: v'.doms[j] == v.doms[j]
  {
    hide AddPage, PageBlocks;
  }

  /** One more live block in class k. */
  lemma BlockAdded(v: View, v': View, k: nat, p: nat, a: nat, q: nat)
    requires |v.doms| == |v'.doms| == CLASSES && k < CLASSES && v'.big == v.big
    requires forall j | 0 <= j < CLASSES && j != k :: v'.doms[j] == v.doms[j]
    requires p !in v.doms[k].live && v'.doms[k].live == v.doms[k].live + {p} && p % BlockSize(k) == 0
    requires RouteOf(p) == Some(k)
    requires (k + 1) * 0x1000_0000 <= p && p + BlockSize(k) <= (k + 2) * 0x1000_0000
    ensures p <= a < p + BlockSize(k) ==> !LiveWord(v, a)
    ensures LiveWord(v', a) <==> LiveWord(v, a) || p <= a < p + BlockSize(k)
    ensures !LivePointer(v, p) && (LivePointer(v', q) <==> LivePointer(v, q) || q == p)
  {
    hide BlockSize, BlockOf, LiveLarge;
    InBlockOf(k, p, a);
  }

  lemma LargeLiveChange(v: View, size: nat, a: nat, q: nat)
    requires |v.doms| == CLASSES && |v.mmu.dirs| > 8 && Ready(v) && Enabled(v, Malloc(size)) && size > 4096
    ensures var p, v' := MallocPointer(v, size), Step(v, Malloc(size));
            && |v'.doms| == CLASSES && p + size <= BlockEnd(v', p)
            && (p <= a < BlockEnd(v', p) ==> !LiveWord(v, a))
            && (LiveWord(v', a) <==> LiveWord(v, a) || p <= a < BlockEnd(v', p))
            && !LivePointer(v, p) && (LivePointer(v', q) <==> LivePointer(v, q) || q == p)
  {
    hide Ready, Inv, Good, CanBig, CanTake, Cleared, AddPages, BigOk, BigTake, BigStart, PagesFor, LiveLarge;
    ReadyFacts(v);
    InvBig(v);
    var n := PagesFor(size);
    CanTakeBig(v, n);
    LargeStart(v, n);
    LeastPages(size);
    var start, v' := BigStart(v.big, n), BigAlloc(v, n);
    TakeFacts(v.big, n);
    TakeEffect(v.big, n);
    LargeRange(v.big, start, n, v'.big.live, a);
    if start <= a / 4096 < start + n {
      TakeFree(v.big, n, a / 4096);
      NotLiveLarge(v.big, a);
    }
    PagesAndBytes(start, n, a);
    SamePointer(start, q);
  }

  lemma LargeRange(b: Big, start: nat, n: nat, m: map<nat, nat>, a: nat)
    requires start !in b.live && m == b.live[start := n]
    ensures forall b': Big | b'.live == m ::
              LiveLarge(b', a) <==> LiveLarge(b, a) || start * 4096 + 4 <= a < (start + n) * 4096
  {
    if LiveLarge(b, a) {
      var s :| s in b.live && s * 4096 + 4 <= a < (s + b.live[s]) * 4096;
      assert s in m && m[s] == b.live[s];
    }
    if start * 4096 + 4 <= a < (start + n) * 4096 { assert start in m && m[start] == n; }
  }

  lemma PagesAndBytes(start: nat, n: nat, a: nat)
    ensures start * 4096 <= a < (start + n) * 4096 <==> start <= a / 4096 < start + n
  {
  }

  lemma SamePointer(start: nat, q: nat)
    ensures q % 4096 == 4 && q / 4096 == start <==> q == start * 4096 + 4
  {
  }

  // ---------------------------------------------------------------------------------------
  // kfree
  // ---------------------------------------------------------------------------------------

  /** What clients wrote is kept outside [from, to). */
  ghost predicate KeptOutside(v: View, v': View, from: nat, to: nat) {
    forall a :: (a in v'.data <==> a in v.data && !(from <= a < to)) && (a in v'.data ==> v'.data[a] == v.data[a])
  }

  /**
   * A free below 0x10000000 does nothing. A small free puts the block in front of the free list of
   * the class its address names. A large free puts the region, with its page count, in front of the
   * free slots. Nothing else changes but the page tables of the region and the data in the block.
   */
  ghost predicate Freed(v: View, v': View, ptr: nat) {
    if ptr < 0x1000_0000 then v' == v
    else if ptr < 0x8000_0000 then
      var k := ptr / 0x1000_0000 - 1;
      && |v.doms| == 7 && KeptOutside(v, v', ptr, BlockEnd(v, ptr))
      && var d := v.doms[k];
         v' == v.(data := v'.data,
                  doms := v.doms[k := Dom(d.carved, [ptr] + d.free, d.live - {ptr}, d.peak)])
    else
      var start := ptr / 4096;
      && start in v.big.live && KeptOutside(v, v', start * 4096, BlockEnd(v, ptr))
      && v' == v.(mmu := v'.mmu, data := v'.data,
                  big := Big(v.big.cursor, [Slot(start, v.big.live[start])] + v.big.slots, v.big.live - {start}))
      && |v'.mmu.own| == |v.mmu.own| - v.big.live[start] + 1 && v'.mmu.pdes == v.mmu.pdes && v'.mmu.dirs == v.mmu.dirs
      && forall q: nat :: PageMapped(v'.mmu, q) <==> PageMapped(v.mmu, q) && !(start < q < start + v.big.live[start])
  }

  lemma FreeCall(v: View, ptr: nat)
    requires |v.doms| == CLASSES && |v.mmu.dirs| > 8 && Ready(v) && Enabled(v, Free(ptr))
    ensures Freed(v, Step(v, Free(ptr)), ptr)
  {
    hide Ready, Inv, Good, BlockEnd, BlockSize, DomFree, BigFree, Freed;
    ReadyFacts(v);
    if 0x1000_0000 <= ptr < 0x8000_0000 {
      SmallFreed(v, ptr / 0x1000_0000 - 1, ptr);
    } else if 0x8000_0000 <= ptr {
      LargeFreed(v, ptr);
    } else {
      assert Freed(v, v, ptr) by { NothingFreed(v, ptr); }
    }
  }

  lemma NothingFreed(v: View, ptr: nat)
    requires ptr < 0x1000_0000
    ensures Freed(v, v, ptr)
  {
  }

  lemma SmallFreed(v: View, k: nat, ptr: nat)
    requires |v.doms| == CLASSES && k < CLASSES && RouteOf(ptr) == Some(k)
    ensures Freed(v, DomFree(v, k, ptr), ptr)
  {
    hide BlockEnd, BlockSize;
    SmallEnd(v, k, ptr);
  }

  lemma LargeFreed(v: View, ptr: nat)
    requires Inv(v) && 0x8000_0000 <= ptr && ptr / 4096 in v.big.live
    ensures |v.doms| == CLASSES && v.big.live[ptr / 4096] >= 1
    ensures BigFree(v, ptr / 4096) == FreeStep(v, ptr) && Freed(v, BigFree(v, ptr / 4096), ptr)
  {
    hide Inv, Good, KeepsPages, PageMapped, DropPages, BigFree, Freed;
    InvDirs(v);
    var start := ptr / 4096;
    RegionBounds(v, start);
    DropPagesEffect(v.mmu, start + 1, v.big.live[start] - 1);
    ReleasedIsFreed(v, ptr);
  }

  lemma ReleasedIsFreed(v: View, ptr: nat)
    requires 0x8000_0000 <= ptr && ptr / 4096 in v.big.live && v.big.live[ptr / 4096] >= 1
    requires var n, m' := v.big.live[ptr / 4096], DropPages(v.mmu, ptr / 4096 + 1, v.big.live[ptr / 4096] - 1);
             && |m'.own| == |v.mmu.own| - (n - 1) && m'.pdes == v.mmu.pdes
             && forall q: nat :: PageMapped(m', q) <==>
                                   !(ptr / 4096 + 1 <= q < ptr / 4096 + 1 + (n - 1)) && PageMapped(v.mmu, q)
    ensures Freed(v, BigFree(v, ptr / 4096), ptr)
  {
    hide PageMapped, DropPages, BlockEnd;
    LargeEnd(v, ptr);
  }

  lemma LargeEnd(v: View, ptr: nat)
    requires 0x8000_0000 <= ptr && ptr / 4096 in v.big.live
    ensures BlockEnd(v, ptr) == (ptr / 4096 + v.big.live[ptr / 4096]) * 4096
  {
  }

  lemma RegionBounds(v: View, start: nat)
    requires Inv(v) && start in v.big.live
    ensures Good(v.mmu) && v.big.live[start] >= 1 && 0x8_0000 <= start && start + v.big.live[start] <= 0xC_0000
    ensures forall q: nat | start <= q < start + v.big.live[start] :: PageMapped(v.mmu, q)
  {
    hide Good, DomsOk, DirsOk, TablesOk, CountsOk, DataOk, PagesOk;
    RegionPages(v, start);
  }

  /** A client may free exactly the live pointers, and any address the allocators do not own. */
  lemma FreeAllowed(v: View, ptr: nat)
    requires |v.doms| == CLASSES && |v.mmu.dirs| > 8
    ensures Enabled(v, Free(ptr)) <==> ptr < 0x1000_0000 || LivePointer(v, ptr)
  {
  }

  /** Exactly the bytes of the block stop being live, and exactly its pointer. */
  lemma FreeLive(v: View, ptr: nat, a: nat, q: nat)
    requires |v.doms| == CLASSES && |v.mmu.dirs| > 8 && Ready(v) && LivePointer(v, ptr)
    ensures Enabled(v, Free(ptr))
    ensures var v' := Step(v, Free(ptr));
            && |v'.doms| == CLASSES
            && (LiveWord(v', a) <==> LiveWord(v, a) && !(ptr <= a < BlockEnd(v, ptr)))
            && (LivePointer(v', q) <==> LivePointer(v, q) && q != ptr)
  {
    hide Ready, Inv, Good, BlockEnd, BlockSize, DomFree, BigFree, LiveWord;
    ReadyFacts(v);
    if ptr < 0x8000_0000 {
      PushLive(v, ptr / 0x1000_0000 - 1, ptr, a, q);
    } else {
      LargeFreed(v, ptr);
      ReleaseLiveChange(v, ptr, a, q);
    }
  }

  lemma PushLive(v: View, k: nat, ptr: nat, a: nat, q: nat)
    requires |v.doms| == CLASSES && k < CLASSES && ptr in v.doms[k].live && Inv(v)
    ensures var v' := DomFree(v, k, ptr);
            && |v'.doms| == CLASSES && RouteOf(ptr) == Some(k)
            && (LiveWord(v', a) <==> LiveWord(v, a) && !(ptr <= a < BlockEnd(v, ptr)))
            && (LivePointer(v', q) <==> LivePointer(v, q) && q != ptr)
  {
    hide Inv, BlockEnd, BlockSize, BlockOf, IsBlock, DomOk, Forget, LiveLarge;
    InvDom(v, k);
    DomOkParts(k, v.doms[k]);
    assert IsBlock(k, v.doms[k].carved, ptr);
    IsBlockAligned(k, v.doms[k].carved, ptr);
    BlockRoute(k, v.doms[k].carved, ptr);
    BlockInBand(k, v.doms[k].carved, ptr);
    SmallEnd(v, k, ptr);
    InBlockOf(k, ptr, a);
  }

  lemma ReleaseLiveChange(v: View, ptr: nat, a: nat, q: nat)
    requires |v.doms| == CLASSES && Inv(v) && 0x8000_0000 <= ptr && ptr % 4096 == 4 && ptr / 4096 in v.big.live
    requires v.big.live[ptr / 4096] >= 1
    ensures var v' := BigFree(v, ptr / 4096);
            && |v'.doms| == CLASSES
            && (LiveWord(v', a) <==> LiveWord(v, a) && !(ptr <= a < BlockEnd(v, ptr)))
            && (LivePointer(v', q) <==> LivePointer(v, q) && q != ptr)
  {
    hide Inv, DropPages, Forget, LiveLarge, BigOk;
    InvBig(v);
    RegionRemoved(v.big, ptr / 4096, a);
    SamePointer(ptr / 4096, q);
    SamePointer(ptr / 4096, ptr);
  }

  lemma ApartBytes(s: nat, n: nat, t: nat, m: nat, a: nat)
    requires Apart(s, n, t, m) && s * 4096 + 4 <= a < (s + n) * 4096
    ensures !(t * 4096 + 4 <= a < (t + m) * 4096)
  {
  }

  lemma RegionRemoved(b: Big, start: nat, a: nat)
    requires BigOk(b) && start in b.live
    ensures LiveLarge(BigRelease(b, start), a)
            <==> LiveLarge(b, a) && !(start * 4096 + 4 <= a < (start + b.live[start]) * 4096)
  {
    hide InRange, Apart;
    var b' := BigRelease(b, start);
    if LiveLarge(b', a) {
      var s :| s in b'.live && s * 4096 + 4 <= a < (s + b'.live[s]) * 4096;
      assert s in b.live && b.live[s] == b'.live[s];
      ApartBytes(s, b.live[s], start, b.live[start], a);
    }
    if LiveLarge(b, a) && !(start * 4096 + 4 <= a < (start + b.live[start]) * 4096) {
      var s :| s in b.live && s * 4096 + 4 <= a < (s + b.live[s]) * 4096;
      assert s in b'.live && b'.live[s] == b.live[s];
    }
  }

  // ---------------------------------------------------------------------------------------
  // Round trips
  // ---------------------------------------------------------------------------------------

  /** A small free and then a request the block is the smallest for returns the block and restores every class. */
  lemma FreeThenMalloc(v: View, ptr: nat, size: nat)
    requires |v.doms| == CLASSES && |v.mmu.dirs| > 8 && Ready(v) && LivePointer(v, ptr)
    requires size <= 4096 && InSmallestClass(size, ptr)
    ensures var v1 := Step(v, Free(ptr));
            && |v1.doms| == CLASSES && Enabled(v1, Malloc(size)) && MallocPointer(v1, size) == ptr
            && Step(v1, Malloc(size)) == v1.(doms := v.doms) && v1.mmu == v.mmu
  {
    hide Ready, Inv, Good, CanCarve, ClassOf, RouteOf, InSmallestClass, MallocStep, MallocPointer, DomFree, Enabled;
    ReadyFacts(v);
    SameClass(size, ptr);
    PushThenPop(v, ClassOf(size), ptr, size);
    PushKeepsMmu(v, ClassOf(size), ptr);
  }

  lemma SameClass(size: nat, ptr: nat)
    requires size <= 4096 && InSmallestClass(size, ptr)
    ensures RouteOf(ptr) == Some(ClassOf(size)) && ClassOf(size) < CLASSES
  {
  }

  lemma PushKeepsMmu(v: View, k: nat, ptr: nat)
    requires |v.doms| == CLASSES && k < CLASSES
    ensures DomFree(v, k, ptr).mmu == v.mmu && |DomFree(v, k, ptr).doms| == CLASSES
  {
  }

  /**
   * A large free and then a large request that needs no more pages: it cannot fail, returns the same
   * address, moves no cursor, needs no table, and marks old - freed + new frames.
   */
  lemma FreeThenReuse(v: View, ptr: nat, size: nat)
    requires |v.doms| == CLASSES && |v.mmu.dirs| > 8 && 0x8000_0000 <= ptr && ptr % 4096 == 4
    requires ptr / 4096 in v.big.live && 4096 < size && size + 4 <= v.big.live[ptr / 4096] * 4096
    requires Ready(v)
    ensures LivePointer(v, ptr) && |FreeStep(v, ptr).doms| == CLASSES && |FreeStep(v, ptr).mmu.dirs| > 8
    ensures var v1 := Step(v, Free(ptr));
            && v1 == FreeStep(v, ptr) && Enabled(v1, Malloc(size)) && MallocPointer(v1, size) == ptr
            && ReusedInPlace(v, Step(v1, Malloc(size)), ptr / 4096)
  {
    hide Ready, Inv, Good, CanBig, BigFree, BigAlloc, BigPointer, PagesFor, LiveWord;
    ReadyFacts(v);
    var start, n := ptr / 4096, PagesFor(size);
    RegionBounds(v, start);
    LargeFreed(v, ptr);
    LeastPages(size);
    assert n <= v.big.live[start];
    ReleaseThenTake(v, start, n);
    SamePointer(start, ptr);
    FreedTaken(v, start, n);
  }

  /** The large region as before, but for the page count at `start` and the frames that come with it. */
  predicate ReusedInPlace(v: View, v': View, start: nat) {
    && start in v.big.live && start in v'.big.live
    && v'.big.cursor == v.big.cursor && v'.big.slots == v.big.slots
    && v'.mmu.pdes == v.mmu.pdes && v'.mmu.dirs == v.mmu.dirs
    && |v'.mmu.own| == |v.mmu.own| - v.big.live[start] + v'.big.live[start]
  }

  lemma FreedTaken(v: View, start: nat, n: nat)
    requires start in v.big.live && 1 <= n <= v.big.live[start] && |v.mmu.dirs| > 0
    ensures var v1 := BigFree(v, start);
            && v1.doms == v.doms && |v1.mmu.dirs| > 0
            && start in BigAlloc(v1, n).big.live && BigAlloc(v1, n).big.live[start] == n
  {
    hide DropPages, AddPages, Cleared, Forget;
  }

  // ---------------------------------------------------------------------------------------
  // Client writes and new directories
  // ---------------------------------------------------------------------------------------

  /** A client may write any word of live memory; the write records the word and changes nothing else. */
  lemma WriteCall(v: View, va: nat, w: Word)
    requires |v.doms| == CLASSES && |v.mmu.dirs| > 8
    ensures Enabled(v, Write(va, w)) <==> va % 4 == 0 && LiveWord(v, va)
    ensures var v' := Step(v, Write(va, w));
            && va in v'.data && v'.data[va] == w && v' == v.(data := v'.data)
            && forall a | a != va :: (a in v'.data <==> a in v.data) && (a in v.data ==> v'.data[a] == v.data[a])
  {
  }

  /** A new directory lies in the lowest unmarked frame and is the last of the directories; the heap stays. */
  predicate DirectoryMade(v: View, v': View, f: nat) {
    && v'.mmu.dirs == v.mmu.dirs + [f] && f !in v.mmu.own && (forall g: nat | g < f :: g in v.mmu.own)
    && v'.mmu.own.Keys == v.mmu.own.Keys + {f} && v' == v.(mmu := v'.mmu)
    && v'.mmu.pdes == v.mmu.pdes && v'.mmu.ptes == v.mmu.ptes
  }

  lemma SpawnCall(v: View)
    requires |v.doms| == CLASSES && |v.mmu.dirs| > 8
    ensures exists f: nat :: DirectoryMade(v, Step(v, Spawn), f)
  {
    assert DirectoryMade(v, Step(v, Spawn), NextFrame(v.mmu));
  }
}
