/** What holds in every reachable state of the heap. */
module HeapTheorems {
  import opened Frames
  import opened PageTables
  import opened Spaces
  import opened Regions
  import opened HeapModel
  import opened SizeClasses
  import opened LargeRegions
  import opened HeapInv
  import opened LargeInv
  import opened HeapRuns

  // ---------------------------------------------------------------------------------------
  // Frame accounting
  // ---------------------------------------------------------------------------------------

  /**
   * Marked frames are the kernel image, the directories, one frame per carved small page, per
   * live large page and per free slot, and two tables for each 4 MB carved from.
   */
  lemma Accounting(v: View)
    requires Inv(v)
    ensures |v.doms| == CLASSES && |v.mmu.dirs| > 0 && LARGE_PAGE <= v.big.cursor
    ensures |v.mmu.own| == Reserve(v.mmu) + (|v.mmu.dirs| - 1) + SumCarved(v.doms) + Total(v.big.live) + |v.big.slots|
                           + 2 * (SumTables(v.doms) + Tables(v.big.cursor - LARGE_PAGE))
  {
    hide DomsOk, BigOk, DirsOk, PagesOk, TablesOk, DataOk, Wf, Total, SumCarved, SumTables, Tables, RoleMet;
    assert Counted(v.mmu);
  }

  // ---------------------------------------------------------------------------------------
  // One role per frame
  // ---------------------------------------------------------------------------------------

  /** The uses the heap has for frames outside the kernel image. */
  predicate InUse(v: View, r: Role)
    requires |v.doms| == CLASSES
  {
    match r
    case Reserved => false
    case Directory(d) => 0 < d < |v.mmu.dirs|
    case Table(d, i) => Carved(v, i) && (d == 0 || d == Band(i * 1024))
    case Page(p) => Owned(v, p)
  }

  /** The frame that serves a use, read off the directories and tables. */
  function FrameFor(v: View, r: Role): nat
    requires r.Directory? ==> r.d < |v.mmu.dirs|
    requires r.Table? ==> (r.d, r.i) in v.mmu.pdes
    requires r.Page? ==> (0, r.p) in v.mmu.ptes
  {
    match r
    case Reserved => 0
    case Directory(d) => v.mmu.dirs[d]
    case Table(d, i) => v.mmu.pdes[(d, i)].frame
    case Page(p) => v.mmu.ptes[(0, p)].frame
  }

  lemma UseHasFrame(v: View, r: Role)
    requires Ready(v) && InUse(v, r)
    ensures r.Directory? ==> r.d < |v.mmu.dirs|
    ensures r.Table? ==> (r.d, r.i) in v.mmu.pdes
    ensures r.Page? ==> (0, r.p) in v.mmu.ptes
    ensures FrameFor(v, r) in v.mmu.own && v.mmu.own[FrameFor(v, r)] == r && FrameFor(v, r) >= Reserve(v.mmu)
  {
    hide DomsOk, BigOk, DirsOk, PagesOk, TablesOk, CountsOk, DataOk, HighWater, Owned, Carved, Band, Counted,
         KernelHalf;
    match r
    case Directory(d) => DirFrame(v.mmu, d);
    case Table(d, i) =>
      TableKnown(v, i);
      assert TablePair(v.mmu, 0, i);
      assert PdeOk(v.mmu, d, i);
    case Page(p) =>
      PageKnown(v, p);
      assert PteOk(v.mmu, 0, p);
  }

  /** Two different uses never share a frame. */
  lemma OneRolePerFrame(v: View, r: Role, s: Role)
    requires Ready(v) && InUse(v, r) && InUse(v, s)
    ensures (r.Directory? ==> r.d < |v.mmu.dirs|) && (s.Directory? ==> s.d < |v.mmu.dirs|)
    ensures (r.Table? ==> (r.d, r.i) in v.mmu.pdes) && (s.Table? ==> (s.d, s.i) in v.mmu.pdes)
    ensures (r.Page? ==> (0, r.p) in v.mmu.ptes) && (s.Page? ==> (0, s.p) in v.mmu.ptes)
    ensures FrameFor(v, r) == FrameFor(v, s) ==> r == s
  {
    hide Ready, InUse, FrameFor;
    UseHasFrame(v, r);
    UseHasFrame(v, s);
  }

  /** Every frame marked in the bitmap is in the kernel image or serves a use. */
  lemma MarkedFrameHasUse(v: View, f: nat)
    requires Ready(v) && f in v.mmu.own && f >= Reserve(v.mmu)
    ensures InUse(v, v.mmu.own[f])
    ensures var r := v.mmu.own[f];
            && (r.Directory? ==> r.d < |v.mmu.dirs|) && (r.Table? ==> (r.d, r.i) in v.mmu.pdes)
            && (r.Page? ==> (0, r.p) in v.mmu.ptes) && FrameFor(v, r) == f
  {
    hide DomsOk, BigOk, DirsOk, PagesOk, TablesOk, CountsOk, DataOk, HighWater, Owned, Carved, Band, Wf, Counted;
    assert RoleMet(v.mmu, f);
    match v.mmu.own[f]
    case Reserved =>
    case Directory(d) =>
    case Table(d, i) =>
      assert TablePair(v.mmu, d, i);
      TableKnown(v, i);
    case Page(p) => PageKnown(v, p);
  }

  /** A page the heap owns is a carved small page, a live large page or a kept first page: exactly one of these. */
  lemma OnePageKind(v: View, p: nat)
    requires Ready(v) && Owned(v, p)
    ensures if p < LARGE_PAGE then 1 <= Band(p) <= CLASSES && p < End(v, Band(p)) && !LivePage(v.big, p)
        && !HostagePage(v.big, p)
            else LivePage(v.big, p) <==> !HostagePage(v.big, p)
  {
    hide DomsOk, DirsOk, PagesOk, TablesOk, CountsOk, DataOk, HighWater, Good;
    BandRange(p);
    if LivePage(v.big, p) { LiveNotHostage(v.big, p); }
    forall j | 0 <= j < |v.big.slots| ensures LARGE_PAGE <= v.big.slots[j].start {
      assert Within(v.big, v.big.slots[j].start, v.big.slots[j].count);
    }
  }

  // ---------------------------------------------------------------------------------------
  // When a request is served
  // ---------------------------------------------------------------------------------------

  /**
   * The page count kmalloc_large computes is enough for the request and its header if and only if
   * the size is at most 0xFFFFEFFC; above that the sum wraps and the count is 0 or 1.
   */
  lemma PageRounding(size: nat)
    requires size < 0x1_0000_0000
    ensures size + 4 <= RoundedPages(size) * 4096 <==> size <= 0xFFFF_EFFC
    ensures size <= 0xFFFF_EFFC ==> RoundedPages(size) == PagesFor(size)
    ensures size > 0xFFFF_EFFC ==> RoundedPages(size) <= 1
  {
    if size > 0xFFFF_EFFC {
      assert (size + 4 + 4095) % 0x1_0000_0000 == size + 4 + 4095 - 0x1_0000_0000;
    }
  }

  /** Frames a large request of n pages takes: the kept page of a reused slot is given back first. */
  function BigCost(b: Big, n: nat): int {
    if Reuses(b, n) then n - 1 else n + 2 * (Tables(b.cursor + n) - Tables(b.cursor))
  }

  /** Frames one more page of class k takes: the page, and two tables at a 4 MB boundary. */
  function CarveCost(d: Dom): nat {
    if d.carved % 1024 == 0 then 3 else 1
  }

  lemma ReuseFits(v: View, n: nat)
    requires Inv(v) && CanTake(v.big, n) && Reuses(v.big, n) && |v.mmu.dirs| > 8
    ensures |BigAlloc(v, n).mmu.own| == |v.mmu.own| + BigCost(v.big, n)
    ensures CanBig(v, n) <==> |v.mmu.own| + BigCost(v.big, n) <= DIRECT_FRAMES
  {
    hide DomsOk, DirsOk, TablesOk, CountsOk, DataOk, PagesOk, PageMapped, KeepsPages, BigOk, CanTake, Wf, Balanced,
         LivePage, HostagePage, Cleared, AddPages, BigStart, InDirect, Owned, Carved;
    var m1, start := Cleared(v.mmu, v.big, n), BigStart(v.big, n);
    ClearedEffect(v, n);
    SlotBelowCursor(v.big, n);
    forall q: nat | start <= q < start + n ensures !PageMapped(m1, q) && HasTable(m1, q / 1024) {
      TakeFree(v.big, n, q);
      NotOwned(v, q);
      CursorTables(v, q);
      TableKnown(v, q / 1024);
    }
    AddPagesInTables(m1, start, n);
    assert InDirect(m1) by { GoodReach(m1); }
    AddPagesFits(m1, start, n);
  }

  lemma FreshFits(v: View, n: nat)
    requires Inv(v) && CanTake(v.big, n) && !Reuses(v.big, n) && |v.mmu.dirs| > 8
    ensures |BigAlloc(v, n).mmu.own| == |v.mmu.own| + BigCost(v.big, n)
    ensures CanBig(v, n) <==> |v.mmu.own| + BigCost(v.big, n) <= DIRECT_FRAMES
  {
    hide DomsOk, DirsOk, TablesOk, CountsOk, DataOk, PagesOk, PageMapped, BigOk, CanTake, Wf, Balanced,
         LivePage, HostagePage, AddPages, InDirect, Owned, Carved, Boundary, Tables;
    var c := v.big.cursor;
    BigInRange(v.big);
    forall q: nat | c <= q < c + n ensures !PageMapped(v.mmu, q) {
      TakeFree(v.big, n, q);
      NotOwned(v, q);
      PageKnown(v, q);
    }
    CursorBoundary(v, n);
    AddPagesFreshTables(v.mmu, c, n);
    assert InDirect(v.mmu) by { GoodReach(v.mmu); }
    AddPagesFits(v.mmu, c, n);
  }

  lemma BigInRange(b: Big)
    requires BigOk(b)
    ensures LARGE_PAGE <= b.cursor
  {
  }

  /** A large request with address space for it is served if and only if its frames fit; their number is exact. */
  lemma BigServed(v: View, n: nat)
    requires Inv(v) && CanTake(v.big, n) && |v.mmu.dirs| > 8
    ensures |BigAlloc(v, n).mmu.own| == |v.mmu.own| + BigCost(v.big, n)
    ensures CanBig(v, n) <==> |v.mmu.own| + BigCost(v.big, n) <= DIRECT_FRAMES
  {
    hide Inv, CanTake, CanBig, BigAlloc, BigCost;
    if Reuses(v.big, n) { ReuseFits(v, n); } else { FreshFits(v, n); }
  }

  /** So is a request that needs one more page of a class. */
  lemma CarveServed(v: View, k: nat)
    requires Inv(v) && k < CLASSES && k + 1 < |v.mmu.dirs| && v.doms[k].carved < BAND_PAGES
    ensures |Carve(v, k).mmu.own| == |v.mmu.own| + CarveCost(v.doms[k])
    ensures CanCarve(v, k) <==> |v.mmu.own| + CarveCost(v.doms[k]) <= DIRECT_FRAMES
  {
    hide DomsOk, DirsOk, TablesOk, CountsOk, DataOk, PagesOk, BigOk, Wf, Balanced, InDirect, AddPage, PageBlocks,
         Carved, HasTable;
    var c := v.doms[k].carved;
    var p := BasePage(k) + c;
    assert HEAP_PAGE <= p;
    TableKnown(v, p / 1024);
    StretchOfPage(v, k, p / 1024, c);
    AddPageTableEffect(v.mmu, p);
    assert InDirect(v.mmu) by { GoodReach(v.mmu); }
    if |AddPage(v.mmu, p).own| <= DIRECT_FRAMES { AddPageFits(v.mmu, p); }
    if InDirect(AddPage(v.mmu, p)) { InDirectSize(AddPage(v.mmu, p)); }
  }

  /** And a new directory, which takes one frame. */
  lemma SpawnServed(m: Mmu)
    requires InDirect(m)
    ensures NextFrame(m) < DIRECT_FRAMES <==> |m.own| < DIRECT_FRAMES
  {
    hide NextFrame;
    NextBound(m);
    NextIsFree(m);
    if NextFrame(m) < DIRECT_FRAMES { RoomBelow(m.own.Keys, NextFrame(m), DIRECT_FRAMES); }
    assert |m.own.Keys| == |m.own|;
  }

  /** A set of numbers below n that lacks one of them has fewer than n. */
  lemma RoomBelow(s: set<nat>, f: nat, n: nat)
    requires f < n && f !in s && forall x | x in s :: x < n
    ensures |s| < n
  {
    hide Below;
    var t := s + {f};
    assert |t| == |s| + 1;
    SubsetSize(t, Below(n));
  }

  lemma NextBound(m: Mmu)
    ensures NextFrame(m) <= |m.own|
  {
    FirstFreeBound(m.own.Keys);
    assert |m.own.Keys| == |m.own|;
  }

  /** A condition on counters alone: address space for the request, and frames for what it will take. */
  predicate HasRoom(v: View, op: Op)
    requires |v.doms| == CLASSES && (op.Malloc? || op.Spawn?)
  {
    if op.Spawn? then |v.mmu.own| < DIRECT_FRAMES
    else if op.size <= 4096 then
      var d := v.doms[ClassOf(op.size)];
      d.free != [] || (d.carved < BAND_PAGES && |v.mmu.own| + CarveCost(d) <= DIRECT_FRAMES)
    else
      var n := PagesFor(op.size);
      op.size <= 0xFFFF_EFFC && CanTake(v.big, n) && |v.mmu.own| + BigCost(v.big, n) <= DIRECT_FRAMES
  }

  /** Requests are served exactly when there is room: nothing about the outcome needs to be known before. */
  lemma ServedByCount(v: View, op: Op)
    requires |v.doms| == CLASSES && |v.mmu.dirs| > 8 && (op.Malloc? || op.Spawn?) && Ready(v)
    ensures Enabled(v, op) <==> HasRoom(v, op)
  {
    hide Inv, Ready, CarveCost, BigCost, CanTake, InDirect, Good, NextFrame, AddPage, BigAlloc, PagesFor;
    ReadyFacts(v);
    if op.Spawn? {
      GoodReach(v.mmu);
      SpawnServed(v.mmu);
    } else if op.size <= 4096 {
      var k := ClassOf(op.size);
      if v.doms[k].carved < BAND_PAGES { CarveServed(v, k); }
    } else if CanTake(v.big, PagesFor(op.size)) {
      BigServed(v, PagesFor(op.size));
    }
  }

  lemma GoodReach(m: Mmu)
    requires Good(m)
    ensures InDirect(m) && |m.own| <= DIRECT_FRAMES
  {
    hide Balanced, WfPdes, WfPtes;
    InDirectSize(m);
  }

  lemma NotOwned(v: View, q: nat)
    requires |v.doms| == CLASSES && LARGE_PAGE <= q && !LivePage(v.big, q)
    ensures Owned(v, q) <==> HostagePage(v.big, q)
  {
  }

  // ---------------------------------------------------------------------------------------
  // Freed large regions
  // ---------------------------------------------------------------------------------------

  /** The head slot after a free, and what a request that fits it takes. */
  lemma FreedHead(b: Big, start: nat, n: nat)
    requires BigOk(b) && start in b.live && 1 <= n <= b.live[start]
    ensures var b1 := BigRelease(b, start);
            Reuses(b1, n) && CanTake(b1, n) && BigStart(b1, n) == start && BigTake(b1, n).cursor == b.cursor
            && BigTake(b1, n).slots == b.slots
  {
  }

  /** A large free, then a large allocation of no more pages, whatever the state of the frames. */
  lemma ReleaseThenTake(v: View, start: nat, n: nat)
    requires |v.mmu.dirs| > 8 && start in v.big.live && 1 <= n <= v.big.live[start]
    requires Ready(v)
    ensures var v1 := BigFree(v, start); var v2 := BigAlloc(v1, n);
            && CanBig(v1, n) && BigPointer(v1, n) == start * 4096 + 4
            && v2.big.cursor == v.big.cursor && v2.big.slots == v.big.slots
            && v2.mmu.pdes == v.mmu.pdes && v2.mmu.dirs == v.mmu.dirs
            && |v2.mmu.own| == |v.mmu.own| - v.big.live[start] + n
  {
    hide Inv, Ready, HighWater, BigAlloc, BigRelease, CanTake, BigTake, DropPages, Forget, CanBig, BigOk;
    ReadyFacts(v);
    var v1, k := BigFree(v, start), v.big.live[start];
    BigFreeReady(v, start);
    ReadyFacts(v1);
    InvBig(v);
    FreedHead(v.big, start, n);
    FreedSize(v, start);
    GoodReach(v.mmu);
    ReuseFits(v1, n);
    ReuseTables(v1, n);
    AllocShape(v1, n);
  }

  lemma AllocShape(v: View, n: nat)
    requires |v.mmu.dirs| > 0
    ensures BigAlloc(v, n).big == BigTake(v.big, n) && BigAlloc(v, n).mmu.dirs == v.mmu.dirs
  {
  }

  lemma InvBig(v: View)
    requires Inv(v)
    ensures BigOk(v.big)
  {
    hide Good, DomsOk, BigOk, DirsOk, PagesOk, TablesOk, CountsOk, DataOk;
  }

  lemma FreedSize(v: View, start: nat)
    requires Inv(v) && start in v.big.live && v.big.live[start] >= 1
    ensures var v1 := BigFree(v, start);
            && |v1.mmu.own| == |v.mmu.own| - v.big.live[start] + 1
            && v1.mmu.pdes == v.mmu.pdes && v1.mmu.dirs == v.mmu.dirs && v1.big == BigRelease(v.big, start)
  {
    hide Good, DomsOk, BigOk, DirsOk, PagesOk, TablesOk, CountsOk, DataOk, DropPages, BigRelease, Forget, PageMapped,
         KeepsPages;
    RegionPages(v, start);
    DropPagesEffect(v.mmu, start + 1, v.big.live[start] - 1);
  }

  // ---------------------------------------------------------------------------------------
  // Routing, and memory that nobody else holds
  // ---------------------------------------------------------------------------------------

  lemma BlockOfInside(k: nat, p: nat, a: nat)
    requires k < CLASSES && p % BlockSize(k) == 0 && p <= a < p + BlockSize(k)
    ensures BlockOf(k, a) == p
  {
    BlockFacts(k);
    hide BlockSize;
    var b := BlockSize(k);
    assert p == p / b * b;
    DivMod(a, b, p / b, a - p);
  }

  /** Addresses of class k lie in its 256 MB. */
  lemma BlockRoute(k: nat, carved: nat, p: nat)
    requires k < CLASSES && carved <= BAND_PAGES && IsBlock(k, carved, p)
    ensures RouteOf(p) == Some(k) && p != 0 && p % 4 == 0 && p / 4096 < BasePage(k) + carved
    ensures forall a: nat | p <= a < p + BlockSize(k) :: 0x1000_0000 <= a < 0x8000_0000 && a / 0x1000_0000 - 1 == k
  {
    BlockIndex(k, p);
    BlockSmall(k);
    hide BlockSize, BlocksPerPage;
    assert p / 4096 == BasePage(k) + (p / 4096 - BasePage(k));
    assert p + BlockSize(k) <= (p / 4096 + 1) * 4096;
    forall a: nat | p <= a < p + BlockSize(k) ensures 0x1000_0000 <= a < 0x8000_0000 && a / 0x1000_0000 - 1 == k {
      assert a < (BasePage(k) + carved) * 4096;
    }
  }

  /** The block a class hands out was free in v or lies in a page v had not carved. */
  lemma DomPointerFresh(v: View, k: nat)
    requires Inv(v) && k < CLASSES && (v.doms[k].free != [] || CanCarve(v, k))
    ensures |v.mmu.dirs| > 0 && DomPointer(v, k) !in v.doms[k].live
    ensures Refilled(v, k).doms[k].carved <= BAND_PAGES && IsBlock(k, Refilled(v, k).doms[k].carved, DomPointer(v, k))
    ensures DomAlloc(v, k).doms[k].live == v.doms[k].live + {DomPointer(v, k)}
  {
    hide Inv, DomOk, IsBlock, AddPage, PageBlocks;
    InvDirs(v);
    InvDom(v, k);
    var r := Refilled(v, k);
    if v.doms[k].free == [] {
      CarveInv(v, k);
      InvDom(r, k);
    }
    DomOkParts(k, r.doms[k]);
    FreeNotLive(k, r.doms[k], 0);
  }

  lemma InvDirs(v: View)
    requires Inv(v)
    ensures |v.doms| == CLASSES && |v.mmu.dirs| > 0
  {
    hide DomsOk, BigOk, DirsOk, PagesOk, TablesOk, CountsOk, DataOk, Balanced, WfPdes, WfPtes;
  }

  lemma DomOkParts(k: nat, d: Dom)
    requires k < CLASSES && DomOk(k, d)
    ensures Partition(k, d) && d.carved <= BAND_PAGES
  {
  }

  lemma SmallRouting(v: View, size: nat)
    requires |v.doms| == CLASSES && |v.mmu.dirs| > 0 && size <= 4096
    requires Inv(v) && Enabled(v, Malloc(size))
    ensures var p, v' := MallocPointer(v, size), MallocStep(v, size);
            && |v'.doms| == CLASSES && RouteOf(p) == Some(ClassOf(size)) && p % 4 == 0
            && LivePointer(v', p) && !LivePointer(v, p)
            && (forall a: nat | p <= a < p + size :: LiveWord(v', a) && !LiveWord(v, a))
  {
    hide Inv, DomOk, CanCarve, DomPointer, DomAlloc, Refilled, IsBlock;
    var k := ClassOf(size);
    var p, v' := DomPointer(v, k), DomAlloc(v, k);
    DomPointerFresh(v, k);
    BlockRoute(k, Refilled(v, k).doms[k].carved, p);
    ClassFits(size);
    DomAllocShape(v, k);
    forall a: nat | p <= a < p + size ensures LiveWord(v', a) && !LiveWord(v, a) {
      IsBlockAligned(k, Refilled(v, k).doms[k].carved, p);
      BlockOfInside(k, p, a);
    }
  }

  lemma IsBlockAligned(k: nat, carved: nat, p: nat)
    requires k < CLASSES && IsBlock(k, carved, p)
    ensures p % BlockSize(k) == 0
  {
  }

  lemma DomAllocShape(v: View, k: nat)
    requires |v.doms| == CLASSES && |v.mmu.dirs| > 0 && k < CLASSES
    ensures |DomAlloc(v, k).doms| == CLASSES
  {
    hide AddPage, PageBlocks;
  }

  lemma ClassFits(size: nat)
    requires size <= 4096
    ensures size <= BlockSize(ClassOf(size))
  {
  }

  lemma LargeRouting(v: View, size: nat)
    requires |v.doms| == CLASSES && |v.mmu.dirs| > 0 && size > 4096
    requires Inv(v) && Enabled(v, Malloc(size))
    ensures var p, v' := MallocPointer(v, size), MallocStep(v, size);
            && |v'.doms| == CLASSES && RouteOf(p) == Some(ClassOf(size)) && p % 4 == 0
            && LivePointer(v', p) && !LivePointer(v, p)
            && (forall a: nat | p <= a < p + size :: LiveWord(v', a) && !LiveWord(v, a))
  {
    hide Inv, CanBig, CanTake, BigOk, Cleared, AddPages, BigStart, BigTake;
    var n := PagesFor(size);
    CanTakeBig(v, n);
    InvBig(v);
    TakeFacts(v.big, n);
    var start, p, v' := BigStart(v.big, n), BigPointer(v, n), BigAlloc(v, n);
    PageAddress(start);
    forall a: nat | p <= a < p + size ensures LiveWord(v', a) && !LiveWord(v, a) {
      assert start in v'.big.live && start * 4096 + 4 <= a < (start + v'.big.live[start]) * 4096;
      TakeFree(v.big, n, a / 4096);
      NotLiveLarge(v.big, a);
    }
  }

  /** A page address, and the address past a region's header. */
  lemma PageAddress(p: nat)
    ensures p * 4096 / 4096 == p && p * 4096 % 4096 == 0 && p * 4096 % 4 == 0
    ensures (p * 4096 + 4) / 4096 == p && (p * 4096 + 4) % 4096 == 4 && (p * 4096 + 4) % 4 == 0
  {
  }

  lemma NotLiveLarge(b: Big, a: nat)
    requires !LivePage(b, a / 4096)
    ensures !LiveLarge(b, a)
  {
    forall s | s in b.live ensures !(s * 4096 + 4 <= a < (s + b.live[s]) * 4096) {
      assert !(s <= a / 4096 < s + b.live[s]);
    }
  }

  /**
   * The pointer kmalloc returns is sent back by kfree_heap to the allocator it came from, is
   * live from then on and was not before, and all its `size` bytes are memory no client held.
   */
  lemma Routing(v: View, size: nat)
    requires |v.doms| == CLASSES && |v.mmu.dirs| > 8 && Ready(v) && Enabled(v, Malloc(size))
    ensures var p, v' := MallocPointer(v, size), MallocStep(v, size);
            && p != 0 && p % 4 == 0 && RouteOf(p) == Some(ClassOf(size))
            && |v'.doms| == CLASSES && LivePointer(v', p) && !LivePointer(v, p)
            && (forall a: nat | p <= a < p + size :: LiveWord(v', a) && !LiveWord(v, a))
  {
    hide Ready, Inv, LiveWord, LivePointer, MallocPointer, MallocStep, Enabled, ClassOf;
    ReadyFacts(v);
    if size <= 4096 { SmallRouting(v, size); } else { LargeRouting(v, size); }
  }

  // ---------------------------------------------------------------------------------------
  // Round trips and history
  // ---------------------------------------------------------------------------------------

  /** A small request cannot fail, and touches no page table, while some carved block of its class is not live. */
  lemma SmallProgress(v: View, size: nat)
    requires |v.doms| == CLASSES && |v.mmu.dirs| > 0 && size <= 4096 && Ready(v)
    requires |v.doms[ClassOf(size)].live| < v.doms[ClassOf(size)].carved * BlocksPerPage(ClassOf(size))
    ensures Enabled(v, Malloc(size)) && MallocStep(v, size).mmu == v.mmu
  {
    hide Inv, HighWater, Partition, PageBlocks, AddPage, CanCarve, BlocksPerPage, ClassOf;
    InvDom(v, ClassOf(size));
  }

  /** A class holds at most 65536 pages of blocks, and refuses requests once all of them are live. */
  lemma FullClass(v: View, size: nat)
    requires |v.doms| == CLASSES && |v.mmu.dirs| > 0 && size <= 4096 && Inv(v)
    ensures var k := ClassOf(size);
            && |v.doms[k].live| <= BAND_PAGES * BlocksPerPage(k)
            && (|v.doms[k].live| == BAND_PAGES * BlocksPerPage(k) ==> !Enabled(v, Malloc(size)))
  {
    hide Inv, Partition, AddPage, InDirect, BlocksPerPage, ClassOf;
    var k := ClassOf(size);
    InvDom(v, k);
    Factors(v.doms[k].carved, BlocksPerPage(k));
  }

  lemma Factors(carved: nat, n: nat)
    requires carved <= BAND_PAGES && n >= 1
    ensures carved * n <= BAND_PAGES * n && (carved < BAND_PAGES ==> carved * n < BAND_PAGES * n)
  {
    if carved < BAND_PAGES { OrderedMultiples(carved, BAND_PAGES, n); }
  }

  /** Giving a block back and taking one of the same class restores the class. */
  lemma PushThenPop(v: View, k: nat, ptr: nat, size: nat)
    requires |v.doms| == CLASSES && |v.mmu.dirs| > 0 && k < CLASSES && ptr in v.doms[k].live && ClassOf(size) == k
    requires Inv(v)
    ensures var v1 := DomFree(v, k, ptr);
            && Enabled(v1, Malloc(size)) && MallocPointer(v1, size) == ptr
            && MallocStep(v1, size) == v1.(doms := v.doms)
  {
    hide Inv, CanCarve, AddPage, PageBlocks, Partition, Forget;
    InvDom(v, k);
    var d := v.doms[k];
    var d2 := PopBlock(PushBlock(d, ptr));
    assert d2.free == d.free && d2.live == d.live;
    assert |d.live - {ptr}| == |d.live| - 1;
    assert d2 == d;
    assert v.doms[k := PushBlock(d, ptr)][k := d2] == v.doms;
  }

  lemma AllocPeak(v: View, c: nat, k: nat)
    requires |v.doms| == CLASSES && |v.mmu.dirs| > 0 && k < CLASSES && c < CLASSES
    requires Inv(v) && (v.doms[c].free != [] || CanCarve(v, c)) && |v.doms[k].live| <= v.doms[k].peak
    ensures |DomAlloc(v, c).doms| == CLASSES
    ensures DomAlloc(v, c).doms[k].peak == Max(v.doms[k].peak, |DomAlloc(v, c).doms[k].live|)
  {
    hide Inv, DomOk, CanCarve, AddPage, PageBlocks;
    DomPointerFresh(v, c);
  }

  /** One call raises the recorded peak exactly when more blocks are live than ever before. */
  lemma PeakIsRunningMax(v: View, op: Op, k: nat)
    requires |v.doms| == CLASSES && |v.mmu.dirs| > 0 && k < CLASSES
    requires Ready(v) && Enabled(v, op)
    ensures |Step(v, op).doms| == CLASSES
    ensures Step(v, op).doms[k].peak == Max(v.doms[k].peak, |Step(v, op).doms[k].live|)
  {
    hide Ready, Inv, DomOk, CanCarve, CanBig, DomAlloc, Forget, AddPages, Cleared, BigTake, DropPages, BigRelease,
         LiveWord;
    ReadyFacts(v);
    InvDom(v, k);
    PeakBound(k, v.doms[k]);
    match op
    case Malloc(size) =>
      if size <= 4096 { AllocPeak(v, ClassOf(size), k); }
    case Free(ptr) =>
      if RouteOf(ptr) == Some(k) { assert |v.doms[k].live - {ptr}| <= |v.doms[k].live|; }
    case Write(va, w) =>
    case Spawn =>
  }

  lemma PeakBound(k: nat, d: Dom)
    requires k < CLASSES && DomOk(k, d)
    ensures |d.live| <= d.peak
  {
  }

  /** In every reachable state each class has carved exactly the pages its peak demanded, at least 256. */
  lemma HighWaterFootprint(v: View, k: nat)
    requires Ready(v) && k < CLASSES
    ensures |v.doms| == CLASSES
    ensures v.doms[k].carved == Max(PREMAP, CeilDiv(v.doms[k].peak, BlocksPerPage(k)))
  {
    hide Inv, DomOk, HighWater, BlocksPerPage, CeilDiv;
    InvDom(v, k);
    Footprint(k, v.doms[k]);
  }

  /** What a client wrote stays until it is overwritten or its block is freed. */
  lemma DataStays(v: View, op: Op, a: nat)
    requires |v.doms| == CLASSES && |v.mmu.dirs| > 0 && a in v.data
    requires Ready(v) && Enabled(v, op)
    requires op.Write? ==> op.va != a
    requires op.Free? ==> !InBlock(v, op.ptr, a)
    ensures a in Step(v, op).data && Step(v, op).data[a] == v.data[a]
  {
    hide Ready, CanCarve, CanBig, AddPage, PageBlocks, AddPages, Cleared, BigTake, DropPages, BigRelease, LiveWord;
  }

  /** `a` lies in the block or region that starts at the live pointer `ptr`. */
  predicate InBlock(v: View, ptr: nat, a: nat)
    requires |v.doms| == CLASSES
  {
    match RouteOf(ptr)
    case None => false
    case Some(k) =>
      if k < CLASSES then ptr <= a < ptr + BlockSize(k)
      else ptr / 4096 in v.big.live && ptr / 4096 * 4096 <= a < (ptr / 4096 + v.big.live[ptr / 4096]) * 4096
  }
}
