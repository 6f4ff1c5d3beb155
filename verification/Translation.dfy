/** What the processor sees: the walk through every directory in every state of the heap. */
module Translation {
  import opened Frames
  import opened PageTables
  import opened Places
  import opened MapLaw
  import opened Spaces
  import opened Regions
  import opened HeapModel
  import opened SizeClasses
  import opened LargeRegions
  import opened HeapInv
  import opened LargeInv
  import opened HeapRuns

  lemma OwnedEntry(v: View, p: nat)
    requires |v.doms| == CLASSES && Good(v.mmu) && PagesOk(v) && Owned(v, p)
    ensures (0, p) in v.mmu.ptes && (Band(p), p) in v.mmu.ptes && v.mmu.ptes[(Band(p), p)] == v.mmu.ptes[(0, p)]
    ensures v.mmu.ptes[(0, p)].flags == PAGE_KERNEL && p < KERNEL_PAGE
    ensures v.mmu.ptes[(0, p)].frame in v.mmu.own && v.mmu.own[v.mmu.ptes[(0, p)].frame] == Page(p)
  {
    hide Owned, Band, WfFrames, WfPdes;
    PageKnown(v, p);
    assert PagePair(v.mmu, 0, p) && PteOk(v.mmu, 0, p);
    assert PagePair(v.mmu, Band(p), p);
  }

  /**
   * Double mapping: a page the heap owns walks to the same frame, with the same flags, through
   * its band's directory and through the kernel's.
   */
  lemma DoubleMapping(mem: Memory, v: View, p: nat)
    requires Rep(mem, v.mmu) && Inv(v) && Owned(v, p)
    ensures (0, p) in v.mmu.ptes && p < PAGES && Band(p) < |v.mmu.dirs|
    ensures v.mmu.dirs[0] < DIRECT_FRAMES && v.mmu.dirs[Band(p)] < DIRECT_FRAMES
    ensures Band(p) == if p < 0x8_0000 then p / 0x1_0000 else 8
    ensures Walk(mem, v.mmu.dirs[0], p) == Some(v.mmu.ptes[(0, p)].frame * 4096 + 3)
    ensures Walk(mem, v.mmu.dirs[Band(p)], p) == Walk(mem, v.mmu.dirs[0], p)
  {
    hide Rep, Good, DomsOk, BigOk, DirsOk, TablesOk, CountsOk, DataOk, PagesOk, Owned, Walk, Band;
    OwnedEntry(v, p);
    BandByAddress(p);
    WalkFinds(mem, v.mmu, 0, p);
    WalkFinds(mem, v.mmu, Band(p), p);
  }

  lemma BandByAddress(p: nat)
    ensures Band(p) == if p < 0x8_0000 then p / 0x1_0000 else 8
  {
  }

  /** Distinct pages lie in distinct frames. */
  lemma DistinctFrames(mem: Memory, v: View, p: nat, q: nat)
    requires Rep(mem, v.mmu) && Inv(v) && Owned(v, p) && Owned(v, q) && p != q
    ensures p < PAGES && q < PAGES && v.mmu.dirs[0] < DIRECT_FRAMES
    ensures Mapped(mem, v.mmu.dirs[0], p) && Mapped(mem, v.mmu.dirs[0], q)
    ensures FrameOf(mem, v.mmu.dirs[0], p) != FrameOf(mem, v.mmu.dirs[0], q)
  {
    hide Rep, Good, DomsOk, BigOk, DirsOk, TablesOk, CountsOk, DataOk, PagesOk, Owned, Walk, Band;
    OwnedEntry(v, p);
    OwnedEntry(v, q);
    WalkFinds(mem, v.mmu, 0, p);
    WalkFinds(mem, v.mmu, 0, q);
  }

  /** All directories agree on every address from 0xC0000000 up: it is the direct map. */
  lemma SharedKernelHalf(mem: Memory, v: View, d: nat, p: nat)
    requires Rep(mem, v.mmu) && d < |v.mmu.dirs| && KERNEL_PAGE <= p < PAGES
    ensures v.mmu.dirs[d] < DIRECT_FRAMES
    ensures Walk(mem, v.mmu.dirs[d], p) == Some((p - 0xC_0000) * 4096 + 0x103)
  {
    hide PtesRep, WfPdes, WfPtes;
    DirFrame(v.mmu, d);
    assert DirRep(mem, v.mmu, d);
    DirectMap(mem, v.mmu.dirs[0], v.mmu.dirs[d], p - KERNEL_PAGE);
  }

  /**
   * A directory other than the kernel's maps nothing below 0xC0000000 outside its own band. For a
   * process directory that is nothing at all: it is taken as create_process_page_directory leaves it.
   */
  lemma BandOnly(mem: Memory, v: View, d: nat, p: nat)
    requires Rep(mem, v.mmu) && Inv(v) && 0 < d < |v.mmu.dirs| && p < KERNEL_PAGE && Band(p) != d
    ensures v.mmu.dirs[d] < DIRECT_FRAMES
    ensures Walk(mem, v.mmu.dirs[d], p) == None
  {
    hide DomsOk, BigOk, DirsOk, TablesOk, CountsOk, DataOk, PagesOk, WfPtes, PtesRep;
    var i := p / 1024;
    DirFrame(v.mmu, d);
    assert DirRep(mem, v.mmu, d);
    assert (d, i) !in v.mmu.pdes by { NoForeignTable(v.mmu, d, p); }
    assert mem[v.mmu.dirs[d]][i] == PdeWord(v.mmu, d, i) == 0;
  }

  lemma NoForeignTable(m: Mmu, d: nat, p: nat)
    requires Balanced(m) && d > 0 && Band(p) != d
    ensures (d, p / 1024) !in m.pdes
  {
    hide Band, RoleMet, Counted, PagePair;
    if HEAP_PAGE <= p { BandOfIndex(p); }
    forall x | x in m.pdes ensures x != (d, p / 1024) { assert TablePair(m, x.0, x.1); }
  }

  // ---------------------------------------------------------------------------------------
  // Heap memory
  // ---------------------------------------------------------------------------------------

  /** The word at a heap address, through the kernel directory. */
  function HeapWord(mem: Memory, m: Mmu, va: nat): Word
    requires Rep(mem, m) && PageMapped(m, va / 4096)
  {
    assert PteOk(m, 0, va / 4096);
    mem[m.ptes[(0, va / 4096)].frame][va % 4096 / 4]
  }

  /** Memory after a write to a heap address. */
  function HeapPut(mem: Memory, m: Mmu, va: nat, w: Word): Memory
    requires Rep(mem, m) && PageMapped(m, va / 4096)
  {
    assert PteOk(m, 0, va / 4096);
    Put(mem, m.ptes[(0, va / 4096)].frame, va % 4096 / 4, w)
  }

  lemma HeapAccess(mem: Memory, m: Mmu, va: nat)
    requires Rep(mem, m) && PageMapped(m, va / 4096)
    ensures WfMemory(mem) && |m.dirs| > 0 && m.dirs[0] < DIRECT_FRAMES && Mapped(mem, m.dirs[0], va / 4096)
    ensures HeapWord(mem, m, va) == mem[FrameOf(mem, m.dirs[0], va / 4096)][va % 4096 / 4]
    ensures forall w: Word :: HeapPut(mem, m, va, w) == Put(mem, FrameOf(mem, m.dirs[0], va / 4096), va % 4096 / 4, w)
  {
    hide Walk, DirsRep, PtesRep;
    WalkFinds(mem, m, 0, va / 4096);
  }

  /** Aligned addresses with the same page and word index are equal. */
  lemma SameWord(a: nat, b: nat)
    requires a % 4 == 0 && b % 4 == 0
    ensures a / 4096 == b / 4096 && a % 4096 / 4 == b % 4096 / 4 ==> a == b
  {
    assert a % 4096 % 4 == 0 && b % 4096 % 4 == 0;
  }

  /** Reading back: a heap write changes the word written and no other, and leaves every table as it was. */
  lemma HeapPutGet(mem: Memory, m: Mmu, va: nat, w: Word, a: nat)
    requires Rep(mem, m) && PageMapped(m, va / 4096) && PageMapped(m, a / 4096) && va % 4 == 0 && a % 4 == 0
    ensures Rep(HeapPut(mem, m, va, w), m)
    ensures HeapWord(HeapPut(mem, m, va, w), m, a) == if a == va then w else HeapWord(mem, m, a)
  {
    hide DirsRep, PtesRep, WfFrames, WfPdes;
    assert PteOk(m, 0, va / 4096) && PteOk(m, 0, a / 4096);
    PageWriteKeepsRep(mem, m, m.ptes[(0, va / 4096)].frame, va % 4096 / 4, w);
    SameWord(a, va);
  }

  /** Heap words are untouched when the frames behind pages are. */
  lemma HeapWordStays(mem: Memory, m: Mmu, mem': Memory, m': Mmu, a: nat)
    requires Rep(mem, m) && Rep(mem', m') && PageMapped(m, a / 4096) && PageMapped(m', a / 4096) && KeepsPages(m, m')
    requires forall f | f in m.own && m.own[f].Page? :: f < DIRECT_FRAMES && mem'[f] == mem[f]
    ensures HeapWord(mem', m', a) == HeapWord(mem, m, a)
  {
    hide DirsRep, PtesRep, WfFrames, WfPdes;
    assert PteOk(m, 0, a / 4096);
  }

  lemma WalkAfterPageWrite(mem: Memory, m: Mmu, f: nat, w: nat, value: Word, d: nat, q: nat)
    requires Rep(mem, m) && f in m.own && m.own[f].Page? && w < 1024 && d < |m.dirs| && q < PAGES
    ensures f < DIRECT_FRAMES && m.dirs[d] < DIRECT_FRAMES
    ensures Walk(Put(mem, f, w, value), m.dirs[d], q) == Walk(mem, m.dirs[d], q)
  {
    DirFrame(m, d);
    PdeFrame(mem, m, d, q / 1024);
    assert q / 1024 >= 768 ==> m.dirs[0] + 2 + q / 1024 - 768 < Reserve(m);
    WalkLocal(mem, Put(mem, f, w, value), m.dirs[d], q);
  }

  /** A small live address lies in a carved page. */
  lemma SmallLive(k: nat, d: Dom, va: nat)
    requires k < CLASSES && DomOk(k, d) && BlockOf(k, va) in d.live
    ensures BasePage(k) <= va / 4096 < BasePage(k) + d.carved && va / 4096 == BlockOf(k, va) / 4096
  {
    hide BlockSize, BlocksPerPage, BlockOf;
    var b := BlockOf(k, va);
    LiveIsBlock(k, d, b);
    BlockOfAligned(k, va);
    BlockIndex(k, b);
    SamePage(b, va, BlockSize(k));
  }

  lemma LiveIsBlock(k: nat, d: Dom, b: nat)
    requires k < CLASSES && DomOk(k, d) && b in d.live
    ensures IsBlock(k, d.carved, b)
  {
  }

  lemma SamePage(b: nat, va: nat, size: nat)
    requires b <= va < b + size && b % 4096 + size <= 4096
    ensures va / 4096 == b / 4096
  {
  }

  lemma BlockOfAligned(k: nat, va: nat)
    requires k < CLASSES
    ensures BlockOf(k, va) % BlockSize(k) == 0 && BlockOf(k, va) <= va < BlockOf(k, va) + BlockSize(k)
  {
    BlockFacts(k);
    hide BlockSize;
    var b := BlockSize(k);
    assert va == va / b * b + va % b;
    DivMod(va - va % b, b, va / b, 0);
  }

  lemma LivePageMapped(v: View, va: nat)
    requires Inv(v) && LiveWord(v, va)
    ensures PageMapped(v.mmu, va / 4096) && va < 0xC000_0000 && HEAP_PAGE <= va / 4096
  {
    hide Good, DomsOk, DirsOk, TablesOk, CountsOk, DataOk, PagesOk;
    if va < 0x8000_0000 {
      var k := va / 0x1000_0000 - 1;
      InvDom(v, k);
      SmallLive(k, v.doms[k], va);
    } else {
      var s :| s in v.big.live && s * 4096 + 4 <= va < (s + v.big.live[s]) * 4096;
      assert Within(v.big, s, v.big.live[s]);
      assert LivePage(v.big, va / 4096);
    }
    PageKnown(v, va / 4096);
  }

  // ---------------------------------------------------------------------------------------
  // Processes
  // ---------------------------------------------------------------------------------------

  /** The places of any number of processes: stack and code pages, in directories from the ninth on. */
  predicate OfProcesses(xs: seq<Place>) {
    forall x | x in xs :: 9 <= x.d && (x.page == STACK_PAGE || x.page == CODE_PAGE)
  }

  /** Mapping the pages of processes changes no walk of the kernel's directory or of an allocator's. */
  lemma ProcessesLeaveHeap(mem: Memory, v: View, xs: seq<Place>, e: nat, q: nat)
    requires Rep(mem, v.mmu) && CanPlaceAll(v.mmu, xs) && OfProcesses(xs) && e < 9 && e < |v.mmu.dirs| && q < PAGES
    ensures WfMemory(mem) && v.mmu.dirs[e] < DIRECT_FRAMES
    ensures Walk(PlacedAllMemory(mem, v.mmu, xs), v.mmu.dirs[e], q) == Walk(mem, v.mmu.dirs[e], q)
  {
    hide Rep, Walk, CanPlaceAll;
    PlacesElsewhere(mem, v.mmu, xs, e, q);
  }

  /**
   * Whatever processes have been given their pages, a process directory maps no live heap address
   * outside the 4 MB stretches of those pages: an access with it active finds no page there.
   */
  lemma ProcessDirectoryLacksHeap(mem: Memory, v: View, xs: seq<Place>, d: nat, va: nat)
    requires Rep(mem, v.mmu) && CanPlaceAll(v.mmu, xs) && OfProcesses(xs) && Inv(v)
    requires 9 <= d < |v.mmu.dirs| && LiveWord(v, va)
    requires va / 0x40_0000 != CODE_PAGE / 1024 && va / 0x40_0000 != STACK_PAGE / 1024
    ensures v.mmu.dirs[d] < DIRECT_FRAMES && va / 4096 < PAGES
    ensures Walk(PlacedAllMemory(mem, v.mmu, xs), v.mmu.dirs[d], va / 4096) == None
  {
    hide Inv, Rep, LiveWord, Walk, CanPlaceAll;
    LivePageMapped(v, va);
    BandRange(va / 4096);
    BandOnly(mem, v, d, va / 4096);
    assert va / 4096 / 1024 == va / 0x40_0000;
    PlacesElsewhere(mem, v.mmu, xs, d, va / 4096);
  }

  /**
   * Inside the stretch of the code page it is otherwise: once a user process has its pages, its
   * directory maps 0x10000000, the first block of the 64-byte class, to the process's own frame,
   * which is not the frame of any heap page.
   */
  lemma UserCodeShadowsHeap(mem: Memory, v: View, d: nat)
    requires Rep(mem, v.mmu) && Inv(v) && 9 <= d < |v.mmu.dirs| && CanPlaceAll(v.mmu, PlacesFor(d, true))
    ensures v.mmu.dirs[d] < DIRECT_FRAMES
    ensures exists f: nat ::
              && f !in v.mmu.own
              && Walk(PlacedAllMemory(mem, v.mmu, PlacesFor(d, true)), v.mmu.dirs[d], CODE_PAGE)
                 == Some(f * 4096 + PAGE_USER)
  {
    hide Inv, Rep, Walk, CanPlaceAll, PlacedAllMemory;
    var f, g := UserProcess(mem, v.mmu, d, d, CODE_PAGE);
  }

  /**
   * A client write inside live memory reaches no page table and no other word of the heap: every
   * page of every directory walks as before, and every other heap word reads as before.
   */
  lemma ClientWriteIsolated(mem: Memory, v: View, va: nat, w: Word, d: nat, q: nat, a: nat)
    requires Rep(mem, v.mmu) && Inv(v) && va % 4 == 0 && LiveWord(v, va)
    requires d < |v.mmu.dirs| && q < PAGES && a % 4 == 0 && PageMapped(v.mmu, a / 4096)
    ensures PageMapped(v.mmu, va / 4096) && v.mmu.dirs[d] < DIRECT_FRAMES
    ensures var mem' := HeapPut(mem, v.mmu, va, w);
            && Rep(mem', v.mmu)
            && Walk(mem', v.mmu.dirs[d], q) == Walk(mem, v.mmu.dirs[d], q)
            && HeapWord(mem', v.mmu, a) == if a == va then w else HeapWord(mem, v.mmu, a)
  {
    hide Inv, DirsRep, PtesRep, WfFrames, WfPdes, Walk, LiveWord, DirRep;
    LivePageMapped(v, va);
    assert PteOk(v.mmu, 0, va / 4096);
    WalkAfterPageWrite(mem, v.mmu, v.mmu.ptes[(0, va / 4096)].frame, va % 4096 / 4, w, d, q);
    HeapPutGet(mem, v.mmu, va, w, a);
  }
}
