/**
 * The machine: physical memory, the frame bitmap and the page tables, as lib/pmm.c,
 * lib/paging_manager.c and large_unmap_page change them. Every access to memory after boot
 * goes through the page tables with the kernel directory active.
 */
module Machine {
  import opened Frames
  import opened PageTables
  import opened MapLaw
  import opened Places
  import opened Spaces
  import opened Regions

  /** Virtual address of a frame in the direct map. */
  function DirectAddress(f: nat): Word
    requires f < DIRECT_FRAMES
  {
    f * 4096 + KERNEL_BASE
  }

  lemma ScansAgree(used: set<nat>, reserve: nat)
    requires forall f: nat | f < reserve :: f in used
    ensures FirstFreeFrom(used, reserve) == FirstFree(used)
  {
    var a, b := FirstFreeFrom(used, reserve), FirstFree(used);
    assert b >= reserve;
    assert a <= b && b <= a;
  }

  lemma DirectWordAddress(f: nat, i: nat)
    requires f < DIRECT_FRAMES && i < 1024
    ensures var va := DirectAddress(f) + 4 * i;
            va < 0x1_0000_0000 && va / 4096 == KERNEL_PAGE + f && va % 4 == 0 && va % 4096 / 4 == i
  {
    assert DirectAddress(f) + 4 * i == (f + KERNEL_PAGE) * 4096 + 4 * i;
  }

  /** Word `i` of frame `f`, addressed through the direct map. */
  lemma DirectWord(mem: Memory, m: Mmu, f: nat, i: nat)
    requires Rep(mem, m) && f < DIRECT_FRAMES && i < 1024
    ensures var va := DirectAddress(f) + 4 * i;
            && va < 0x1_0000_0000 && va / 4096 == KERNEL_PAGE + f && va % 4 == 0 && va % 4096 / 4 == i
            && WfMemory(mem) && |m.dirs| > 0 && m.dirs[0] < DIRECT_FRAMES
            && Mapped(mem, m.dirs[0], va / 4096) && FrameOf(mem, m.dirs[0], va / 4096) == f
  {
    DirectWordAddress(f, i);
    DirectFrame(mem, m, f);
  }

  lemma DirectFrame(mem: Memory, m: Mmu, f: nat)
    requires Rep(mem, m) && f < DIRECT_FRAMES
    ensures Mapped(mem, m.dirs[0], KERNEL_PAGE + f) && FrameOf(mem, m.dirs[0], KERNEL_PAGE + f) == f
  {
    hide Walk, PdeWord, WfPdes, WfPtes, PtesRep;
    DirFrame(m, 0);
    assert DirRep(mem, m, 0);
    DirectMap(mem, m.dirs[0], m.dirs[0], f);
  }

  /** What map_page reads from the directory. */
  lemma PdeLookup(mem: Memory, m: Mmu, d: nat, i: nat)
    requires Rep(mem, m) && d < |m.dirs| && i < 768
    ensures Wf(m) && m.dirs[d] < DIRECT_FRAMES
    ensures var pde := mem[m.dirs[d]][i];
            && (pde % 2 == 1 <==> (d, i) in m.pdes)
            && ((d, i) in m.pdes ==> pde - pde % 4096 == TableOf(m, d, i) * 4096)
  {
    hide PtesRep, WfPtes, DirectTables, KernelHalf;
    DirFrame(m, d);
    assert DirRep(mem, m, d);
    if (d, i) in m.pdes {
      assert PdeOk(m, d, i);
      EntryParts(TableOf(m, d, i), m.pdes[(d, i)].flags);
    }
  }

  /** The entry and the table a new index gets. */
  lemma NewTableFacts(mem: Memory, m: Mmu, d: nat, p: nat, frame: nat, flags: nat)
    requires Rep(mem, m) && CanMap(m, d, p, frame, flags) && (d, p / 1024) !in m.pdes
    ensures m.dirs[d] < DIRECT_FRAMES && m.dirs[0] + KERNEL_TABLES <= DIRECT_FRAMES
    ensures var t := if d == 0 && p / 1024 == 0 then m.dirs[0] + 1 else NextFrame(m);
            var m' := WithTable(m, d, p, flags);
            && t < DIRECT_FRAMES && m'.dirs == m.dirs && m'.cleared == m.cleared
            && m'.own == (if d == 0 && p / 1024 == 0 then m.own else Take(m, Table(d, p / 1024)).own)
            && Rep(TableMemory(mem, m, d, p, frame, flags), m')
            && (d, p / 1024) in m'.pdes && Wf(m') && TableOf(m', d, p / 1024) == t
            && TableMemory(mem, m, d, p, frame, flags) == Put(mem, m.dirs[d], p / 1024, t * 4096 + flags)
  {
    hide PtesRep, WfPtes, DirectTables, KernelHalf, DirsRep;
    WithTableRep(mem, m, d, p, frame, flags);
    InstallKeepsWf(m, d, p / 1024, flags);
    DirFrame(m, d);
  }

  lemma MapFacts(mem: Memory, m: Mmu, d: nat, p: nat, frame: nat, flags: nat)
    requires Rep(mem, m) && CanMap(m, d, p, frame, flags)
    ensures var m1 := WithTable(m, d, p, flags); var m' := Map(m, d, p, frame, flags);
            && m'.dirs == m1.dirs && m'.own == m1.own && m'.cleared == m1.cleared
            && Rep(MapMemory(mem, m, d, p, frame, flags), m')
            && Wf(m1) && (d, p / 1024) in m1.pdes && WfMemory(TableMemory(mem, m, d, p, frame, flags))
            && MapMemory(mem, m, d, p, frame, flags)
               == Put(TableMemory(mem, m, d, p, frame, flags), TableOf(m1, d, p / 1024), p % 1024, frame * 4096 + flags)
  {
    hide PtesRep, WfPtes, DirectTables, KernelHalf, DirsRep;
    WithTableRep(mem, m, d, p, frame, flags);
    MapKeepsRep(mem, m, d, p, frame, flags);
  }

  /**
   * The table map_page installs: the static one for index 0 of the kernel directory, otherwise the
   * lowest unmarked frame, which is then marked. The directory entry is its address with the flags.
   */
  lemma TableInstalled(mem: Memory, m: Mmu, d: nat, p: nat, frame: nat, flags: nat)
    requires Rep(mem, m) && CanMap(m, d, p, frame, flags) && (d, p / 1024) !in m.pdes
    ensures m.dirs[d] < DIRECT_FRAMES
    ensures var t := if d == 0 && p / 1024 == 0 then m.dirs[0] + 1 else NextFrame(m);
            && MapMemory(mem, m, d, p, frame, flags)[m.dirs[d]][p / 1024] == t * 4096 + flags
            && Map(m, d, p, frame, flags).own.Keys == m.own.Keys + {t}
            && (t == NextFrame(m) ==> t !in m.own && forall g: nat | g < t :: g in m.own)
  {
    hide DirsRep, PtesRep, WfPdes, WfPtes, Walk, TableMemory, WithTable, MapMemory, Map, Install, NextFrame;
    NewTableFacts(mem, m, d, p, frame, flags);
    MapFacts(mem, m, d, p, frame, flags);
    DirFrame(m, d);
    StaticTable(m);
    LowestFree(m);
    var t := if d == 0 && p / 1024 == 0 then m.dirs[0] + 1 else NextFrame(m);
    assert t != m.dirs[d];
    assert TableMemory(mem, m, d, p, frame, flags)[m.dirs[d]] == mem[m.dirs[d]][p / 1024 := t * 4096 + flags];
  }

  lemma LowestFree(m: Mmu)
    ensures NextFrame(m) !in m.own && forall g: nat | g < NextFrame(m) :: g in m.own
  {
  }

  lemma StaticTable(m: Mmu)
    requires Wf(m)
    ensures m.dirs[0] + 1 in m.own && m.own[m.dirs[0] + 1] == Reserved
  {
  }

  /** Frames that back pages hold what they held. */
  ghost predicate PageFramesKept(m: Mmu, mem: Memory, mem': Memory) {
    && InDirect(m) && WfMemory(mem) && WfMemory(mem')
    && forall f | f in m.own && m.own[f].Page? :: mem'[f] == mem[f]
  }

  lemma KernelEntry(mem: Memory, m: Mmu, i: nat)
    requires Rep(mem, m) && 768 <= i < 1024
    ensures m.dirs[0] < DIRECT_FRAMES && mem[m.dirs[0]][i] == (m.dirs[0] + 2 + i - 768) * 4096 + PAGE_KERNEL
  {
    assert DirRep(mem, m, 0);
  }

  lemma NewDirFacts(mem: Memory, m: Mmu)
    requires Rep(mem, m)
    ensures |m.dirs| > 0 && m.dirs[0] + KERNEL_TABLES <= DIRECT_FRAMES
    ensures NewDir(m).own == Take(m, Directory(|m.dirs|)).own && NewDir(m).cleared == m.cleared
    ensures |NewDir(m).dirs| > 0 && NewDir(m).dirs[0] == m.dirs[0]
  {
  }

  lemma NewDirMemory(mem: Memory, mem': Memory, m: Mmu)
    requires Rep(mem, m) && NextFrame(m) < DIRECT_FRAMES
    requires SameExcept(mem, mem', NextFrame(m)) && FreshDirectory(mem', m.dirs[0], NextFrame(m))
    ensures Rep(mem', NewDir(m)) && PageFramesKept(m, mem, mem')
  {
    hide DirsRep, PtesRep, WfPdes, WfPtes, FreshDirectory;
    NewDirRep(mem, mem', m);
  }

  /** map_page writes only to tables and directories. */
  lemma MapKeepsPageFrames(mem: Memory, m: Mmu, d: nat, p: nat, frame: nat, flags: nat)
    requires Rep(mem, m) && CanMap(m, d, p, frame, flags)
    ensures PageFramesKept(m, mem, MapMemory(mem, m, d, p, frame, flags))
  {
    hide PtesRep, DirsRep, WfPtes;
    var mem1, m1 := TableMemory(mem, m, d, p, frame, flags), WithTable(m, d, p, flags);
    WithTableRep(mem, m, d, p, frame, flags);
    DirFrame(m, d);
    var t := TableOf(m1, d, p / 1024);
  }

  lemma AddableFacts(m: Mmu, p: nat)
    requires Good(m) && Addable(m, p)
    ensures |m.dirs| > 0 && Band(p) < |m.dirs|
  {
    hide Wf, Balanced, InDirect, AddPage, Band;
  }

  /** The directories after the first of the two map_page calls. */
  lemma FirstMap(mem: Memory, m: Mmu, p: nat)
    requires Wf(m) && Addable(m, p) && Rep(mem, Taken(m, p))
        && CanMap(Taken(m, p), Band(p), p, NextFrame(m), PAGE_KERNEL)
    ensures Taken(m, p).dirs == m.dirs && HalfAdded(m, p).dirs == m.dirs && m.dirs[0] < DIRECT_FRAMES
    ensures PageFramesKept(m, mem, MapMemory(mem, Taken(m, p), Band(p), p, NextFrame(m), PAGE_KERNEL))
  {
    hide Rep, WfPdes, WfPtes, Map, MapMemory, CanMap;
    MapGrows(Taken(m, p), Band(p), p, NextFrame(m));
    DirFrame(m, 0);
    MapKeepsPageFrames(mem, Taken(m, p), Band(p), p, NextFrame(m), PAGE_KERNEL);
  }

  lemma SecondMap(mem0: Memory, mem: Memory, m: Mmu, p: nat)
    requires Wf(m) && Addable(m, p) && Rep(mem, HalfAdded(m, p))
        && CanMap(HalfAdded(m, p), 0, p, NextFrame(m), PAGE_KERNEL)
    requires PageFramesKept(m, mem0, mem)
    ensures PageFramesKept(m, mem0, MapMemory(mem, HalfAdded(m, p), 0, p, NextFrame(m), PAGE_KERNEL))
  {
    hide Rep, Wf, Map, MapMemory, CanMap;
    var m2 := HalfAdded(m, p);
    MapGrows(Taken(m, p), Band(p), p, NextFrame(m));
    MapKeepsPageFrames(mem, m2, 0, p, NextFrame(m), PAGE_KERNEL);
    forall f | f in m.own && m.own[f].Page? ensures f in m2.own && m2.own[f].Page? {
      NextIsFree(m);
      NextIsFree(Taken(m, p));
    }
  }

  /** Zeroing a page's entry in directory d. */
  lemma EntryErased(mem: Memory, m: Mmu, d: nat, p: nat)
    requires Rep(mem, m) && (d, p) in m.ptes
    ensures d < |m.dirs| && p < KERNEL_PAGE && (d, p / 1024) in m.pdes
    ensures var mem' := Put(mem, TableOf(m, d, p / 1024), p % 1024, 0);
            Rep(mem', m.(ptes := m.ptes - {(d, p)})) && PageFramesKept(m, mem, mem')
  {
    hide DirsRep, PtesRep;
    assert PteOk(m, d, p);
    assert PdeOk(m, d, p / 1024);
    ErasePteKeepsRep(mem, m, d, p);
  }

  lemma EraseFacts(mem: Memory, m: Mmu, p: nat)
    requires Rep(mem, m) && (0, p) in m.ptes
    requires forall x | x in m.ptes && x != (0, p) :: m.ptes[x].frame != m.ptes[(0, p)].frame
    ensures |m.dirs| > 0 && m.dirs[0] < DIRECT_FRAMES && p < KERNEL_PAGE && (0, p / 1024) in m.pdes
    ensures var f := m.ptes[(0, p)].frame; var m2 := m.(ptes := m.ptes - {(0, p)});
            var mem' := Put(mem, TableOf(m, 0, p / 1024), p % 1024, 0);
            var entry := mem[TableOf(m, 0, p / 1024)][p % 1024];
            && Rep(mem', m2) && Rep(mem', Release(m2, f)) && PageFramesKept(m, mem, mem')
            && f in m.own && f < DIRECT_FRAMES && |m2.own| == |m.own| && |Release(m2, f).own| == |m.own| - 1
            && entry - entry % 4096 == f * 4096
  {
    hide DirsRep, WfPdes, DirRep;
    EntryErased(mem, m, 0, p);
    assert PteOk(m, 0, p) && PteRep(mem, m, 0, p);
    EntryParts(m.ptes[(0, p)].frame, m.ptes[(0, p)].flags);
    var f, m2 := m.ptes[(0, p)].frame, m.(ptes := m.ptes - {(0, p)});
    ReleaseKeepsRep(Put(mem, TableOf(m, 0, p / 1024), p % 1024, 0), m2, f);
    RemoveSize(m.own, f);
  }

  lemma UnmapFacts(mem: Memory, m: Mmu, p: nat)
    requires Rep(mem, m) && Balanced(m) && LARGE_PAGE <= p && (0, p) in m.ptes
    ensures (8, p) in m.ptes && 8 < |m.dirs| && p < KERNEL_PAGE && (8, p / 1024) in m.pdes
    ensures var m1 := m.(ptes := m.ptes - {(8, p)});
            && Rep(Put(mem, TableOf(m, 8, p / 1024), p % 1024, 0), m1) && (0, p) in m1.ptes
            && PageFramesKept(m, mem, Put(mem, TableOf(m, 8, p / 1024), p % 1024, 0))
            && forall x | x in m1.ptes && x != (0, p) :: m1.ptes[x].frame != m1.ptes[(0, p)].frame
  {
    hide DirsRep, PtesRep, WfFrames, WfPdes, WfPtes, Balanced, DropPage;
    DropPageSteps(m, p);
    EntryErased(mem, m, 8, p);
    var m1 := m.(ptes := m.ptes - {(8, p)});
    forall x | x in m1.ptes && x != (0, p) ensures m1.ptes[x].frame != m1.ptes[(0, p)].frame {
      assert x in Unmapped(m, p).ptes;
    }
  }

  /** Only directory 0 lies in the kernel's frame. */
  lemma KernelDirOnly(m: Mmu, d: nat)
    requires Wf(m) && d < |m.dirs|
    ensures m.dirs[d] == m.dirs[0] <==> d == 0
    ensures m.dirs[0] + KERNEL_TABLES <= DIRECT_FRAMES
  {
    DirFrame(m, d);
    DirFrame(m, 0);
  }

  lemma DirectIndex(n: nat)
    requires n < DIRECT_FRAMES
    ensures var virt := n * 4096 + KERNEL_BASE; var t := virt / 0x40_0000 - 768;
            0 <= t < 256 && t * 1024 <= n < (t + 1) * 1024 && virt / 4096 % 1024 == n - t * 1024
  {
    assert n * 4096 + KERNEL_BASE == (n / 1024 + 768) * 0x40_0000 + n % 1024 * 4096;
  }

  /** The first n frames are in the direct map, and nothing else has changed. */
  predicate KernelMapped(was: Memory, mem: Memory, kdir: nat, n: nat)
    requires kdir + KERNEL_TABLES <= DIRECT_FRAMES && WfMemory(was)
  {
    && WfMemory(mem)
    && (forall i | 0 <= i < 768 :: mem[kdir][i] == was[kdir][i])
    && (forall i | 768 <= i < 1024 && (i - 768) * 1024 < n :: mem[kdir][i] == (kdir + 2 + i - 768) * 4096 + PAGE_KERNEL)
    && (forall t, w | kdir + 2 <= t < kdir + KERNEL_TABLES && 0 <= w < 1024 && (t - kdir - 2) * 1024 + w < n ::
          mem[t][w] == ((t - kdir - 2) * 1024 + w) * 4096 + PAGE_KERNEL + PAGE_GLOBAL)
    && (forall f | 0 <= f < DIRECT_FRAMES && !(kdir <= f < kdir + KERNEL_TABLES) :: mem[f] == was[f])
  }

  lemma AllUnmapped(mem: Memory, kdir: nat)
    requires kdir + KERNEL_TABLES <= DIRECT_FRAMES && WfMemory(mem)
    ensures KernelMapped(mem, mem, kdir, 0)
  {
  }

  lemma AllMapped(was: Memory, mem: Memory, kdir: nat)
    requires kdir + KERNEL_TABLES <= DIRECT_FRAMES && WfMemory(was) && KernelMapped(was, mem, kdir, DIRECT_FRAMES)
    ensures WfMemory(mem) && KernelHalf(mem, kdir, kdir) && DirectTables(mem, kdir)
    ensures forall i | 0 <= i < 768 :: mem[kdir][i] == was[kdir][i]
    ensures forall f | 0 <= f < DIRECT_FRAMES && !(kdir <= f < kdir + KERNEL_TABLES) :: mem[f] == was[f]
  {
  }

  /** The directory entry of table t: there inside a 4 MB stretch, free to be written at its start. */
  lemma DirectEntryStep(was: Memory, mem: Memory, kdir: nat, n: nat, t: nat)
    requires kdir + KERNEL_TABLES <= DIRECT_FRAMES && WfMemory(was) && t < 256 && t * 1024 <= n < (t + 1) * 1024
    requires KernelMapped(was, mem, kdir, n)
    ensures WfMemory(mem)
    ensures var entry := (kdir + 2 + t) * 4096 + PAGE_KERNEL;
            if n == t * 1024 then KernelMapped(was, Put(mem, kdir, 768 + t, entry), kdir, n)
            else mem[kdir][768 + t] == entry
  {
  }

  lemma DirectWordStep(was: Memory, mem: Memory, kdir: nat, n: nat, t: nat)
    requires kdir + KERNEL_TABLES <= DIRECT_FRAMES && WfMemory(was) && t < 256 && t * 1024 <= n < (t + 1) * 1024
    requires KernelMapped(was, mem, kdir, n)
    requires mem[kdir][768 + t] == (kdir + 2 + t) * 4096 + PAGE_KERNEL
    ensures KernelMapped(was, Put(mem, kdir + 2 + t, n - t * 1024, n * 4096 + PAGE_KERNEL + PAGE_GLOBAL), kdir, n + 1)
  {
  }

  lemma BootRep(mem: Memory, kdir: nat)
    requires kdir + KERNEL_TABLES <= DIRECT_FRAMES && WfMemory(mem)
    requires KernelHalf(mem, kdir, kdir) && DirectTables(mem, kdir)
    requires forall i | 0 <= i < 768 :: mem[kdir][i] == 0
    ensures var m := BootMmu(kdir);
            && Rep(mem, m) && m.dirs[0] == kdir && m.own.Keys == Below(kdir + KERNEL_TABLES)
            && |m.own| + m.cleared == kdir + KERNEL_TABLES
  {
    BootGood(kdir);
    assert DirRep(mem, BootMmu(kdir), 0);
  }

  class Paging {
    const frames: FrameBitmap
    /** Frame of _kernel_page_dir. */
    const kdir: nat
    var mem: Memory
    ghost var m: Mmu

    ghost predicate Valid()
      reads this, frames, frames.bitmap
    {
      && Rep(mem, m) && m.dirs[0] == kdir
      && frames.Valid() && frames.reserve == kdir + KERNEL_TABLES
      && frames.used == m.own.Keys
      && frames.usedFrames == (|m.own| + m.cleared) % 0x1_0000_0000
    }

    /** The machine as the boot loader leaves it: memory holds anything. */
    constructor (kdir: nat, ram: Memory)
      requires kdir + KERNEL_TABLES <= DIRECT_FRAMES && WfMemory(ram)
      ensures this.kdir == kdir && mem == ram && fresh(frames) && fresh(frames.bitmap)
      ensures frames.reserve == kdir + KERNEL_TABLES && frames.bitmap.Length == BITMAP_SIZE && frames.usedFrames == 0
    {
      this.kdir := kdir;
      mem := ram;
      m := BootMmu(kdir);
      frames := new FrameBitmap(kdir + KERNEL_TABLES);
    }

    /** init_paging, then init_pmm: the order of kernel_main. */
    method Boot()
      requires kdir + KERNEL_TABLES <= DIRECT_FRAMES && WfMemory(mem)
      requires frames.reserve == kdir + KERNEL_TABLES && frames.bitmap.Length == BITMAP_SIZE && frames.usedFrames == 0
      modifies this, frames, frames.bitmap
      ensures Valid() && m == BootMmu(kdir)
    {
      hide Rep, BootMmu;
      InitPaging();
      frames.InitPmm();
      m := BootMmu(kdir);
    }

    /** init_paging: the kernel directory and the direct map. */
    method InitPaging()
      requires kdir + KERNEL_TABLES <= DIRECT_FRAMES && WfMemory(mem)
      modifies this`mem
      ensures var m := BootMmu(kdir);
              && Rep(mem, m) && m.dirs[0] == kdir && m.own.Keys == Below(kdir + KERNEL_TABLES)
              && |m.own| + m.cleared == kdir + KERNEL_TABLES
    {
      hide Rep, BootMmu, KernelHalf, DirectTables;
      SetupEntries();
      MapKernelMemory();
      BootRep(mem, kdir);
    }

    /** setup_entries: no entry of the kernel directory or of its first table is present. */
    method SetupEntries()
      requires kdir + KERNEL_TABLES <= DIRECT_FRAMES && WfMemory(mem)
      modifies this`mem
      ensures WfMemory(mem)
      ensures forall i | 0 <= i < 1024 :: mem[kdir][i] == 0 && mem[kdir + 1][i] == 0
      ensures forall f | 0 <= f < DIRECT_FRAMES && f != kdir && f != kdir + 1 :: mem[f] == old(mem)[f]
    {
      for i := 0 to 1024
        invariant WfMemory(mem)
        invariant forall j | 0 <= j < i :: mem[kdir][j] == 0 && mem[kdir + 1][j] == 0
        invariant forall f | 0 <= f < DIRECT_FRAMES && f != kdir && f != kdir + 1 :: mem[f] == old(mem)[f]
      {
        mem := Put(mem, kdir, i, 0);
        mem := Put(mem, kdir + 1, i, 0);
      }
    }

    /**
     * map_kernel_memory: one table per 4 MB, taken from the reserved slots and cached while the
     * directory index stays the same.
     */
    method MapKernelMemory()
      requires kdir + KERNEL_TABLES <= DIRECT_FRAMES && WfMemory(mem)
      modifies this`mem
      ensures WfMemory(mem) && KernelHalf(mem, kdir, kdir) && DirectTables(mem, kdir)
      ensures forall i | 0 <= i < 768 :: mem[kdir][i] == old(mem)[kdir][i]
      ensures forall f | 0 <= f < DIRECT_FRAMES && !(kdir <= f < kdir + KERNEL_TABLES) :: mem[f] == old(mem)[f]
    {
      AllUnmapped(mem, kdir);
      hide KernelMapped, KernelHalf, DirectTables;
      var current: nat := 0;
      var last := 0xFFFF_FFFF;
      for n := 0 to DIRECT_FRAMES
        invariant Cached(n, current, last) && KernelMapped(old(mem), mem, kdir, n)
      {
        current, last := MapKernelFrame(old(mem), n, current, last);
      }
      AllMapped(old(mem), mem, kdir);
    }

    /** The cached table belongs to the frame mapped last. */
    predicate Cached(n: nat, current: nat, last: nat) {
      if n == 0 then last == 0xFFFF_FFFF
      else && 768 <= last < 1024 && (last - 768) * 1024 < n <= (last - 767) * 1024
           && current == kdir + 2 + last - 768
    }

    /** One round of map_kernel_memory, for frame n. */
    method MapKernelFrame(ghost was: Memory, n: nat, cached: nat, lastDirIndex: nat) returns (current: nat, last: nat)
      requires kdir + KERNEL_TABLES <= DIRECT_FRAMES && WfMemory(was) && n < DIRECT_FRAMES
      requires Cached(n, cached, lastDirIndex) && KernelMapped(was, mem, kdir, n)
      modifies this`mem
      ensures Cached(n + 1, current, last) && KernelMapped(was, mem, kdir, n + 1)
    {
      hide KernelMapped;
      current, last := cached, lastDirIndex;
      var virt := n * 4096 + KERNEL_BASE;
      var dirIndex, tableIndex := virt / 0x40_0000, virt / 4096 % 1024;
      DirectIndex(n);
      DirectEntryStep(was, mem, kdir, n, dirIndex - 768);
      if dirIndex != last {
        var slot := dirIndex - 768;
        current := kdir + 2 + slot;
        mem := Put(mem, kdir, dirIndex, current * 4096 + PAGE_KERNEL);
        last := dirIndex;
      }
      DirectWordStep(was, mem, kdir, n, dirIndex - 768);
      mem := Put(mem, current, tableIndex, n * 4096 + PAGE_KERNEL + PAGE_GLOBAL);
    }

    /** An address the processor can access without a page fault. */
    ghost predicate Accessible(va: Word)
      reads this
    {
      WfMemory(mem) && kdir < DIRECT_FRAMES && va % 4 == 0 && Mapped(mem, kdir, va / 4096)
    }

    /** The word at a virtual address. */
    ghost function At(va: Word): Word
      requires Accessible(va)
      reads this
    {
      mem[FrameOf(mem, kdir, va / 4096)][va % 4096 / 4]
    }

    method Load(va: Word) returns (w: Word)
      requires Accessible(va)
      ensures w == At(va)
    {
      w := mem[FrameOf(mem, kdir, va / 4096)][va % 4096 / 4];
    }

    method Store(va: Word, w: Word)
      requires Accessible(va)
      modifies this`mem
      ensures mem == Put(old(mem), FrameOf(old(mem), kdir, va / 4096), va % 4096 / 4, w)
    {
      mem := Put(mem, FrameOf(mem, kdir, va / 4096), va % 4096 / 4, w);
    }

    /** get_next_free_process_frame; its halt loop and its null result are out of reach here. */
    method GetNextFreeProcessFrame(ghost role: Role) returns (phys: Word)
      requires Valid() && NextFrame(m) < DIRECT_FRAMES && role != Reserved
      modifies this`m, frames`used, frames`usedFrames, frames.bitmap
      ensures Valid() && m == Take(old(m), role) && phys == NextFrame(old(m)) * 4096
    {
      hide Rep, Wf;
      TakeKeepsRep(mem, m, role);
      InsertSize(m.own, NextFrame(m), role);
      ReservedUsed();
      var halted;
      halted, phys := frames.GetNextFreeProcessFrame();
      m := Take(m, role);
    }

    /** get_next_free_kernel_frame. */
    method GetNextFreeKernelFrame(ghost role: Role) returns (phys: Word)
      requires Valid() && NextFrame(m) < DIRECT_FRAMES && role != Reserved
      modifies this`m, frames`used, frames`usedFrames, frames.bitmap
      ensures Valid() && m == Take(old(m), role) && phys == NextFrame(old(m)) * 4096
    {
      hide Rep, Wf;
      TakeKeepsRep(mem, m, role);
      InsertSize(m.own, NextFrame(m), role);
      ReservedUsed();
      ScansAgree(frames.used, frames.reserve);
      phys := frames.GetNextFreeKernelFrame();
      m := Take(m, role);
    }

    lemma ReservedUsed()
      requires Valid()
      ensures forall f: nat | f < frames.reserve :: f in frames.used
    {
    }

    /** The first half of map_page: the table of index `dirIndex`, made if there is none. */
    method FindTable(dir: Word, dirIndex: nat, flags: Word, ghost d: nat, ghost p: nat, ghost frame: nat)
      returns (table: Word)
      requires Valid() && CanMap(m, d, p, frame, flags) && dirIndex == p / 1024
      requires m.dirs[d] < DIRECT_FRAMES && dir == DirectAddress(m.dirs[d])
      modifies this`mem, this`m, frames`used, frames`usedFrames, frames.bitmap
      ensures Valid() && m == WithTable(old(m), d, p, flags)
      ensures mem == TableMemory(old(mem), old(m), d, p, frame, flags)
      ensures (d, p / 1024) in m.pdes && table == DirectAddress(TableOf(m, d, p / 1024))
    {
      hide Rep, Wf, WfPtes, Walk;
      DirectWord(mem, m, m.dirs[d], dirIndex);
      PdeLookup(mem, m, d, dirIndex);
      var pde := Load(dir + 4 * dirIndex);
      if pde % 2 == 1 {
        table := pde - pde % 4096 + KERNEL_BASE;
      } else {
        table := NewTable(dir, dirIndex, flags, d, p, frame);
      }
    }

    /** The branch of map_page that installs a table: the static one for kernel index 0, else a new frame. */
    method NewTable(dir: Word, dirIndex: nat, flags: Word, ghost d: nat, ghost p: nat, ghost frame: nat)
      returns (table: Word)
      requires Valid() && CanMap(m, d, p, frame, flags) && dirIndex == p / 1024 && (d, dirIndex) !in m.pdes
      requires m.dirs[d] < DIRECT_FRAMES && dir == DirectAddress(m.dirs[d])
      modifies this`mem, this`m, frames`used, frames`usedFrames, frames.bitmap
      ensures Valid() && m == WithTable(old(m), d, p, flags)
      ensures mem == TableMemory(old(mem), old(m), d, p, frame, flags)
      ensures (d, p / 1024) in m.pdes && table == DirectAddress(TableOf(m, d, p / 1024))
    {
      hide Rep, Wf, WfPtes, WfPdes, Walk, TableMemory, WithTable;
      NewTableFacts(mem, m, d, p, frame, flags);
      KernelDirOnly(m, d);
      ghost var m' := WithTable(m, d, p, flags);
      if dir == DirectAddress(kdir) && dirIndex == 0 {
        table := DirectAddress(kdir + 1);
        DirectWord(mem, m, m.dirs[d], dirIndex);
        Store(dir + 4 * dirIndex, table - KERNEL_BASE + flags);
      } else {
        var phys := GetNextFreeKernelFrame(Table(d, dirIndex));
        table := phys + KERNEL_BASE;
        DirectWord(mem, m, m.dirs[d], dirIndex);
        Store(dir + 4 * dirIndex, phys + flags);
      }
      m := m';
    }

    /** map_page. */
    method MapPage(dir: Word, va: Word, phys: Word, flags: Word, ghost d: nat)
      requires Valid() && va < KERNEL_BASE && phys % 4096 == 0 && CanMap(m, d, va / 4096, phys / 4096, flags)
      requires m.dirs[d] < DIRECT_FRAMES && dir == DirectAddress(m.dirs[d])
      modifies this`mem, this`m, frames`used, frames`usedFrames, frames.bitmap
      ensures Valid() && m == Map(old(m), d, va / 4096, phys / 4096, flags)
      ensures mem == MapMemory(old(mem), old(m), d, va / 4096, phys / 4096, flags)
    {
      hide Rep, WfFrames, WfPtes, WfPdes, Walk, TableMemory, WithTable, MapMemory, Map;
      ghost var p, frame := va / 4096, phys / 4096;
      MapFacts(mem, m, d, p, frame, flags);
      ghost var m' := Map(m, d, p, frame, flags);
      var dirIndex, tableIndex := va / 0x40_0000, va / 4096 % 1024;
      var table := FindTable(dir, dirIndex, flags, d, p, frame);
      DirectWord(mem, m, TableOf(m, d, p / 1024), tableIndex);
      Store(table + 4 * tableIndex, phys + flags);
      m := m';
    }

    /** The two calls of create_process for each page of a process. */
    method PlacePage(dir: Word, va: Word, flags: Word, ghost d: nat)
      requires Valid() && va % 4096 == 0 && va < KERNEL_BASE && CanPlace(m, Place(d, va / 4096, flags))
      requires d < |m.dirs| && m.dirs[d] < DIRECT_FRAMES && dir == DirectAddress(m.dirs[d])
      modifies this`mem, this`m, frames`used, frames`usedFrames, frames.bitmap
      ensures Valid() && |old(m).dirs| > 0 && m == Placed(old(m), Place(d, va / 4096, flags))
      ensures mem == PlacedMemory(old(mem), old(m), Place(d, va / 4096, flags))
    {
      hide Rep, Wf, Walk, MapMemory, Map, CanMap, NextFrame;
      var phys := GetNextFreeProcessFrame(Page(va / 4096));
      MapPage(dir, va, phys, flags, d);
    }

    /** The pages create_process maps in the directory of a new process. */
    method MapProcess(dir: Word, isUser: bool, ghost d: nat)
      requires Valid() && d < |m.dirs| && CanPlaceAll(m, PlacesFor(d, isUser))
      requires m.dirs[d] < DIRECT_FRAMES && dir == DirectAddress(m.dirs[d])
      modifies this`mem, this`m, frames`used, frames`usedFrames, frames.bitmap
      ensures Valid() && |old(m).dirs| > 0 && m == PlacedAll(old(m), PlacesFor(d, isUser))
      ensures mem == PlacedAllMemory(old(mem), old(m), PlacesFor(d, isUser))
    {
      hide Rep, CanPlace, Placed, PlacedMemory, CanPlaceAll, PlacedAll, PlacedAllMemory;
      if isUser {
        TwoPlaces(mem, m, Place(d, STACK_PAGE, PAGE_USER), Place(d, CODE_PAGE, PAGE_USER));
        PlacePage(dir, 0xBFFF_F000, PAGE_USER, d);
        PlacePage(dir, 0x1000_0000, PAGE_USER, d);
      } else {
        OnePlace(mem, m, Place(d, STACK_PAGE, PAGE_KERNEL));
        PlacePage(dir, 0xBFFF_F000, PAGE_KERNEL, d);
      }
    }

    /** The pointer to the table of a present directory entry, as large_unmap_page finds it. */
    method TableAddress(dir: Word, dirIndex: nat, ghost d: nat) returns (present: bool, table: Word)
      requires Valid() && d < |m.dirs| && dirIndex < 768
      requires m.dirs[d] < DIRECT_FRAMES && dir == DirectAddress(m.dirs[d])
      ensures present <==> (d, dirIndex) in m.pdes
      ensures present ==> Wf(m) && table == DirectAddress(TableOf(m, d, dirIndex))
    {
      hide Rep, WfFrames, WfPdes, WfPtes, Walk;
      DirectWord(mem, m, m.dirs[d], dirIndex);
      PdeLookup(mem, m, d, dirIndex);
      var pde := Load(dir + 4 * dirIndex);
      present := pde % 2 == 1;
      table := 0;
      if present {
        table := pde - pde % 4096 + KERNEL_BASE;
      }
    }

    /**
     * large_unmap_page: zeroes the entry of a page in the large domain's directory and in the
     * kernel's, and gives its frame back when asked to.
     */
    method LargeUnmapPage(largeDir: Word, virt: Word, freeFrame: bool)
      requires Valid() && Balanced(m) && virt % 4096 == 0 && LARGE_PAGE <= virt / 4096 && PageMapped(m, virt / 4096)
      requires 8 < |m.dirs| && m.dirs[8] < DIRECT_FRAMES && largeDir == DirectAddress(m.dirs[8])
      modifies this`mem, this`m, frames`used, frames.bitmap
      ensures Valid()
      ensures m == if freeFrame then DropPage(old(m), virt / 4096) else Unmapped(old(m), virt / 4096)
      ensures PageFramesKept(old(m), old(mem), mem)
    {
      hide Rep, WfFrames, WfPdes, WfPtes, Walk, Balanced;
      ghost var p := virt / 4096;
      var dirIndex, tableIndex := virt / 0x40_0000, virt / 4096 % 1024;
      UnmapFacts(mem, m, p);
      ghost var m1, m2 := m.(ptes := m.ptes - {(8, p)}), Unmapped(m, p);
      var present, table := TableAddress(largeDir, dirIndex, 8);
      if present {
        DirectWord(mem, m, TableOf(m, 8, p / 1024), tableIndex);
        Store(table + 4 * tableIndex, 0);
      }
      m := m1;
      EraseKernelEntry(dirIndex, tableIndex, freeFrame, p);
    }

    /** clear_frame of the frame a page-table entry names. */
    method ClearEntryFrame(va: Word, ghost f: nat)
      requires frames.Valid() && Accessible(va) && At(va) - At(va) % 4096 == f * 4096 && f < DIRECT_FRAMES
      modifies frames`used, frames.bitmap
      ensures frames.Valid() && frames.used == old(frames.used) - {f}
    {
      var entry := Load(va);
      var word := frames.ClearFrame(entry - entry % 4096);
    }

    /** The second half of large_unmap_page, on the kernel directory. */
    method EraseKernelEntry(dirIndex: nat, tableIndex: nat, freeFrame: bool, ghost p: nat)
      requires Valid() && (0, p) in m.ptes && dirIndex == p / 1024 && tableIndex == p % 1024
      requires forall x | x in m.ptes && x != (0, p) :: m.ptes[x].frame != m.ptes[(0, p)].frame
      modifies this`mem, this`m, frames`used, frames.bitmap
      ensures Valid()
      ensures var m2 := old(m).(ptes := old(m).ptes - {(0, p)});
              m == if freeFrame then Release(m2, old(m).ptes[(0, p)].frame) else m2
      ensures PageFramesKept(old(m), old(mem), mem)
    {
      hide Rep, WfFrames, WfPdes, WfPtes, Walk, PageFramesKept;
      EraseFacts(mem, m, p);
      ghost var f, m2 := m.ptes[(0, p)].frame, m.(ptes := m.ptes - {(0, p)});
      var present, table := TableAddress(DirectAddress(kdir), dirIndex, 0);
      if present {
        DirectWord(mem, m, TableOf(m, 0, p / 1024), tableIndex);
        if freeFrame {
          ClearEntryFrame(table + 4 * tableIndex, f);
        }
        Store(table + 4 * tableIndex, 0);
      }
      m := if freeFrame then Release(m2, f) else m2;
    }

    /** create_process_page_directory, also the first steps of init_heap_domain and init_large_domain. */
    method NewDirectory() returns (dir: Word)
      requires Valid() && NextFrame(m) < DIRECT_FRAMES
      modifies this`mem, this`m, frames`used, frames`usedFrames, frames.bitmap
      ensures Valid() && m == NewDir(old(m)) && dir == DirectAddress(NextFrame(old(m)))
      ensures PageFramesKept(old(m), old(mem), mem)
    {
      hide Rep, Wf;
      ghost var f, m0 := NextFrame(m), m;
      NewDirFacts(mem, m);
      var phys := GetNextFreeKernelFrame(Directory(|m.dirs|));
      dir := phys + KERNEL_BASE;
      ClearDirectory(dir, m0, f);
      CopyKernelHalf(dir, m0, f);
      NewDirMemory(old(mem), mem, m0);
      m := NewDir(m0);
    }

    /** The loop that zeroes a directory. */
    method ClearDirectory(dir: Word, ghost m0: Mmu, ghost f: nat)
      requires Rep(mem, m0) && m0.dirs[0] == kdir && f < DIRECT_FRAMES && f !in m0.own && dir == DirectAddress(f)
      modifies this`mem
      ensures Rep(mem, m0) && SameExcept(old(mem), mem, f) && forall i | 0 <= i < 1024 :: mem[f][i] == 0
    {
      for i := 0 to 1024
        invariant Rep(mem, m0) && SameExcept(old(mem), mem, f) && forall j | 0 <= j < i :: mem[f][j] == 0
      {
        hide Rep, Wf;
        DirectWord(mem, m0, f, i);
        FreeWriteKeepsRep(mem, m0, f, i, 0);
        Store(dir + 4 * i, 0);
      }
    }

    /** The loop that copies entries 768 to 1023 of the kernel directory. */
    method CopyKernelHalf(dir: Word, ghost m0: Mmu, ghost f: nat)
      requires Rep(mem, m0) && m0.dirs[0] == kdir && f < DIRECT_FRAMES && f !in m0.own && dir == DirectAddress(f)
      requires forall i | 0 <= i < 1024 :: mem[f][i] == 0
      modifies this`mem
      ensures Rep(mem, m0) && SameExcept(old(mem), mem, f) && kdir + KERNEL_TABLES <= DIRECT_FRAMES
      ensures FreshDirectory(mem, kdir, f)
    {
      for i := 768 to 1024
        invariant Rep(mem, m0) && SameExcept(old(mem), mem, f)
        invariant forall j | 0 <= j < 768 :: mem[f][j] == 0
        invariant forall j | 768 <= j < i :: mem[f][j] == (kdir + 2 + j - 768) * 4096 + PAGE_KERNEL
      {
        hide Rep, Wf;
        KernelEntry(mem, m0, i);
        DirectWord(mem, m0, kdir, i);
        DirectWord(mem, m0, f, i);
        var entry := Load(DirectAddress(kdir) + 4 * i);
        FreeWriteKeepsRep(mem, m0, f, i, entry);
        Store(dir + 4 * i, entry);
      }
    }

    /**
     * The pair of map_page calls every heap page goes through: a frame from the bitmap, entered
     * in the directory of its band and in the kernel's.
     */
    method AddPageTo(dir: Word, virt: Word)
      requires Valid() && virt % 4096 == 0 && virt < KERNEL_BASE && Good(m) && Addable(m, virt / 4096)
      requires m.dirs[Band(virt / 4096)] < DIRECT_FRAMES && dir == DirectAddress(m.dirs[Band(virt / 4096)])
      modifies this`mem, this`m, frames`used, frames`usedFrames, frames.bitmap
      ensures Valid() && m == AddPage(old(m), virt / 4096) && PageFramesKept(old(m), old(mem), mem)
    {
      hide Rep, Wf, Balanced, Walk, MapMemory, Map, Take, Addable, CanMap, PageFramesKept;
      ghost var p, m0, mem0 := virt / 4096, m, mem;
      ghost var f := NextFrame(m);
      AddableFacts(m, p);
      AddPageSteps(m, p);
      var phys := GetNextFreeProcessFrame(Page(p));
      FirstMap(mem, m0, p);
      MapPage(dir, virt, phys, PAGE_KERNEL, Band(p));
      SecondMap(mem0, mem, m0, p);
      MapPage(DirectAddress(kdir), virt, phys, PAGE_KERNEL, 0);
    }
  }
}
