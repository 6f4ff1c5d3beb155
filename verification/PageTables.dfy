/**
 * Two-level page tables held in physical memory, and the abstract address spaces they stand for.
 *
 * Memory is a sequence of 4 KB frames of 1024 words. `Walk` is the reference translation of
 * section 4.3 (32-Bit Paging) of the Intel SDM, Volume 3A. `Mmu` is the abstract state: which
 * role each marked frame plays, which directories exist and which entries have been installed.
 * `Rep` ties the two together.
 */
module PageTables {
  import opened Frames

  // ---------------------------------------------------------------------------------------
  // Physical memory
  // ---------------------------------------------------------------------------------------

  /** Frames below this one lie in the 1 GB direct map at 0xC0000000. */
  const DIRECT_FRAMES: nat := 0x4_0000

  /** Pages of a 32-bit address space, and the first page of the kernel half. */
  const PAGES: nat := 0x10_0000
  const KERNEL_PAGE: nat := 0xC_0000

  const PAGE_KERNEL: nat := 0x3
  const PAGE_GLOBAL: nat := 0x100

  type Memory = seq<seq<Word>>

  predicate WfMemory(mem: Memory) {
    |mem| == DIRECT_FRAMES && forall f | 0 <= f < |mem| :: |mem[f]| == 1024
  }

  /** Memory after one word has been written. */
  function Put(mem: Memory, f: nat, w: nat, value: Word): (r: Memory)
    requires WfMemory(mem) && f < DIRECT_FRAMES && w < 1024
    ensures WfMemory(r)
    ensures forall g | 0 <= g < DIRECT_FRAMES && g != f :: r[g] == mem[g]
    ensures r[f] == mem[f][w := value]
  {
    var frame: seq<Word> := mem[f][w := value];
    mem[f := frame]
  }

  datatype Option<T> = None | Some(value: T)

  /**
   * The entry the processor reaches for a page under the directory in frame `dir`: bits 31-12
   * give the frame, the low bits the flags. A directory entry with bit 7 set maps 4 MB itself.
   */
  function Walk(mem: Memory, dir: nat, page: nat): Option<Word>
    requires WfMemory(mem) && dir < DIRECT_FRAMES && page < PAGES
  {
    var pde := mem[dir][page / 1024];
    if pde % 2 == 0 then None
    else if pde % 256 >= 128 then Some(pde - pde % 0x40_0000 + page % 1024 * 4096 + pde % 4096)
    else if pde / 4096 >= DIRECT_FRAMES then None
    else
      var pte := mem[pde / 4096][page % 1024];
      if pte % 2 == 0 then None else Some(pte)
  }

  /** The frame behind a page, when it is mapped to memory that exists. */
  predicate Mapped(mem: Memory, dir: nat, page: nat)
    requires WfMemory(mem) && dir < DIRECT_FRAMES
  {
    page < PAGES && Walk(mem, dir, page).Some? && Walk(mem, dir, page).value / 4096 < DIRECT_FRAMES
  }

  function FrameOf(mem: Memory, dir: nat, page: nat): (f: nat)
    requires WfMemory(mem) && dir < DIRECT_FRAMES && Mapped(mem, dir, page)
    ensures f < DIRECT_FRAMES
  {
    Walk(mem, dir, page).value / 4096
  }

  // ---------------------------------------------------------------------------------------
  // The direct map
  // ---------------------------------------------------------------------------------------

  /** linker.ld places the directory, one table and 256 direct-map tables right below _heap_start. */
  const KERNEL_TABLES: nat := 258

  /** The 256 upper directory entries, as every directory holds them. */
  predicate KernelHalf(mem: Memory, kdir: nat, dir: nat)
    requires WfMemory(mem) && kdir + KERNEL_TABLES <= DIRECT_FRAMES && dir < DIRECT_FRAMES
  {
    forall i | 768 <= i < 1024 :: mem[dir][i] == (kdir + 2 + i - 768) * 4096 + PAGE_KERNEL
  }

  /** The 256 tables at _kernel_page_tables_base map frame n at page 0xC0000 + n. */
  predicate DirectTables(mem: Memory, kdir: nat)
    requires WfMemory(mem) && kdir + KERNEL_TABLES <= DIRECT_FRAMES
  {
    forall t, w | kdir + 2 <= t < kdir + KERNEL_TABLES && 0 <= w < 1024 ::
      mem[t][w] == ((t - kdir - 2) * 1024 + w) * 4096 + PAGE_KERNEL + PAGE_GLOBAL
  }

  /** Taking apart `phys | flags` for a page-aligned phys. */
  lemma EntryParts(f: nat, flags: nat)
    requires flags < 4096 && flags % 2 == 1
    ensures (f * 4096 + flags) / 4096 == f && (f * 4096 + flags) % 4096 == flags
    ensures (f * 4096 + flags) % 2 == 1 && (f * 4096 + flags) % 256 == flags % 256
  {
    EntryFrame(f, flags);
    EntryLow(f, flags);
    EntryOdd(f, flags);
  }

  lemma EntryFrame(f: nat, flags: nat)
    requires flags < 4096
    ensures (f * 4096 + flags) / 4096 == f && (f * 4096 + flags) % 4096 == flags
  {
  }

  lemma LowByte(q: nat, r: nat)
    requires r < 256
    ensures (q * 256 + r) % 256 == r
  {
  }

  lemma LowBit(q: nat, r: nat)
    requires r < 2
    ensures (q * 2 + r) % 2 == r
  {
  }

  lemma EntryLow(f: nat, flags: nat)
    ensures (f * 4096 + flags) % 256 == flags % 256
  {
    LowByte(f * 16 + flags / 256, flags % 256);
  }

  lemma EntryOdd(f: nat, flags: nat)
    ensures (f * 4096 + flags) % 2 == flags % 2
  {
    LowBit(f * 2048 + flags / 2, flags % 2);
  }

  lemma DirectPage(n: nat)
    ensures (KERNEL_PAGE + n) / 1024 == 768 + n / 1024 && (KERNEL_PAGE + n) % 1024 == n % 1024
  {
  }

  /** Every directory with the kernel half maps physical address a at a + 0xC0000000. */
  lemma DirectMap(mem: Memory, kdir: nat, dir: nat, n: nat)
    requires WfMemory(mem) && kdir + KERNEL_TABLES <= DIRECT_FRAMES && dir < DIRECT_FRAMES
    requires KernelHalf(mem, kdir, dir) && DirectTables(mem, kdir)
    requires n < DIRECT_FRAMES
    ensures Walk(mem, dir, 0xC_0000 + n) == Some(n * 4096 + 0x103)
    ensures Mapped(mem, dir, KERNEL_PAGE + n) && FrameOf(mem, dir, KERNEL_PAGE + n) == n
  {
    DirectPage(n);
    EntryParts(kdir + 2 + n / 1024, PAGE_KERNEL);
    EntryParts(n, PAGE_KERNEL + PAGE_GLOBAL);
    var j, w := n / 1024, n % 1024;
    assert mem[dir][768 + j] == (kdir + 2 + j) * 4096 + PAGE_KERNEL;
    assert mem[kdir + 2 + j][w] == (j * 1024 + w) * 4096 + PAGE_KERNEL + PAGE_GLOBAL;
  }

  // ---------------------------------------------------------------------------------------
  // Abstract address spaces
  // ---------------------------------------------------------------------------------------

  /** What a marked frame is used for. `Page(p)` backs virtual page p. */
  datatype Role = Reserved | Directory(d: nat) | Table(d: nat, i: nat) | Page(p: nat)

  /** A present directory or table entry: `phys | flags`. */
  datatype Entry = Entry(frame: nat, flags: nat)

  predicate EntryOk(e: Entry) {
    e.frame < DIRECT_FRAMES && e.flags < 128 && e.flags % 2 == 1
  }

  function WordOf(e: Entry): Word
    requires EntryOk(e)
  {
    e.frame * 4096 + e.flags
  }

  /**
   * `own` gives the role of each marked frame. `dirs` lists the frames of the page directories,
   * the kernel's first. `pdes[(d, i)]` is the entry installed at index i < 768 of directory d,
   * `ptes[(d, p)]` the entry installed for page p in directory d. `cleared` counts the frames
   * given back so far.
   */
  datatype Mmu = Mmu(own: map<nat, Role>, dirs: seq<nat>, pdes: map<(nat, nat), Entry>,
                     ptes: map<(nat, nat), Entry>, cleared: nat)

  /** Number of frames init_pmm marks: everything below _heap_start. */
  function Reserve(m: Mmu): nat
    requires |m.dirs| > 0
  {
    m.dirs[0] + KERNEL_TABLES
  }

  /** Every marked frame can be reached through the direct map. */
  predicate InDirect(m: Mmu) {
    forall f | f in m.own :: f < DIRECT_FRAMES
  }

  /** The table of kernel index 0 is the static _kernel_page_table; any other was allocated. */
  predicate TableFrame(m: Mmu, d: nat, i: nat, t: nat)
    requires |m.dirs| > 0
  {
    if d == 0 && i == 0 then t == m.dirs[0] + 1 else t in m.own && m.own[t] == Table(d, i)
  }

  predicate PdeOk(m: Mmu, d: nat, i: nat)
    requires |m.dirs| > 0 && (d, i) in m.pdes
  {
    && d < |m.dirs| && i < 768
    && EntryOk(m.pdes[(d, i)])
    && TableFrame(m, d, i, m.pdes[(d, i)].frame)
  }

  predicate PteOk(m: Mmu, d: nat, p: nat)
    requires (d, p) in m.ptes
  {
    && p < KERNEL_PAGE && (d, p / 1024) in m.pdes
    && EntryOk(m.ptes[(d, p)])
    && m.ptes[(d, p)].frame in m.own && m.own[m.ptes[(d, p)].frame] == Page(p)
  }

  /** Directories and reserved frames. */
  predicate WfFrames(m: Mmu) {
    && |m.dirs| > 0 && Reserve(m) <= DIRECT_FRAMES
    && InDirect(m)
    && (forall f: nat | f < Reserve(m) :: f in m.own && m.own[f] == Reserved)
    && (forall d | 0 < d < |m.dirs| :: m.dirs[d] in m.own && m.own[m.dirs[d]] == Directory(d))
  }

  predicate WfPdes(m: Mmu)
    requires |m.dirs| > 0
  {
    forall x | x in m.pdes :: PdeOk(m, x.0, x.1)
  }

  predicate WfPtes(m: Mmu) {
    forall x | x in m.ptes :: PteOk(m, x.0, x.1)
  }

  predicate Wf(m: Mmu) {
    WfFrames(m) && WfPdes(m) && WfPtes(m)
  }

  /** The word at index i < 768 of directory d. */
  function PdeWord(m: Mmu, d: nat, i: nat): Word
    requires |m.dirs| > 0 && WfPdes(m)
  {
    if (d, i) in m.pdes then assert PdeOk(m, d, i); WordOf(m.pdes[(d, i)]) else 0
  }

  lemma DirFrame(m: Mmu, d: nat)
    requires WfFrames(m) && d < |m.dirs|
    ensures m.dirs[d] in m.own && m.dirs[d] < DIRECT_FRAMES
    ensures m.own[m.dirs[d]] == if d == 0 then Reserved else Directory(d)
  {
    if d == 0 { assert m.dirs[0] < Reserve(m); }
  }

  /** The table behind an installed index. */
  function TableOf(m: Mmu, d: nat, i: nat): (t: nat)
    requires WfFrames(m) && WfPdes(m) && (d, i) in m.pdes
    ensures t < DIRECT_FRAMES && t in m.own && t == m.pdes[(d, i)].frame
    ensures m.own[t] == if d == 0 && i == 0 then Reserved else Table(d, i)
    ensures d == 0 && i == 0 ==> t == m.dirs[0] + 1
  {
    assert PdeOk(m, d, i);
    assert m.dirs[0] + 1 < Reserve(m);
    m.pdes[(d, i)].frame
  }

  // ---------------------------------------------------------------------------------------
  // Memory represents the abstract state
  // ---------------------------------------------------------------------------------------

  predicate DirRep(mem: Memory, m: Mmu, d: nat)
    requires WfMemory(mem) && WfFrames(m) && WfPdes(m) && d < |m.dirs|
  {
    DirFrame(m, d);
    && KernelHalf(mem, m.dirs[0], m.dirs[d])
    && forall i | 0 <= i < 768 :: mem[m.dirs[d]][i] == PdeWord(m, d, i)
  }

  predicate PteRep(mem: Memory, m: Mmu, d: nat, p: nat)
    requires WfMemory(mem) && Wf(m) && (d, p) in m.ptes
  {
    assert PteOk(m, d, p);
    mem[TableOf(m, d, p / 1024)][p % 1024] == WordOf(m.ptes[(d, p)])
  }

  predicate DirsRep(mem: Memory, m: Mmu)
    requires WfMemory(mem) && WfFrames(m) && WfPdes(m)
  {
    && DirectTables(mem, m.dirs[0])
    && forall d | 0 <= d < |m.dirs| :: DirRep(mem, m, d)
  }

  predicate PtesRep(mem: Memory, m: Mmu)
    requires WfMemory(mem) && Wf(m)
  {
    forall x | x in m.ptes :: PteRep(mem, m, x.0, x.1)
  }

  /** The page tables in memory hold exactly the abstract entries. */
  predicate Rep(mem: Memory, m: Mmu) {
    WfMemory(mem) && Wf(m) && DirsRep(mem, m) && PtesRep(mem, m)
  }

  /** The walk through a directory entry and a table entry that are both in memory. */
  lemma WalkThrough(mem: Memory, dir: nat, page: nat, pde: Entry, pte: Entry)
    requires WfMemory(mem) && dir < DIRECT_FRAMES && page < PAGES && EntryOk(pde) && EntryOk(pte)
    requires mem[dir][page / 1024] == WordOf(pde) && mem[pde.frame][page % 1024] == WordOf(pte)
    ensures Walk(mem, dir, page) == Some(WordOf(pte)) && WordOf(pte) / 4096 == pte.frame
  {
    hide WordOf;
    WordParts(pde);
    WordParts(pte);
  }

  lemma WordParts(e: Entry)
    requires EntryOk(e)
    ensures WordOf(e) / 4096 == e.frame && WordOf(e) % 2 == 1 && WordOf(e) % 256 < 128
  {
    EntryParts(e.frame, e.flags);
  }

  /** An entry the abstract state lists is what the walk finds. */
  lemma WalkFinds(mem: Memory, m: Mmu, d: nat, p: nat)
    requires Rep(mem, m) && (d, p) in m.ptes
    ensures d < |m.dirs| && m.dirs[d] < DIRECT_FRAMES && PteOk(m, d, p)
    ensures Walk(mem, m.dirs[d], p) == Some(WordOf(m.ptes[(d, p)]))
    ensures Mapped(mem, m.dirs[d], p) && FrameOf(mem, m.dirs[d], p) == m.ptes[(d, p)].frame
  {
    assert PteOk(m, d, p) && PteRep(mem, m, d, p);
    assert PdeOk(m, d, p / 1024);
    DirFrame(m, d);
    assert mem[m.dirs[d]][p / 1024] == PdeWord(m, d, p / 1024) by { assert DirRep(mem, m, d); }
    WalkThrough(mem, m.dirs[d], p, m.pdes[(d, p / 1024)], m.ptes[(d, p)]);
  }

  // ---------------------------------------------------------------------------------------
  // Abstract operations
  // ---------------------------------------------------------------------------------------

  /** The frame the next scan hands out. */
  function NextFrame(m: Mmu): nat {
    FirstFree(m.own.Keys)
  }

  /** Marks the next free frame for `role`. */
  function Take(m: Mmu, role: Role): Mmu {
    m.(own := m.own[NextFrame(m) := role])
  }

  lemma NextIsFree(m: Mmu)
    ensures NextFrame(m) !in m.own
  {
  }

  /** Gives directory d an entry for index i, from the static table or a newly taken frame. */
  function Install(m: Mmu, d: nat, i: nat, flags: nat): Mmu
    requires |m.dirs| > 0
  {
    if d == 0 && i == 0 then m.(pdes := m.pdes[(d, i) := Entry(m.dirs[0] + 1, flags)])
    else Take(m, Table(d, i)).(pdes := m.pdes[(d, i) := Entry(NextFrame(m), flags)])
  }

  /** map_page: installs a table when the index has none, then enters page p. */
  function Map(m: Mmu, d: nat, p: nat, frame: nat, flags: nat): Mmu
    requires |m.dirs| > 0
  {
    var t := if (d, p / 1024) in m.pdes then m else Install(m, d, p / 1024, flags);
    t.(ptes := t.ptes[(d, p) := Entry(frame, flags)])
  }

  // ---------------------------------------------------------------------------------------
  // What each write to memory does to the representation
  // ---------------------------------------------------------------------------------------

  lemma TakeKeepsWf(m: Mmu, role: Role)
    requires Wf(m) && NextFrame(m) < DIRECT_FRAMES && role != Reserved
    ensures Wf(Take(m, role))
  {
    var m' := Take(m, role);
    forall x | x in m'.pdes ensures PdeOk(m', x.0, x.1) { assert PdeOk(m, x.0, x.1); }
    forall x | x in m'.ptes ensures PteOk(m', x.0, x.1) { assert PteOk(m, x.0, x.1); }
  }

  lemma TakeKeepsRep(mem: Memory, m: Mmu, role: Role)
    requires Rep(mem, m) && NextFrame(m) < DIRECT_FRAMES && role != Reserved
    ensures Rep(mem, Take(m, role))
  {
    var m' := Take(m, role);
    TakeKeepsWf(m, role);
    forall d | 0 <= d < |m'.dirs| ensures DirRep(mem, m', d) { assert DirRep(mem, m, d); }
    forall x | x in m'.ptes ensures PteRep(mem, m', x.0, x.1) { assert PteRep(mem, m, x.0, x.1); }
  }

  /** Frames other than `f` still hold what they held. */
  predicate SameExcept(mem: Memory, mem': Memory, f: nat) {
    WfMemory(mem) && WfMemory(mem') && forall g | 0 <= g < DIRECT_FRAMES && g != f :: mem'[g] == mem[g]
  }

  /** A write outside the kernel image leaves the direct map intact. */
  lemma DirectTablesStay(mem: Memory, mem': Memory, kdir: nat, f: nat)
    requires SameExcept(mem, mem', f) && kdir + KERNEL_TABLES <= DIRECT_FRAMES
    requires f < kdir + 2 || kdir + KERNEL_TABLES <= f
    requires DirectTables(mem, kdir)
    ensures DirectTables(mem', kdir)
  {
  }

  /** A write into a frame that backs a page leaves every table intact. */
  lemma PageWriteKeepsRep(mem: Memory, m: Mmu, f: nat, w: nat, value: Word)
    requires Rep(mem, m) && f in m.own && m.own[f].Page? && w < 1024
    ensures f < DIRECT_FRAMES && Rep(Put(mem, f, w, value), m)
  {
    var mem' := Put(mem, f, w, value);
    assert Reserve(m) <= f;
    DirectTablesStay(mem, mem', m.dirs[0], f);
    forall d | 0 <= d < |m.dirs| ensures DirRep(mem', m, d) { DirFrame(m, d); assert DirRep(mem, m, d); }
    forall x | x in m.ptes ensures PteRep(mem', m, x.0, x.1) { assert PteRep(mem, m, x.0, x.1); }
  }

  /** A write into a frame nobody owns. */
  lemma FreeWriteKeepsRep(mem: Memory, m: Mmu, f: nat, w: nat, value: Word)
    requires Rep(mem, m) && f < DIRECT_FRAMES && f !in m.own && w < 1024
    ensures Rep(Put(mem, f, w, value), m)
  {
    var mem' := Put(mem, f, w, value);
    assert Reserve(m) <= f;
    DirectTablesStay(mem, mem', m.dirs[0], f);
    forall d | 0 <= d < |m.dirs| ensures DirRep(mem', m, d) { DirFrame(m, d); assert DirRep(mem, m, d); }
    forall x | x in m.ptes ensures PteRep(mem', m, x.0, x.1) { assert PteRep(mem, m, x.0, x.1); }
  }

  lemma InstallKeepsWf(m: Mmu, d: nat, i: nat, flags: nat)
    requires Wf(m) && d < |m.dirs| && i < 768 && (d, i) !in m.pdes
    requires flags < 128 && flags % 2 == 1 && NextFrame(m) < DIRECT_FRAMES
    ensures Wf(Install(m, d, i, flags))
  {
    var m' := Install(m, d, i, flags);
    assert WfFrames(m');
    forall x | x in m'.pdes ensures PdeOk(m', x.0, x.1) {
      if x != (d, i) { assert PdeOk(m, x.0, x.1); }
    }
    forall x | x in m'.ptes ensures PteOk(m', x.0, x.1) { assert PteOk(m, x.0, x.1); }
  }

  /** Writing the directory entry of an index that had none. */
  lemma InstallKeepsRep(mem: Memory, m: Mmu, d: nat, i: nat, flags: nat)
    requires Rep(mem, m) && d < |m.dirs| && i < 768 && (d, i) !in m.pdes
    requires flags < 128 && flags % 2 == 1 && NextFrame(m) < DIRECT_FRAMES
    ensures m.dirs[d] < DIRECT_FRAMES
    ensures var m' := Install(m, d, i, flags);
            Wf(m') && Rep(Put(mem, m.dirs[d], i, PdeWord(m', d, i)), m')
  {
    var m' := Install(m, d, i, flags);
    InstallKeepsWf(m, d, i, flags);
    DirFrame(m, d);
    InstallKeepsDirs(mem, m, d, i, flags);
    InstallKeepsPtes(mem, m, d, i, flags);
  }

  lemma InstallKeepsDirs(mem: Memory, m: Mmu, d: nat, i: nat, flags: nat)
    requires WfMemory(mem) && Wf(m) && DirsRep(mem, m) && d < |m.dirs| && i < 768 && (d, i) !in m.pdes
    requires flags < 128 && flags % 2 == 1 && NextFrame(m) < DIRECT_FRAMES
    requires Wf(Install(m, d, i, flags)) && m.dirs[d] < DIRECT_FRAMES
    ensures var m' := Install(m, d, i, flags);
            DirsRep(Put(mem, m.dirs[d], i, PdeWord(m', d, i)), m')
  {
    var m' := Install(m, d, i, flags);
    DirFrame(m, d);
    var mem' := Put(mem, m.dirs[d], i, PdeWord(m', d, i));
    DirectTablesStay(mem, mem', m.dirs[0], m.dirs[d]);
    forall e | 0 <= e < |m'.dirs| ensures DirRep(mem', m', e) {
      assert DirRep(mem, m, e);
      InstallKeepsDir(mem, m, d, i, flags, e);
    }
  }

  lemma InstallKeepsDir(mem: Memory, m: Mmu, d: nat, i: nat, flags: nat, e: nat)
    requires WfMemory(mem) && WfFrames(m) && WfPdes(m) && d < |m.dirs| && i < 768 && (d, i) !in m.pdes
    requires e < |m.dirs| && DirRep(mem, m, e) && m.dirs[d] < DIRECT_FRAMES
    requires var m' := Install(m, d, i, flags); WfFrames(m') && WfPdes(m')
    ensures var m' := Install(m, d, i, flags);
            DirRep(Put(mem, m.dirs[d], i, PdeWord(m', d, i)), m', e)
  {
    DirFrame(m, d);
    DirFrame(m, e);
    var m' := Install(m, d, i, flags);
    var mem' := Put(mem, m.dirs[d], i, PdeWord(m', d, i));
    forall j | 0 <= j < 768 ensures mem'[m.dirs[e]][j] == PdeWord(m', e, j) {
      assert mem[m.dirs[e]][j] == PdeWord(m, e, j);
    }
  }

  lemma InstallKeepsPtes(mem: Memory, m: Mmu, d: nat, i: nat, flags: nat)
    requires WfMemory(mem) && Wf(m) && PtesRep(mem, m) && d < |m.dirs| && i < 768 && (d, i) !in m.pdes
    requires flags < 128 && flags % 2 == 1 && NextFrame(m) < DIRECT_FRAMES
    requires Wf(Install(m, d, i, flags)) && m.dirs[d] < DIRECT_FRAMES
    ensures var m' := Install(m, d, i, flags);
            PtesRep(Put(mem, m.dirs[d], i, PdeWord(m', d, i)), m')
  {
    var m' := Install(m, d, i, flags);
    DirFrame(m, d);
    var mem' := Put(mem, m.dirs[d], i, PdeWord(m', d, i));
    forall x | x in m'.ptes ensures PteRep(mem', m', x.0, x.1) {
      assert PteRep(mem, m, x.0, x.1) && PteOk(m, x.0, x.1);
      assert TableOf(m', x.0, x.1 / 1024) == TableOf(m, x.0, x.1 / 1024);
    }
  }

  lemma TableWriteKeepsDirs(mem: Memory, m: Mmu, d: nat, i: nat, w: nat, value: Word)
    requires WfMemory(mem) && WfFrames(m) && WfPdes(m) && DirsRep(mem, m)
    requires (d, i) in m.pdes && w < 1024
    ensures DirsRep(Put(mem, TableOf(m, d, i), w, value), m)
  {
    var t := TableOf(m, d, i);
    var mem' := Put(mem, t, w, value);
    DirectTablesStay(mem, mem', m.dirs[0], t);
    forall e | 0 <= e < |m.dirs| ensures DirRep(mem', m, e) {
      DirFrame(m, e);
      assert DirRep(mem, m, e);
    }
  }

  /** Distinct entries lie at distinct places in memory. */
  lemma OtherPte(mem: Memory, m: Mmu, d: nat, p: nat, value: Word, m': Mmu, e: nat, q: nat)
    requires WfMemory(mem) && Wf(m) && PtesRep(mem, m) && (d, p / 1024) in m.pdes
    requires m' == m.(ptes := m'.ptes) && Wf(m') && (e, q) != (d, p)
    requires (e, q) in m.ptes && (e, q) in m'.ptes && m'.ptes[(e, q)] == m.ptes[(e, q)]
    ensures PteRep(Put(mem, TableOf(m, d, p / 1024), p % 1024, value), m', e, q)
  {
    assert PteRep(mem, m, e, q) && PteOk(m, e, q);
    var t, u := TableOf(m, d, p / 1024), TableOf(m, e, q / 1024);
    assert TableOf(m', e, q / 1024) == u;
    if t == u {
      assert d == e && p / 1024 == q / 1024;
      assert p % 1024 != q % 1024;
    }
  }

  lemma SetPteKeepsWf(m: Mmu, d: nat, p: nat, entry: Entry)
    requires Wf(m) && p < KERNEL_PAGE && (d, p / 1024) in m.pdes
    requires EntryOk(entry) && entry.frame in m.own && m.own[entry.frame] == Page(p)
    ensures Wf(m.(ptes := m.ptes[(d, p) := entry]))
  {
    var m' := m.(ptes := m.ptes[(d, p) := entry]);
    SamePdes(m, m');
    forall x | x in m'.ptes ensures PteOk(m', x.0, x.1) {
      if x != (d, p) { assert PteOk(m, x.0, x.1); }
    }
  }

  /** Writing one page-table entry. */
  lemma SetPteKeepsRep(mem: Memory, m: Mmu, d: nat, p: nat, entry: Entry)
    requires Rep(mem, m) && p < KERNEL_PAGE && (d, p / 1024) in m.pdes
    requires EntryOk(entry) && entry.frame in m.own && m.own[entry.frame] == Page(p)
    ensures Rep(Put(mem, TableOf(m, d, p / 1024), p % 1024, WordOf(entry)), m.(ptes := m.ptes[(d, p) := entry]))
  {
    var t := TableOf(m, d, p / 1024);
    var m' := m.(ptes := m.ptes[(d, p) := entry]);
    var mem' := Put(mem, t, p % 1024, WordOf(entry));
    SetPteKeepsWf(m, d, p, entry);
    TableWriteKeepsDirs(mem, m, d, p / 1024, p % 1024, WordOf(entry));
    SameDirsRep(mem', m, m');
    forall x | x in m'.ptes ensures PteRep(mem', m', x.0, x.1) {
      if x != (d, p) { OtherPte(mem, m, d, p, WordOf(entry), m', x.0, x.1); }
    }
  }

  /** Page-table entries do not enter into the well-formedness of the directories. */
  lemma SamePdes(m: Mmu, m': Mmu)
    requires WfFrames(m) && WfPdes(m) && m' == m.(ptes := m'.ptes)
    ensures WfFrames(m') && WfPdes(m')
  {
    forall x | x in m'.pdes ensures PdeOk(m', x.0, x.1) { assert PdeOk(m, x.0, x.1); }
  }

  lemma SameDirsRep(mem: Memory, m: Mmu, m': Mmu)
    requires WfMemory(mem) && WfFrames(m) && WfPdes(m) && m' == m.(ptes := m'.ptes)
    requires WfFrames(m') && WfPdes(m') && DirsRep(mem, m)
    ensures DirsRep(mem, m')
  {
    forall d | 0 <= d < |m'.dirs| ensures DirRep(mem, m', d) { assert DirRep(mem, m, d); }
  }

  lemma ErasePteKeepsWf(m: Mmu, d: nat, p: nat)
    requires Wf(m)
    ensures Wf(m.(ptes := m.ptes - {(d, p)}))
  {
    var m' := m.(ptes := m.ptes - {(d, p)});
    SamePdes(m, m');
    forall x | x in m'.ptes ensures PteOk(m', x.0, x.1) { assert PteOk(m, x.0, x.1); }
  }

  /** Zeroing one page-table entry. */
  lemma ErasePteKeepsRep(mem: Memory, m: Mmu, d: nat, p: nat)
    requires Rep(mem, m) && (d, p) in m.ptes
    ensures (d, p / 1024) in m.pdes
    ensures Rep(Put(mem, TableOf(m, d, p / 1024), p % 1024, 0), m.(ptes := m.ptes - {(d, p)}))
  {
    assert PteOk(m, d, p);
    var t := TableOf(m, d, p / 1024);
    var m' := m.(ptes := m.ptes - {(d, p)});
    var mem' := Put(mem, t, p % 1024, 0);
    ErasePteKeepsWf(m, d, p);
    TableWriteKeepsDirs(mem, m, d, p / 1024, p % 1024, 0);
    SameDirsRep(mem', m, m');
    forall x | x in m'.ptes ensures PteRep(mem', m', x.0, x.1) {
      OtherPte(mem, m, d, p, 0, m', x.0, x.1);
    }
  }

  /** Gives back frame `f`. */
  function Release(m: Mmu, f: nat): Mmu {
    m.(own := m.own - {f}, cleared := m.cleared + 1)
  }

  lemma ReleaseKeepsWf(m: Mmu, f: nat)
    requires Wf(m) && f in m.own && m.own[f].Page?
    requires forall x | x in m.ptes :: m.ptes[x].frame != f
    ensures Wf(Release(m, f))
  {
    var m' := Release(m, f);
    forall x | x in m'.pdes ensures PdeOk(m', x.0, x.1) { assert PdeOk(m, x.0, x.1); }
    forall x | x in m'.ptes ensures PteOk(m', x.0, x.1) { assert PteOk(m, x.0, x.1); }
  }

  /** Giving back a page frame no directory maps any more. */
  lemma ReleaseKeepsRep(mem: Memory, m: Mmu, f: nat)
    requires Rep(mem, m) && f in m.own && m.own[f].Page?
    requires forall x | x in m.ptes :: m.ptes[x].frame != f
    ensures Rep(mem, Release(m, f))
  {
    var m' := Release(m, f);
    ReleaseKeepsWf(m, f);
    forall d | 0 <= d < |m'.dirs| ensures DirRep(mem, m', d) { assert DirRep(mem, m, d); }
    forall x | x in m'.ptes ensures PteRep(mem, m', x.0, x.1) { assert PteRep(mem, m, x.0, x.1); }
  }
}
