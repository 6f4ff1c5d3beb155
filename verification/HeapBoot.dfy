/** init_all_heaps as an abstract run, and the proof that it always fits and leaves a ready heap. */
module HeapBoot {
  import opened PageTables
  import opened Spaces
  import opened Regions
  import opened HeapModel
  import opened SizeClasses
  import opened LargeRegions
  import opened HeapInv
  import opened HeapRuns
  import opened HeapTheorems

  /** Before init_all_heaps: nothing carved anywhere. */
  function EmptyView(kdir: nat): View {
    View(BootMmu(kdir), seq(CLASSES, _ => Dom(0, [], {}, 0)), Big(LARGE_PAGE, [], map[]), map[])
  }

  /** The first n pages of class k. */
  function CarveMany(v: View, k: nat, n: nat): (r: View)
    requires k < CLASSES && |v.doms| == CLASSES && |v.mmu.dirs| > 0
    ensures |r.doms| == CLASSES && |r.mmu.dirs| > 0
  {
    if n == 0 then v
    else
      var u := CarveMany(v, k, n - 1);
      CarveDirsStay(u, k);
      Carve(u, k)
  }

  lemma CarveDirsStay(v: View, k: nat)
    requires k < CLASSES && |v.doms| == CLASSES && |v.mmu.dirs| > 0
    ensures Carve(v, k).mmu.dirs == v.mmu.dirs && |Carve(v, k).doms| == CLASSES
    ensures Carve(v, k).mmu.cleared == v.mmu.cleared
  {
    hide AddPage, PageBlocks;
    AddPageEntries(v.mmu, BasePage(k) + v.doms[k].carved);
  }

  /** init_heap_domain: a directory and PREMAP pages. */
  function InitDomain(v: View, k: nat): (r: View)
    requires k < CLASSES && |v.doms| == CLASSES && |v.mmu.dirs| > 0
    ensures |r.doms| == CLASSES && |r.mmu.dirs| > 0
  {
    CarveMany(AddDir(v), k, PREMAP)
  }

  /** The first k classes initialised. */
  function InitDomains(v: View, k: nat): (r: View)
    requires k <= CLASSES && |v.doms| == CLASSES && |v.mmu.dirs| > 0
    ensures |r.doms| == CLASSES && |r.mmu.dirs| > 0
  {
    if k == 0 then v else InitDomain(InitDomains(v, k - 1), k - 1)
  }

  /** After init_all_heaps. */
  function BootView(kdir: nat): View {
    AddDir(InitDomains(EmptyView(kdir), CLASSES))
  }

  /** Frames init_all_heaps takes: 8 directories, 7 * 256 pages, 7 * 2 tables. */
  const BOOT_FRAMES: nat := 1814

  lemma EmptyInv(kdir: nat)
    requires kdir + KERNEL_TABLES <= DIRECT_FRAMES
    ensures Inv(EmptyView(kdir))
  {
    hide Good, DomsOk, PagesOk, TablesOk, SumCarved, SumTables, Total;
    BootGood(kdir);
    EmptyDoms(kdir);
    EmptyPages(kdir);
    EmptyCounts(kdir);
  }

  lemma EmptyDoms(kdir: nat)
    ensures DomsOk(EmptyView(kdir))
  {
    hide DomOk;
    var v := EmptyView(kdir);
    forall k | 0 <= k < CLASSES ensures DomOk(k, v.doms[k]) { EmptyDom(k); }
  }

  lemma EmptyPages(kdir: nat)
    ensures PagesOk(EmptyView(kdir)) && TablesOk(EmptyView(kdir))
  {
    var v := EmptyView(kdir);
    forall p: nat ensures !Owned(v, p) && !PageMapped(v.mmu, p) {}
    forall i: nat ensures !Carved(v, i) && !HasTable(v.mmu, i) {}
  }

  lemma EmptyCounts(kdir: nat)
    ensures CountsOk(EmptyView(kdir))
  {
    var v := EmptyView(kdir);
    assert SumCarved(v.doms) == 0 && SumTables(v.doms) == 0 && Tables(0) == 0;
    assert Total(v.big.live) == 0;
  }

  lemma EmptyDom(k: nat)
    requires k < CLASSES
    ensures DomOk(k, Dom(0, [], {}, 0))
  {
  }

  /** How far boot has come: k classes done, c pages of class k carved, `dirs` directories made. */
  ghost predicate Stage(v: View, k: nat, c: nat, dirs: nat) {
    && Inv(v) && |v.doms| == CLASSES && |v.mmu.dirs| == dirs + 1 && c <= PREMAP
    && (forall j | 0 <= j < CLASSES ::
          v.doms[j].carved == (if j < k then PREMAP else if j == k then c else 0) && v.doms[j].peak == 0)
    && v.big == Big(LARGE_PAGE, [], map[]) && v.data == map[] && v.mmu.cleared == 0
  }

  lemma StageSums(s: seq<Dom>, k: nat, c: nat)
    requires |s| == CLASSES && k < CLASSES && c <= PREMAP
    requires forall j | 0 <= j < CLASSES :: s[j].carved == if j < k then PREMAP else if j == k then c else 0
    ensures SumCarved(s) == k * 256 + c
    ensures SumTables(s) == k + (if c > 0 then 1 else 0)
  {
    assert Tables(0) == 0 && Tables(256) == 1 && Tables(c) == if c > 0 then 1 else 0;
    hide Tables;
  }

  /** Marked frames at a stage. */
  lemma StageCount(v: View, k: nat, c: nat, dirs: nat)
    requires Stage(v, k, c, dirs) && k < CLASSES
    ensures |v.mmu.own| == Reserve(v.mmu) + dirs + k * 256 + c + 2 * (k + (if c > 0 then 1 else 0))
  {
    hide Inv, SumCarved, SumTables;
    Accounting(v);
    StageSums(v.doms, k, c);
  }

  /** At no stage of boot does a page take the marked frames past the limit. */
  lemma StageFits(v: View, k: nat, c: nat)
    requires Stage(v, k, c, k + 1) && k < CLASSES && c < PREMAP && Reserve(v.mmu) + BOOT_FRAMES <= DIRECT_FRAMES
    ensures CanCarve(v, k)
  {
    hide Inv, AddPage, Good, InDirect, Balanced, HasTable;
    StageCount(v, k, c, k + 1);
    var p := BasePage(k) + v.doms[k].carved;
    StageTable(v, k, c);
    assert HEAP_PAGE <= p;
    AddPageTableEffect(v.mmu, p);
    AddPageFits(v.mmu, p);
  }

  lemma StageTable(v: View, k: nat, c: nat)
    requires Stage(v, k, c, k + 1) && k < CLASSES && c < PREMAP
    ensures InDirect(v.mmu) && Balanced(v.mmu)
    ensures HasTable(v.mmu, (BasePage(k) + c) / 1024) <==> c > 0
  {
    hide DomsOk, BigOk, DirsOk, PagesOk, TablesOk, CountsOk, DataOk, Balanced, WfPdes, WfPtes, HasTable;
    TableKnown(v, (BasePage(k) + c) / 1024);
    assert (BasePage(k) + c) / 1024 == (k + 1) * 64;
  }

  lemma StageCarve(v: View, k: nat, c: nat)
    requires Stage(v, k, c, k + 1) && k < CLASSES && c < PREMAP && Reserve(v.mmu) + BOOT_FRAMES <= DIRECT_FRAMES
    ensures |v.mmu.dirs| > 0 && Stage(Carve(v, k), k, c + 1, k + 1) && Carve(v, k).mmu.dirs == v.mmu.dirs
  {
    hide Inv, AddPage, CanCarve, PageBlocks;
    StageFits(v, k, c);
    CarveInv(v, k);
    CarveDirsStay(v, k);
  }

  lemma StageDir(v: View, k: nat, c: nat, dirs: nat)
    requires Stage(v, k, c, dirs) && k < CLASSES && dirs < 8 && Reserve(v.mmu) + BOOT_FRAMES <= DIRECT_FRAMES
    ensures NextFrame(v.mmu) < DIRECT_FRAMES && Stage(AddDir(v), k, c, dirs + 1)
        && AddDir(v).mmu.dirs[0] == v.mmu.dirs[0]
  {
    hide Inv, NextFrame;
    StageCount(v, k, c, dirs);
    NextBound(v.mmu);
    AddDirInv(v);
  }

  lemma {:induction false} StageMany(v: View, k: nat, n: nat)
    requires Stage(v, k, 0, k + 1) && k < CLASSES && n <= PREMAP && Reserve(v.mmu) + BOOT_FRAMES <= DIRECT_FRAMES
    ensures |v.mmu.dirs| > 0 && Stage(CarveMany(v, k, n), k, n, k + 1) && CarveMany(v, k, n).mmu.dirs == v.mmu.dirs
  {
    hide Stage, Carve;
    assert |v.mmu.dirs| > 0 && |v.doms| == CLASSES by { StageShape(v, k, 0, k + 1); }
    if n > 0 {
      StageMany(v, k, n - 1);
      StageCarve(CarveMany(v, k, n - 1), k, n - 1);
    }
  }

  lemma StageShape(v: View, k: nat, c: nat, dirs: nat)
    requires Stage(v, k, c, dirs)
    ensures |v.mmu.dirs| == dirs + 1 && |v.doms| == CLASSES
  {
  }

  lemma StageNext(v: View, k: nat)
    requires Stage(v, k, PREMAP, k + 1) && k + 1 < CLASSES
    ensures Stage(v, k + 1, 0, k + 1)
  {
    hide Inv;
  }

  lemma {:induction false} StageDomains(v: View, k: nat)
    requires Stage(v, 0, 0, 0) && 1 <= k <= CLASSES && Reserve(v.mmu) + BOOT_FRAMES <= DIRECT_FRAMES
    ensures |v.mmu.dirs| > 0 && |v.doms| == CLASSES
    ensures Stage(InitDomains(v, k), k - 1, PREMAP, k) && InitDomains(v, k).mmu.dirs[0] == v.mmu.dirs[0]
  {
    hide Stage, AddDir, CarveMany;
    StageShape(v, 0, 0, 0);
    var u := InitDomains(v, k - 1);
    if k == 1 {
      assert u == v;
    } else {
      StageDomains(v, k - 1);
      StageNext(u, k - 2);
    }
    StageShape(u, k - 1, 0, k - 1);
    StageDir(u, k - 1, 0, k - 1);
    StageMany(AddDir(u), k - 1, PREMAP);
    StageShape(AddDir(u), k - 1, 0, k);
    assert InitDomains(v, k) == CarveMany(AddDir(u), k - 1, PREMAP);
  }

  /** Boot reaches a ready heap whenever the kernel image leaves 1814 frames of the first gigabyte. */
  lemma BootReady(kdir: nat)
    requires kdir + KERNEL_TABLES + BOOT_FRAMES <= DIRECT_FRAMES
    ensures Ready(BootView(kdir))
  {
    hide Inv, InitDomains, NextFrame;
    var v := EmptyView(kdir);
    EmptyInv(kdir);
    StageDomains(v, CLASSES);
    var u := InitDomains(v, CLASSES);
    StageDir(u, CLASSES - 1, PREMAP, CLASSES);
  }

  /** What boot leaves: 256 pages in each class, nothing live yet, no large region. */
  lemma BootState(kdir: nat)
    requires kdir + KERNEL_TABLES + BOOT_FRAMES <= DIRECT_FRAMES
    ensures var v := BootView(kdir);
            && |v.doms| == CLASSES && v.mmu.cleared == 0 && v.big == Big(LARGE_PAGE, [], map[]) && v.data == map[]
            && forall k | 0 <= k < CLASSES :: v.doms[k].carved == PREMAP && v.doms[k].peak == 0
  {
    hide Inv, InitDomains, NextFrame;
    var v := EmptyView(kdir);
    EmptyInv(kdir);
    StageDomains(v, CLASSES);
    StageDir(InitDomains(v, CLASSES), CLASSES - 1, PREMAP, CLASSES);
  }

  /** States some client run reaches from boot. */
  ghost predicate Reachable(kdir: nat, v: View)
    requires kdir + KERNEL_TABLES + BOOT_FRAMES <= DIRECT_FRAMES
  {
    BootReady(kdir);
    exists ops: seq<Op> :: EnabledRun(BootView(kdir), ops) && Run(BootView(kdir), ops) == v
  }

  lemma ReachableReady(kdir: nat, v: View)
    requires kdir + KERNEL_TABLES + BOOT_FRAMES <= DIRECT_FRAMES && Reachable(kdir, v)
    ensures Ready(v)
  {
    hide Ready;
    BootReady(kdir);
    var ops: seq<Op> :| EnabledRun(BootView(kdir), ops) && Run(BootView(kdir), ops) == v;
  }
}
