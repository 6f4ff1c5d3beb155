/** The heap after init_all_heaps, block by block, in numbers. */
module BootLaws {
  import opened PageTables
  import opened Spaces
  import opened Regions
  import opened HeapModel
  import opened SizeClasses
  import opened HeapInv
  import opened HeapRuns
  import opened HeapBoot

  /** c pages of n blocks of b bytes from `base` up: the newest page first, its blocks in address order. */
  predicate Threaded(free: seq<nat>, base: nat, c: nat, n: nat, b: nat) {
    && n >= 1 && |free| == c * n
    && forall i | 0 <= i < |free| :: free[i] == base + (c - 1 - i / n) * 4096 + i % n * b
  }

  lemma OneMorePage(free: seq<nat>, page: seq<nat>, base: nat, c: nat, n: nat, b: nat)
    requires Threaded(free, base, c, n, b) && |page| == n
    requires forall i | 0 <= i < n :: page[i] == base + c * 4096 + i * b
    ensures Threaded(page + free, base, c + 1, n, b)
  {
    assert (c + 1) * n == c * n + n;
    forall i | 0 <= i < |page + free| ensures (page + free)[i] == base + (c - i / n) * 4096 + i % n * b {
      if i < n {
        DivMod(i, n, 0, i);
      } else {
        NextRow(i, n);
      }
    }
  }

  lemma NextRow(i: nat, n: nat)
    requires n >= 1 && i >= n
    ensures i / n == (i - n) / n + 1 && i % n == (i - n) % n
  {
    var q, r := (i - n) / n, (i - n) % n;
    assert i - n == q * n + r;
    assert (q + 1) * n == q * n + n;
    DivMod(i, n, q + 1, r);
  }

  /** Nothing live, and the blocks of the carved pages threaded. */
  predicate Fresh(k: nat, d: Dom)
    requires k < CLASSES
  {
    d.live == {} && Threaded(d.free, BasePage(k) * 4096, d.carved, BlocksPerPage(k), BlockSize(k))
  }

  lemma CarveFresh(k: nat, d: Dom)
    requires k < CLASSES && Fresh(k, d)
    ensures Fresh(k, CarvePage(k, d))
  {
    hide BlockSize, BlocksPerPage, Threaded;
    var p := BasePage(k) + d.carved;
    forall i | 0 <= i < BlocksPerPage(k)
      ensures PageBlocks(k, p)[i] == BasePage(k) * 4096 + d.carved * 4096 + i * BlockSize(k)
    {
      PageBlockIn(k, p, i);
    }
    OneMorePage(d.free, PageBlocks(k, p), BasePage(k) * 4096, d.carved, BlocksPerPage(k), BlockSize(k));
  }

  lemma {:induction false} CarveManyFresh(v: View, k: nat, n: nat)
    requires k < CLASSES && |v.doms| == CLASSES && |v.mmu.dirs| > 0 && Fresh(k, v.doms[k])
    ensures var r := CarveMany(v, k, n);
            && Fresh(k, r.doms[k]) && r.doms[k].carved == v.doms[k].carved + n
            && forall j | 0 <= j < CLASSES && j != k :: r.doms[j] == v.doms[j]
  {
    hide Fresh, AddPage, PageBlocks;
    if n > 0 {
      CarveManyFresh(v, k, n - 1);
      CarveFresh(k, CarveMany(v, k, n - 1).doms[k]);
    }
  }

  /** The first k classes as boot leaves them, the others empty. */
  predicate FirstClasses(s: seq<Dom>, k: nat) {
    && |s| == CLASSES
    && (forall j | 0 <= j < CLASSES && j < k :: Fresh(j, s[j]) && s[j].carved == 256)
    && (forall j | k <= j < CLASSES :: s[j] == Dom(0, [], {}, 0))
  }

  lemma {:induction false} InitFresh(kdir: nat, k: nat)
    requires k <= CLASSES
    ensures FirstClasses(InitDomains(EmptyView(kdir), k).doms, k)
  {
    hide Fresh, CarveMany, NewDir;
    if k > 0 {
      InitFresh(kdir, k - 1);
      var u := InitDomains(EmptyView(kdir), k - 1);
      assert u.doms[k - 1] == Dom(0, [], {}, 0);
      EmptyFresh(k - 1);
      MoreDirs(u);
      CarveManyFresh(AddDir(u), k - 1, PREMAP);
    }
  }

  lemma EmptyFresh(k: nat)
    requires k < CLASSES
    ensures Fresh(k, Dom(0, [], {}, 0))
  {
  }

  lemma MoreDirs(v: View)
    ensures |AddDir(v).mmu.dirs| > 0 && AddDir(v).doms == v.doms
  {
  }

  /**
   * After boot every class has 256 pages of its block size at its base, all free: the newest page
   * first, the blocks of a page in address order.
   */
  lemma BootBlocks(kdir: nat)
    ensures |BootView(kdir).doms| == 7
    ensures forall k | 0 <= k < 7 :: BootView(kdir).doms[k].carved == 256 && BootView(kdir).doms[k].live == {}
    ensures Threaded(BootView(kdir).doms[0].free, 0x1000_0000, 256, 64, 64)
    ensures Threaded(BootView(kdir).doms[1].free, 0x2000_0000, 256, 32, 128)
    ensures Threaded(BootView(kdir).doms[2].free, 0x3000_0000, 256, 16, 256)
    ensures Threaded(BootView(kdir).doms[3].free, 0x4000_0000, 256, 8, 512)
    ensures Threaded(BootView(kdir).doms[4].free, 0x5000_0000, 256, 4, 1024)
    ensures Threaded(BootView(kdir).doms[5].free, 0x6000_0000, 256, 2, 2048)
    ensures Threaded(BootView(kdir).doms[6].free, 0x7000_0000, 256, 1, 4096)
  {
    hide InitDomains, NewDir, Threaded;
    InitFresh(kdir, CLASSES);
    MoreDirs(InitDomains(EmptyView(kdir), CLASSES));
    var v := BootView(kdir);
    assert v.doms == InitDomains(EmptyView(kdir), CLASSES).doms;
    assert Fresh(0, v.doms[0]) && Fresh(1, v.doms[1]) && Fresh(2, v.doms[2]) && Fresh(3, v.doms[3]);
    assert Fresh(4, v.doms[4]) && Fresh(5, v.doms[5]) && Fresh(6, v.doms[6]);
  }

  /** The rest of the state after boot: nine directories, the large cursor at 0x80000000, 1814 frames taken. */
  lemma BootFrames(kdir: nat)
    requires kdir + 258 + 1814 <= 0x4_0000
    ensures var v := BootView(kdir);
            && |v.mmu.dirs| == 9 && v.mmu.dirs[0] == kdir && |v.mmu.own| == kdir + 258 + 1814
            && v.big.cursor * 4096 == 0x8000_0000 && v.big.slots == [] && v.big.live == map[] && v.data == map[]
  {
    hide BootView;
    BootState(kdir);
    BootCount(kdir);
  }

  /** Nothing is live before the first call. */
  lemma BootNothingLive(kdir: nat, a: nat)
    requires kdir + 258 + 1814 <= 0x4_0000
    ensures |BootView(kdir).doms| == CLASSES && !LiveWord(BootView(kdir), a) && !LivePointer(BootView(kdir), a)
  {
    hide BootView, Threaded;
    BootBlocks(kdir);
    BootFrames(kdir);
  }

  lemma BootCount(kdir: nat)
    requires kdir + KERNEL_TABLES + BOOT_FRAMES <= DIRECT_FRAMES
    ensures var v := BootView(kdir);
            |v.mmu.dirs| == 9 && v.mmu.dirs[0] == kdir && |v.mmu.own| == kdir + KERNEL_TABLES + BOOT_FRAMES
  {
    hide InitDomains, NextFrame, Stage;
    var e := EmptyView(kdir);
    EmptyStaged(kdir);
    StageDomains(e, CLASSES);
    var u := InitDomains(e, CLASSES);
    StageReserve(u, CLASSES - 1, PREMAP, CLASSES, kdir);
    StageDir(u, CLASSES - 1, PREMAP, CLASSES);
    StageShape(AddDir(u), CLASSES - 1, PREMAP, CLASSES + 1);
    StageCount(AddDir(u), CLASSES - 1, PREMAP, CLASSES + 1);
  }

  lemma EmptyStaged(kdir: nat)
    requires kdir + KERNEL_TABLES + BOOT_FRAMES <= DIRECT_FRAMES
    ensures var e := EmptyView(kdir);
            Stage(e, 0, 0, 0) && |e.mmu.dirs| == 1 && e.mmu.dirs[0] == kdir && Reserve(e.mmu) == kdir + KERNEL_TABLES
  {
    hide Inv;
    EmptyInv(kdir);
  }

  lemma StageReserve(v: View, k: nat, c: nat, dirs: nat, kdir: nat)
    requires Stage(v, k, c, dirs) && |v.mmu.dirs| > 0 && v.mmu.dirs[0] == kdir
    ensures Reserve(v.mmu) == kdir + KERNEL_TABLES
  {
  }
}
