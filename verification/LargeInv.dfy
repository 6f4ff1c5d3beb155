/** Large allocations and frees keep the heap invariant. */
module LargeInv {
  import opened PageTables
  import opened Spaces
  import opened Regions
  import opened HeapModel
  import opened LargeRegions
  import opened HeapInv

  /** A large request of n pages that address space and memory can meet. */
  predicate CanBig(v: View, n: nat) {
    && |v.mmu.dirs| > 8 && CanTake(v.big, n)
    && InDirect(BigAlloc(v, n).mmu)
  }

  lemma PageKnown(v: View, p: nat)
    requires |v.doms| == CLASSES && PagesOk(v)
    ensures PageMapped(v.mmu, p) <==> Owned(v, p)
  {
  }

  /** Inside the region about to be used nothing is owned but the page a reused slot kept. */
  lemma TakeFree(b: Big, n: nat, q: nat)
    requires BigOk(b) && CanTake(b, n) && BigStart(b, n) <= q < BigStart(b, n) + n
    ensures !LivePage(b, q) && (HostagePage(b, q) <==> Reuses(b, n) && q == BigStart(b, n))
    ensures LARGE_PAGE <= q < KERNEL_PAGE
  {
    var start := BigStart(b, n);
    TakeClear(b, n);
    TakeFacts(b, n);
    forall s | s in b.live ensures !(s <= q < s + b.live[s]) { assert Apart(s, b.live[s], start, n); }
    forall j | 0 <= j < |b.slots| ensures b.slots[j].start == q ==> Reuses(b, n) && j == 0 {
      assert Within(b, b.slots[j].start, b.slots[j].count);
      assert j > 0 && Reuses(b, n) ==> b.slots[j] == BigTake(b, n).slots[j - 1];
    }
    if Reuses(b, n) { assert b.slots[0].start == start; }
  }

  lemma ClearedEffect(v: View, n: nat)
    requires Inv(v) && CanTake(v.big, n)
    ensures var m1 := Cleared(v.mmu, v.big, n); var start := BigStart(v.big, n);
            && Good(m1) && KeepsPages(v.mmu, m1) && m1.dirs == v.mmu.dirs && m1.pdes == v.mmu.pdes
            && (forall q: nat :: PageMapped(m1, q) <==> Owned(v, q) && !(Reuses(v.big, n) && q == start))
            && |m1.ptes| == |v.mmu.ptes| - (if Reuses(v.big, n) then 2 else 0)
            && |m1.own| == |v.mmu.own| - (if Reuses(v.big, n) then 1 else 0)
            && m1.cleared == v.mmu.cleared + (if Reuses(v.big, n) then 1 else 0)
            && (Reuses(v.big, n) ==> PageMapped(v.mmu, start))
  {
    hide Good, DomsOk, DirsOk, TablesOk, CountsOk, DataOk, PagesOk, PageMapped, KeepsPages, LivePage, HostagePage,
         BigOk,
         CanTake, DropPage;
    var start := BigStart(v.big, n);
    forall q: nat ensures PageMapped(v.mmu, q) <==> Owned(v, q) { PageKnown(v, q); }
    if Reuses(v.big, n) {
      HeadHostage(v.big, n);
      DropPageEffect(v.mmu, start);
    } else {
      KeepsItself(v.mmu);
    }
  }

  lemma KeepsItself(m: Mmu)
    ensures KeepsPages(m, m)
  {
  }

  lemma HeadHostage(b: Big, n: nat)
    requires BigOk(b) && Reuses(b, n)
    ensures HostagePage(b, BigStart(b, n)) && LARGE_PAGE <= BigStart(b, n)
  {
    assert Within(b, b.slots[0].start, b.slots[0].count);
  }

  lemma BigRun(v: View, n: nat)
    requires Inv(v) && CanBig(v, n)
    ensures Good(Cleared(v.mmu, v.big, n)) && AddableRun(Cleared(v.mmu, v.big, n), BigStart(v.big, n), n)
  {
    hide Good, DomsOk, DirsOk, TablesOk, CountsOk, DataOk, PagesOk, PageMapped, KeepsPages, BigOk, CanTake, InDirect,
         LivePage, HostagePage, Cleared, AddPages, BigStart;
    var m1, start := Cleared(v.mmu, v.big, n), BigStart(v.big, n);
    ClearedEffect(v, n);
    TakeFacts(v.big, n);
    forall q: nat | start <= q < start + n ensures Band(q) < |m1.dirs| && !PageMapped(m1, q) {
      TakeFree(v.big, n, q);
    }
  }

  lemma BigPages(v: View, n: nat)
    requires Inv(v) && CanBig(v, n)
    ensures Good(BigAlloc(v, n).mmu) && PagesOk(BigAlloc(v, n))
  {
    hide Good, DomsOk, DirsOk, TablesOk, CountsOk, DataOk, PagesOk, PageMapped, KeepsPages, BigOk, CanBig, CanTake,
         LivePage, HostagePage, Cleared, AddPages, BigStart, AddableRun, BigTake;
    CanTakeBig(v, n);
    var m1, start, v' := Cleared(v.mmu, v.big, n), BigStart(v.big, n), BigAlloc(v, n);
    ClearedEffect(v, n);
    BigRun(v, n);
    TakeFacts(v.big, n);
    AddPagesEffect(m1, start, n);
    forall q: nat ensures PageMapped(v'.mmu, q) <==> Owned(v', q) { TakeOwned(v, n, q); }
    PagesIntro(v');
  }

  lemma PagesIntro(v: View)
    requires |v.doms| == CLASSES && forall q: nat :: PageMapped(v.mmu, q) <==> Owned(v, q)
    ensures PagesOk(v)
  {
  }

  lemma CanTakeBig(v: View, n: nat)
    requires CanBig(v, n)
    ensures |v.mmu.dirs| > 8 && CanTake(v.big, n) && n >= 1
  {
  }

  lemma TakeOwned(v: View, n: nat, q: nat)
    requires |v.doms| == CLASSES && BigOk(v.big) && CanTake(v.big, n) && |v.mmu.dirs| > 0
    ensures var start := BigStart(v.big, n);
            Owned(BigAlloc(v, n), q) <==>
              start <= q < start + n || (Owned(v, q) && !(Reuses(v.big, n) && q == start))
  {
    hide BigOk, CanTake, LivePage, HostagePage, Cleared, AddPages, BigTake, BigStart;
    var start := BigStart(v.big, n);
    TakePages(v.big, n, q);
    TakeFacts(v.big, n);
    if start <= q < start + n { TakeFree(v.big, n, q); }
    if Reuses(v.big, n) && q == start { HeadIsHostageOnly(v.big, n); }
  }

  lemma HeadIsHostageOnly(b: Big, n: nat)
    requires BigOk(b) && CanTake(b, n)
    ensures n >= 1 && !LivePage(b, BigStart(b, n))
  {
    TakeFree(b, n, BigStart(b, n));
  }

  // ---------------------------------------------------------------------------------------
  // Tables and totals
  // ---------------------------------------------------------------------------------------

  lemma TablesIntro(v: View)
    requires |v.doms| == CLASSES && forall i: nat :: HasTable(v.mmu, i) <==> Carved(v, i)
    ensures TablesOk(v)
  {
  }

  /** Below the cursor every page has its table. */
  lemma CursorTables(v: View, q: nat)
    requires |v.doms| == CLASSES && LARGE_PAGE <= q < v.big.cursor
    ensures Carved(v, q / 1024)
  {
  }

  /** At the cursor the next table is missing exactly on a 4 MB boundary. */
  lemma CursorBoundary(v: View, n: nat)
    requires |v.doms| == CLASSES && TablesOk(v) && LARGE_PAGE <= v.big.cursor
    ensures Boundary(v.mmu, v.big.cursor, v.big.cursor + n)
  {
    hide HasTable, TablesOk;
    var c := v.big.cursor;
    TableKnown(v, c / 1024);
    if c % 1024 != 0 { CursorTables(v, c / 1024 * 1024); }
    forall i: nat | Tables(c) <= i < Tables(c + n) ensures !HasTable(v.mmu, i) {
      TableKnown(v, i);
      assert c <= i * 1024;
    }
  }

  lemma CursorStretches(v: View, n: nat, i: nat)
    requires |v.doms| == CLASSES && LARGE_PAGE <= v.big.cursor && n >= 1 && |v.mmu.dirs| > 0
    requires !Reuses(v.big, n)
    ensures var c := v.big.cursor;
            Carved(BigAlloc(v, n), i) <==> c / 1024 <= i <= (c + n - 1) / 1024 || Carved(v, i)
  {
    hide Cleared, AddPages;
  }

  lemma FreshTables(v: View, n: nat)
    requires Inv(v) && CanBig(v, n) && !Reuses(v.big, n)
    ensures TablesOk(BigAlloc(v, n))
    ensures |BigAlloc(v, n).mmu.pdes| == |v.mmu.pdes| + 2 * (Tables(v.big.cursor + n) - Tables(v.big.cursor))
  {
    hide Good, DomsOk, DirsOk, CountsOk, DataOk, PagesOk, TablesOk, PageMapped, HasTable, BigOk, CanBig, CanTake,
         AddPages, AddableRun, Carved, Tables, Boundary;
    CanTakeBig(v, n);
    var v', c := BigAlloc(v, n), v.big.cursor;
    BigRun(v, n);
    RunUnmapped(v.mmu, c, n);
    CursorBoundary(v, n);
    AddPagesFreshTables(v.mmu, c, n);
    forall i: nat ensures HasTable(v'.mmu, i) <==> Carved(v', i) {
      CursorStretches(v, n, i);
      TableKnown(v, i);
    }
    TablesIntro(v');
  }

  /** Reusing a slot needs no table. */
  lemma ReuseTables(v: View, n: nat)
    requires Inv(v) && CanBig(v, n) && Reuses(v.big, n)
    ensures BigAlloc(v, n).mmu.pdes == v.mmu.pdes && TablesOk(BigAlloc(v, n))
  {
    hide Good, DomsOk, DirsOk, CountsOk, DataOk, PagesOk, TablesOk, PageMapped, BigOk, CanBig, CanTake,
         AddPages, AddableRun, Cleared, KeepsPages;
    CanTakeBig(v, n);
    var m1, start, v' := Cleared(v.mmu, v.big, n), BigStart(v.big, n), BigAlloc(v, n);
    ClearedEffect(v, n);
    BigRun(v, n);
    SlotBelowCursor(v.big, n);
    RunUnmapped(m1, start, n);
    forall q: nat | start <= q < start + n ensures !PageMapped(m1, q) && HasTable(m1, q / 1024) {
      CursorTables(v, q);
      TableKnown(v, q / 1024);
    }
    AddPagesInTables(m1, start, n);
    forall i: nat ensures HasTable(v'.mmu, i) <==> Carved(v', i) { TableKnown(v, i); }
    TablesIntro(v');
  }

  lemma SlotBelowCursor(b: Big, n: nat)
    requires BigOk(b) && Reuses(b, n)
    ensures LARGE_PAGE <= BigStart(b, n) && BigStart(b, n) + n <= b.cursor
  {
    assert Within(b, b.slots[0].start, b.slots[0].count);
  }

  lemma TakeTotal(b: Big, n: nat)
    requires BigOk(b) && CanTake(b, n)
    ensures Total(BigTake(b, n).live) == Total(b.live) + n
    ensures |BigTake(b, n).slots| == |b.slots| - (if Reuses(b, n) then 1 else 0)
  {
    hide BigOk, CanTake, Total;
    TakeFacts(b, n);
    TotalAdd(b.live, BigStart(b, n), n);
  }

  lemma BigPteCount(v: View, n: nat)
    requires Inv(v) && CanBig(v, n)
    ensures |BigAlloc(v, n).mmu.ptes| == 2 * PageTotal(BigAlloc(v, n))
  {
    hide Good, DomsOk, DirsOk, DataOk, PagesOk, TablesOk, PageMapped, BigOk, CanBig, CanTake,
         AddPages, AddableRun, Cleared, KeepsPages, BigStart, BigTake, Total, SumCarved, TableTotal;
    CanTakeBig(v, n);
    ClearedEffect(v, n);
    BigRun(v, n);
    AddPagesEffect(Cleared(v.mmu, v.big, n), BigStart(v.big, n), n);
    TakeTotal(v.big, n);
  }

  lemma TablesFromLarge(c: nat, n: nat)
    requires LARGE_PAGE <= c
    ensures Tables(c) == LARGE_PAGE / 1024 + Tables(c - LARGE_PAGE)
    ensures Tables(c + n) == LARGE_PAGE / 1024 + Tables(c + n - LARGE_PAGE)
  {
  }

  lemma BigPdeCount(v: View, n: nat)
    requires Inv(v) && CanBig(v, n)
    ensures LARGE_PAGE <= BigAlloc(v, n).big.cursor
    ensures |BigAlloc(v, n).mmu.pdes| == 2 * TableTotal(BigAlloc(v, n))
  {
    hide Good, DomsOk, DirsOk, DataOk, PagesOk, TablesOk, BigOk, CanBig, CanTake, AddPages, Cleared, Tables, SumTables,
         PageTotal;
    CanTakeBig(v, n);
    if Reuses(v.big, n) {
      ReuseTables(v, n);
    } else {
      FreshTables(v, n);
      TablesFromLarge(v.big.cursor, n);
    }
  }

  lemma BigData(v: View, n: nat)
    requires |v.doms| == CLASSES && DataOk(v) && BigOk(v.big) && CanTake(v.big, n) && |v.mmu.dirs| > 0
    ensures DataOk(BigAlloc(v, n))
  {
    hide DataOk, BigOk, CanTake, Cleared, AddPages;
    TakeFacts(v.big, n);
    SameLiveWords(v, BigAlloc(v, n));
  }

  /** kmalloc_large keeps the invariant, whether it carves or reuses. */
  lemma BigAllocInv(v: View, n: nat)
    requires Inv(v) && CanBig(v, n)
    ensures Inv(BigAlloc(v, n))
  {
    hide Good, DomsOk, DataOk, PagesOk, TablesOk, BigOk, CanBig, CanTake, AddPages, Cleared, BigTake, PageTotal,
         TableTotal;
    CanTakeBig(v, n);
    BigPages(v, n);
    if Reuses(v.big, n) { ReuseTables(v, n); } else { FreshTables(v, n); }
    BigPteCount(v, n);
    BigPdeCount(v, n);
    BigData(v, n);
    TakeKeeps(v.big, n);
    SameDoms(v, BigAlloc(v, n));
  }

  lemma SameDoms(v: View, v': View)
    requires DomsOk(v) && v'.doms == v.doms
    ensures DomsOk(v')
  {
  }

  // ---------------------------------------------------------------------------------------
  // kfree_large
  // ---------------------------------------------------------------------------------------

  lemma RegionPages(v: View, start: nat)
    requires |v.doms| == CLASSES && BigOk(v.big) && PagesOk(v) && start in v.big.live
    ensures v.big.live[start] >= 1 && LARGE_PAGE <= start && start + v.big.live[start] <= v.big.cursor
    ensures forall q: nat | start <= q < start + v.big.live[start] :: PageMapped(v.mmu, q)
  {
    assert Within(v.big, start, v.big.live[start]);
    forall q: nat | start <= q < start + v.big.live[start] ensures PageMapped(v.mmu, q) {
      assert LivePage(v.big, q);
      PageKnown(v, q);
    }
  }

  lemma ReleaseOwned(v: View, start: nat, q: nat)
    requires |v.doms| == CLASSES && BigOk(v.big) && start in v.big.live && v.big.live[start] >= 1
    requires LARGE_PAGE <= start
    ensures Owned(BigFree(v, start), q) <==> Owned(v, q) && !(start + 1 <= q < start + v.big.live[start])
  {
    var n := v.big.live[start];
    ReleaseLive(v.big, start, q);
    ReleaseHostage(v.big, start, q);
    if start <= q < start + n {
      assert LivePage(v.big, q);
      LiveNotHostage(v.big, q);
    }
    hide BigOk, LivePage, HostagePage, DropPages, BigRelease, Forget;
  }

  lemma BigFreePages(v: View, start: nat)
    requires Inv(v) && start in v.big.live
    ensures v.big.live[start] >= 1
    ensures Good(BigFree(v, start).mmu) && PagesOk(BigFree(v, start)) && BigFree(v, start).mmu.pdes == v.mmu.pdes
    ensures BigFree(v, start).mmu.dirs == v.mmu.dirs && |BigFree(v, start).mmu.ptes| == 2 * PageTotal(BigFree(v, start))
  {
    hide Good, DomsOk, DirsOk, DataOk, PagesOk, TablesOk, PageMapped, BigOk, DropPages, KeepsPages, Total, SumCarved,
         TableTotal, Owned, Forget;
    RegionPages(v, start);
    var n, v' := v.big.live[start], BigFree(v, start);
    DropPagesEffect(v.mmu, start + 1, n - 1);
    forall q: nat ensures PageMapped(v'.mmu, q) <==> Owned(v', q) {
      ReleaseOwned(v, start, q);
      PageKnown(v, q);
    }
    PagesIntro(v');
    TotalRemove(v.big.live, start);
  }

  lemma BigFreeData(v: View, start: nat)
    requires |v.doms| == CLASSES && DataOk(v) && start in v.big.live && v.big.live[start] >= 1
    ensures DataOk(BigFree(v, start))
  {
    hide DropPages;
    var v' := BigFree(v, start);
    forall a | a in v'.data ensures a % 4 == 0 && LiveWord(v', a) {
      assert LiveWord(v, a);
      if a >= 0x8000_0000 {
        var s :| s in v.big.live && s * 4096 + 4 <= a < (s + v.big.live[s]) * 4096;
        assert s in v'.big.live;
      }
    }
  }

  /** kfree_large keeps the invariant. */
  lemma BigFreeInv(v: View, start: nat)
    requires Inv(v) && start in v.big.live
    ensures v.big.live[start] >= 1 && Inv(BigFree(v, start))
  {
    hide Good, DomsOk, DataOk, PagesOk, BigOk, DropPages, PageTotal, Carved, HasTable, SumTables, Tables, Forget,
         BigRelease;
    BigFreePages(v, start);
    BigFreeData(v, start);
    ReleaseKeeps(v.big, start);
    var v' := BigFree(v, start);
    SameDoms(v, v');
    forall i: nat ensures HasTable(v'.mmu, i) <==> Carved(v', i) {
      TableKnown(v, i);
      SameStretches(v, start, i);
    }
    SameCursor(v.big, start);
  }

  lemma SameCursor(b: Big, start: nat)
    requires start in b.live
    ensures BigRelease(b, start).cursor == b.cursor
  {
  }

  lemma SameStretches(v: View, start: nat, i: nat)
    requires |v.doms| == CLASSES && start in v.big.live && v.big.live[start] >= 1
    ensures Carved(BigFree(v, start), i) <==> Carved(v, i)
    ensures HasTable(BigFree(v, start).mmu.(pdes := v.mmu.pdes), i) <==> HasTable(v.mmu, i)
  {
    hide DropPages, Forget;
  }
}
