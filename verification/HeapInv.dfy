/** The invariant of the abstract heap and the proof that every step keeps it. */
module HeapInv {
  import opened PageTables
  import opened Spaces
  import opened Regions
  import opened HeapModel
  import opened SizeClasses
  import opened LargeRegions

  ghost predicate DomsOk(v: View) {
    |v.doms| == CLASSES && forall k | 0 <= k < CLASSES :: DomOk(k, v.doms[k])
  }

  /** Exactly the pages the heap owns are mapped. */
  ghost predicate PagesOk(v: View)
    requires |v.doms| == CLASSES
  {
    forall p: nat :: PageMapped(v.mmu, p) <==> Owned(v, p)
  }

  /** Tables exist for exactly the 4 MB stretches carved from. */
  ghost predicate TablesOk(v: View)
    requires |v.doms| == CLASSES
  {
    forall i: nat :: HasTable(v.mmu, i) <==> Carved(v, i)
  }

  function SumCarved(s: seq<Dom>): nat
    requires |s| == CLASSES
  {
    s[0].carved + s[1].carved + s[2].carved + s[3].carved + s[4].carved + s[5].carved + s[6].carved
  }

  function SumTables(s: seq<Dom>): nat
    requires |s| == CLASSES
  {
    Tables(s[0].carved) + Tables(s[1].carved) + Tables(s[2].carved) + Tables(s[3].carved)
    + Tables(s[4].carved) + Tables(s[5].carved) + Tables(s[6].carved)
  }

  /** Pages owned: all carved small pages, all live large pages, one page per free slot. */
  ghost function PageTotal(v: View): nat
    requires |v.doms| == CLASSES
  {
    SumCarved(v.doms) + Total(v.big.live) + |v.big.slots|
  }

  function TableTotal(v: View): nat
    requires |v.doms| == CLASSES && LARGE_PAGE <= v.big.cursor
  {
    SumTables(v.doms) + Tables(v.big.cursor - LARGE_PAGE)
  }

  /** Each page has two entries, each carved stretch two tables. */
  ghost predicate CountsOk(v: View)
    requires |v.doms| == CLASSES && LARGE_PAGE <= v.big.cursor
  {
    |v.mmu.ptes| == 2 * PageTotal(v) && |v.mmu.pdes| == 2 * TableTotal(v)
  }

  /** A class that has carved pages has its directory; so has the large region. */
  predicate DirsOk(v: View)
    requires |v.doms| == CLASSES
  {
    && (forall k | 0 <= k < CLASSES :: v.doms[k].carved > 0 ==> k + 1 < |v.mmu.dirs|)
    && (v.big.cursor > LARGE_PAGE ==> 8 < |v.mmu.dirs|)
  }

  /** Recorded client data lies in live memory. */
  predicate DataOk(v: View)
    requires |v.doms| == CLASSES
  {
    forall a | a in v.data :: a % 4 == 0 && LiveWord(v, a)
  }

  ghost predicate Inv(v: View) {
    && |v.doms| == CLASSES && LARGE_PAGE <= v.big.cursor
    && Good(v.mmu) && DomsOk(v) && BigOk(v.big) && DirsOk(v)
    && PagesOk(v) && TablesOk(v) && CountsOk(v) && DataOk(v)
  }

  // ---------------------------------------------------------------------------------------
  // Carving a page
  // ---------------------------------------------------------------------------------------

  predicate CanCarve(v: View, k: nat)
    requires k < CLASSES && |v.doms| == CLASSES
  {
    && v.doms[k].carved < BAND_PAGES && k + 1 < |v.mmu.dirs|
    && InDirect(AddPage(v.mmu, BasePage(k) + v.doms[k].carved))
  }

  lemma CarveAddable(v: View, k: nat)
    requires Inv(v) && k < CLASSES && CanCarve(v, k)
    ensures var p := BasePage(k) + v.doms[k].carved;
            Addable(v.mmu, p) && Band(p) == k + 1 && p < LARGE_PAGE && HEAP_PAGE <= p
  {
    hide Good, DomOk, BigOk, TablesOk, CountsOk, DataOk, DirsOk, InDirect, AddPage;
    var p := BasePage(k) + v.doms[k].carved;
    assert !Owned(v, p);
    assert !PageMapped(v.mmu, p);
  }

  lemma CarveOwned(v: View, k: nat, p: nat)
    requires |v.doms| == CLASSES && k < CLASSES && |v.mmu.dirs| > 0 && v.doms[k].carved < BAND_PAGES
    ensures Owned(Carve(v, k), p) <==> p == BasePage(k) + v.doms[k].carved || Owned(v, p)
    ensures Carved(Carve(v, k), p) <==> (p * 1024 == BasePage(k) + v.doms[k].carved) || Carved(v, p)
  {
    hide AddPage, PageBlocks, LivePage, HostagePage;
  }

  lemma CarveTables(v: View, k: nat, i: nat)
    requires |v.doms| == CLASSES && k < CLASSES && |v.mmu.dirs| > 0 && v.doms[k].carved < BAND_PAGES
    ensures var p := BasePage(k) + v.doms[k].carved;
            && (Carved(Carve(v, k), i) <==> i == p / 1024 || Carved(v, i))
            && (Carved(v, p / 1024) <==> Tables(v.doms[k].carved + 1) == Tables(v.doms[k].carved))
            && 0 <= Tables(v.doms[k].carved + 1) - Tables(v.doms[k].carved) <= 1
  {
    hide Carve, Carved, Tables, BasePage;
    var c := v.doms[k].carved;
    CarveOwned(v, k, i);
    StretchOfPage(v, k, i, c);
    StretchOfPage(v, k, (BasePage(k) + c) / 1024, c);
    TableSteps(c);
  }

  lemma TableSteps(c: nat)
    ensures Tables(c + 1) == Tables(c) + if c % 1024 == 0 then 1 else 0
  {
  }

  /** Stretch i against the stretch of page c of class k. */
  lemma StretchOfPage(v: View, k: nat, i: nat, c: nat)
    requires |v.doms| == CLASSES && k < CLASSES && c == v.doms[k].carved < BAND_PAGES
    ensures var p := BasePage(k) + c;
            && (i * 1024 == p <==> i == p / 1024 && c % 1024 == 0)
            && (i == p / 1024 ==> (Carved(v, i) <==> c % 1024 != 0))
  {
    var p := BasePage(k) + c;
    assert p / 1024 == (k + 1) * 64 + c / 1024 && p % 1024 == c % 1024;
  }

  lemma CarveSums(s: seq<Dom>, k: nat, d: Dom)
    requires |s| == CLASSES && k < CLASSES
    ensures SumCarved(s[k := d]) == SumCarved(s) - s[k].carved + d.carved
    ensures SumTables(s[k := d]) == SumTables(s) - Tables(s[k].carved) + Tables(d.carved)
  {
    hide Tables;
  }

  lemma TableKnown(v: View, i: nat)
    requires |v.doms| == CLASSES && TablesOk(v)
    ensures HasTable(v.mmu, i) <==> Carved(v, i)
  {
  }

  lemma CarveCounts(v: View, k: nat)
    requires Inv(v) && k < CLASSES && CanCarve(v, k)
    ensures CountsOk(Carve(v, k))
  {
    hide Good, DomsOk, BigOk, TablesOk, PagesOk, DataOk, DirsOk, CanCarve, Addable, AddPage, Tables, Carved, Owned,
         PageBlocks, Total, SumCarved, SumTables, KeepsPages, PageMapped, HasTable;
    var p := BasePage(k) + v.doms[k].carved;
    CarveAddable(v, k);
    CarvedRoom(v, k);
    AddPageEffect(v.mmu, p);
    AddPageTableEffect(v.mmu, p);
    CarveTables(v, k, p / 1024);
    TableKnown(v, p / 1024);
    CarveSums(v.doms, k, CarvePage(k, v.doms[k]));
  }

  lemma CarvedRoom(v: View, k: nat)
    requires Inv(v) && k < CLASSES && CanCarve(v, k)
    ensures v.doms[k].carved < BAND_PAGES && |v.mmu.dirs| > 0 && Balanced(v.mmu)
  {
    hide DomOk, BigOk, TablesOk, PagesOk, DataOk, DirsOk, Balanced;
  }

  /** Live memory is the same in states with the same live blocks and regions. */
  lemma SameLiveWords(v: View, v': View)
    requires |v.doms| == CLASSES && |v'.doms| == CLASSES && DataOk(v)
    requires forall k | 0 <= k < CLASSES :: v.doms[k].live <= v'.doms[k].live
    requires forall s | s in v.big.live :: s in v'.big.live && v'.big.live[s] == v.big.live[s]
    requires v'.data == v.data
    ensures DataOk(v')
  {
    forall a | a in v'.data ensures a % 4 == 0 && LiveWord(v', a) {
      assert LiveWord(v, a);
      if a >= 0x8000_0000 {
        var s :| s in v.big.live && s * 4096 + 4 <= a < (s + v.big.live[s]) * 4096;
        assert s in v'.big.live;
      }
    }
  }

  lemma CarvePages(v: View, k: nat)
    requires Inv(v) && k < CLASSES && CanCarve(v, k)
    ensures Good(Carve(v, k).mmu) && PagesOk(Carve(v, k))
  {
    hide Good, DomsOk, BigOk, DirsOk, TablesOk, CountsOk, DataOk, CanCarve, Addable, AddPage, Carved, Owned, PageBlocks,
         KeepsPages, PageMapped, HasTable;
    var p := BasePage(k) + v.doms[k].carved;
    CarveAddable(v, k);
    CarvedRoom(v, k);
    AddPageEffect(v.mmu, p);
    forall q: nat ensures PageMapped(Carve(v, k).mmu, q) <==> Owned(Carve(v, k), q) { CarveOwned(v, k, q); }
  }

  lemma CarveStretches(v: View, k: nat)
    requires Inv(v) && k < CLASSES && CanCarve(v, k)
    ensures TablesOk(Carve(v, k))
  {
    hide Good, DomsOk, BigOk, DirsOk, PagesOk, CountsOk, DataOk, CanCarve, Addable, AddPage, Carved, Owned, PageBlocks,
         PageMapped, HasTable, Tables, Balanced;
    var p := BasePage(k) + v.doms[k].carved;
    CarveAddable(v, k);
    CarvedRoom(v, k);
    AddPageTableEffect(v.mmu, p);
    forall i: nat ensures HasTable(Carve(v, k).mmu, i) <==> Carved(Carve(v, k), i) { CarveTables(v, k, i); }
  }

  lemma CarveDirs(v: View, k: nat)
    requires |v.doms| == CLASSES && DirsOk(v) && k < CLASSES && CanCarve(v, k) && HEAP_PAGE <= BasePage(k)
    ensures DirsOk(Carve(v, k))
  {
    hide AddPage, PageBlocks, InDirect;
    AddPageGrows(v.mmu, BasePage(k) + v.doms[k].carved);
  }

  lemma CarveDoms(v: View, k: nat)
    requires DomsOk(v) && k < CLASSES && |v.mmu.dirs| > 0 && v.doms[k].carved < BAND_PAGES
    ensures DomsOk(Carve(v, k))
  {
    hide DomOk, AddPage, CarvePage;
    CarveKeeps(k, v.doms[k]);
  }

  lemma CarveData(v: View, k: nat)
    requires |v.doms| == CLASSES && DataOk(v) && k < CLASSES && |v.mmu.dirs| > 0
    ensures DataOk(Carve(v, k))
  {
    hide DataOk, AddPage, PageBlocks;
    SameLiveWords(v, Carve(v, k));
  }

  /** Carving one page, as init_heap_domain and heap_domain_alloc do. */
  lemma CarveInv(v: View, k: nat)
    requires Inv(v) && k < CLASSES && CanCarve(v, k)
    ensures Inv(Carve(v, k))
  {
    hide Good, DomsOk, BigOk, CountsOk, PagesOk, TablesOk, DirsOk, DataOk, CanCarve, AddPage, CarvePage;
    CarvePages(v, k);
    CarveStretches(v, k);
    CarveCounts(v, k);
    CarvedRoom(v, k);
    CarveDirs(v, k);
    CarveDoms(v, k);
    CarveData(v, k);
  }

  // ---------------------------------------------------------------------------------------
  // Blocks
  // ---------------------------------------------------------------------------------------

  /** Steps that carve nothing keep the page tables, the large regions and all totals. */
  lemma SamePages(v: View, v': View)
    requires Inv(v) && |v'.doms| == CLASSES && v'.mmu == v.mmu && v'.big == v.big
    requires forall k | 0 <= k < CLASSES :: v'.doms[k].carved == v.doms[k].carved
    ensures Good(v'.mmu) && BigOk(v'.big) && DirsOk(v') && PagesOk(v') && TablesOk(v') && CountsOk(v')
  {
    hide Good, DomOk, BigOk, DataOk, LivePage, HostagePage;
    forall p: nat ensures Owned(v', p) <==> Owned(v, p) {}
    forall i: nat ensures Carved(v', i) <==> Carved(v, i) {}
  }

  lemma PopDoms(v: View, k: nat)
    requires DomsOk(v) && k < CLASSES && v.doms[k].free != []
    ensures DomsOk(Pop(v, k))
  {
    hide DomOk, PopBlock;
    PopKeeps(k, v.doms[k]);
  }

  lemma PopData(v: View, k: nat)
    requires |v.doms| == CLASSES && DataOk(v) && k < CLASSES && v.doms[k].free != []
    ensures DataOk(Pop(v, k))
  {
    hide DataOk;
    SameLiveWords(v, Pop(v, k));
  }

  lemma PopInv(v: View, k: nat)
    requires Inv(v) && k < CLASSES && v.doms[k].free != []
    ensures Inv(Pop(v, k))
  {
    hide Good, DomsOk, BigOk, CountsOk, PagesOk, TablesOk, DirsOk, DataOk;
    SamePages(v, Pop(v, k));
    PopDoms(v, k);
    PopData(v, k);
  }

  lemma DomFreeData(v: View, k: nat, ptr: nat)
    requires |v.doms| == CLASSES && k < CLASSES && DataOk(v)
    ensures DataOk(DomFree(v, k, ptr))
  {
    var v' := DomFree(v, k, ptr);
    forall a | a in v'.data ensures a % 4 == 0 && LiveWord(v', a) {
      assert LiveWord(v, a);
    }
  }

  lemma DomFreeDoms(v: View, k: nat, ptr: nat)
    requires DomsOk(v) && k < CLASSES && ptr in v.doms[k].live
    ensures DomsOk(DomFree(v, k, ptr))
  {
    hide DomOk, PushBlock, Forget;
    PushKeeps(k, v.doms[k], ptr);
  }

  lemma DomFreeInv(v: View, k: nat, ptr: nat)
    requires Inv(v) && k < CLASSES && ptr in v.doms[k].live
    ensures Inv(DomFree(v, k, ptr))
  {
    hide Good, DomsOk, BigOk, CountsOk, PagesOk, TablesOk, DirsOk, DataOk, Forget;
    SamePages(v, DomFree(v, k, ptr));
    DomFreeDoms(v, k, ptr);
    DomFreeData(v, k, ptr);
  }
}
