/**
 * Pages shared by two directories. Every heap page is mapped twice, in the directory of its
 * 256 MB band and in the kernel's; `AddPage` and `DropPage` are the two ways the heap changes
 * that, and `Balanced` is what they keep.
 */
module Spaces {
  import opened PageTables
  import opened MapLaw

  /** First page of the first size class, and of the large-allocation region. */
  const HEAP_PAGE: nat := 0x1_0000
  const LARGE_PAGE: nat := 0x8_0000

  /** The directory that owns page p besides the kernel's: one per 256 MB, the last for all of 0x80000000 up. */
  function Band(p: nat): nat {
    if p < LARGE_PAGE then p / 0x1_0000 else 8
  }

  function AddPage(m: Mmu, p: nat): Mmu
    requires |m.dirs| > 0
  {
    var f := NextFrame(m);
    Map(Map(Take(m, Page(p)), Band(p), p, f, PAGE_KERNEL), 0, p, f, PAGE_KERNEL)
  }

  function DropPage(m: Mmu, p: nat): Mmu
    requires (0, p) in m.ptes
  {
    Release(m.(ptes := m.ptes - {(Band(p), p)} - {(0, p)}), m.ptes[(0, p)].frame)
  }

  predicate PageMapped(m: Mmu, p: nat) {
    (0, p) in m.ptes
  }

  /** Page p can be added: in the heap, unmapped, its band's directory made, its frames in reach. */
  predicate Addable(m: Mmu, p: nat) {
    && |m.dirs| > 0 && HEAP_PAGE <= p < KERNEL_PAGE && Band(p) < |m.dirs|
    && !PageMapped(m, p) && InDirect(AddPage(m, p))
  }

  // ---------------------------------------------------------------------------------------
  // The invariant
  // ---------------------------------------------------------------------------------------

  /** Page entries come in equal pairs: the kernel's and the band's. */
  predicate PagePair(m: Mmu, d: nat, p: nat)
    requires (d, p) in m.ptes
  {
    && HEAP_PAGE <= p && (d == 0 || d == Band(p))
    && (0, p) in m.ptes && (Band(p), p) in m.ptes
    && m.ptes[(d, p)] == m.ptes[(0, p)] && m.ptes[(d, p)].flags == PAGE_KERNEL
  }

  predicate TablePair(m: Mmu, d: nat, i: nat)
    requires (d, i) in m.pdes
  {
    && HEAP_PAGE <= i * 1024 && (d == 0 || d == Band(i * 1024))
    && (0, i) in m.pdes && (Band(i * 1024), i) in m.pdes
    && m.pdes[(d, i)].flags == PAGE_KERNEL
  }

  /** A marked frame does what its role says. */
  predicate RoleMet(m: Mmu, f: nat)
    requires |m.dirs| > 0 && f in m.own
  {
    match m.own[f]
    case Reserved => f < Reserve(m)
    case Directory(d) => 0 < d < |m.dirs| && m.dirs[d] == f
    case Table(d, i) => (d, i) in m.pdes && m.pdes[(d, i)].frame == f
    case Page(p) => (0, p) in m.ptes && m.ptes[(0, p)].frame == f
  }

  /** Twice the number of marked frames, role by role: each page has two entries. */
  predicate Counted(m: Mmu)
    requires |m.dirs| > 0
  {
    2 * |m.own| == 2 * (Reserve(m) + |m.dirs| - 1 + |m.pdes|) + |m.ptes|
  }

  predicate Balanced(m: Mmu) {
    && |m.dirs| > 0
    && (forall x | x in m.ptes :: PagePair(m, x.0, x.1))
    && (forall x | x in m.pdes :: TablePair(m, x.0, x.1))
    && (forall f | f in m.own :: RoleMet(m, f))
    && Counted(m)
  }

  // ---------------------------------------------------------------------------------------
  // AddPage
  // ---------------------------------------------------------------------------------------

  lemma MapKeepsWf(m: Mmu, d: nat, p: nat, frame: nat, flags: nat)
    requires CanMap(m, d, p, frame, flags)
    ensures Wf(Map(m, d, p, frame, flags))
  {
    var t := WithTable(m, d, p, flags);
    if (d, p / 1024) !in m.pdes { InstallKeepsWf(m, d, p / 1024, flags); }
    SetPteKeepsWf(t, d, p, Entry(frame, flags));
  }

  /** The three steps of AddPage. */
  function Taken(m: Mmu, p: nat): Mmu { Take(m, Page(p)) }

  function HalfAdded(m: Mmu, p: nat): Mmu
    requires |m.dirs| > 0
  {
    Map(Taken(m, p), Band(p), p, NextFrame(m), PAGE_KERNEL)
  }

  lemma AddPageSteps(m: Mmu, p: nat)
    requires Wf(m) && Addable(m, p)
    ensures NextFrame(m) < DIRECT_FRAMES && Wf(Taken(m, p))
    ensures CanMap(Taken(m, p), Band(p), p, NextFrame(m), PAGE_KERNEL)
    ensures Wf(HalfAdded(m, p))
    ensures CanMap(HalfAdded(m, p), 0, p, NextFrame(m), PAGE_KERNEL)
    ensures Wf(AddPage(m, p))
  {
    var f, m1, m2, m3 := NextFrame(m), Taken(m, p), HalfAdded(m, p), AddPage(m, p);
    MapGrows(m2, 0, p, f);
    MapGrows(m1, Band(p), p, f);
    assert f in m3.own;
    assert (Band(p), p / 1024) in m1.pdes || NextFrame(m1) in m3.own;
    assert (0, p / 1024) in m2.pdes || NextFrame(m2) in m3.own;
    TakeKeepsWf(m, Page(p));
    MapKeepsWf(m1, Band(p), p, f, PAGE_KERNEL);
    MapKeepsWf(m2, 0, p, f, PAGE_KERNEL);
  }

  /** map_page only adds frames, and takes the next free one exactly when the index had no table. */
  lemma MapGrows(m: Mmu, d: nat, p: nat, f: nat)
    requires |m.dirs| > 0 && p / 1024 != 0
    ensures var m' := Map(m, d, p, f, PAGE_KERNEL);
            && m'.dirs == m.dirs && m'.cleared == m.cleared
            && m'.ptes == m.ptes[(d, p) := Entry(f, PAGE_KERNEL)]
            && (if (d, p / 1024) in m.pdes then m'.own == m.own && m'.pdes == m.pdes
                else && m'.own == m.own[NextFrame(m) := Table(d, p / 1024)]
                     && m'.pdes == m.pdes[(d, p / 1024) := Entry(NextFrame(m), PAGE_KERNEL)])
  {
  }

  lemma InsertSize<K, V>(m: map<K, V>, k: K, v: V)
    requires k !in m
    ensures |m[k := v]| == |m| + 1 && m[k := v].Keys == m.Keys + {k}
  {
    assert m[k := v].Keys == m.Keys + {k};
  }

  lemma RemoveSize<K, V>(m: map<K, V>, k: K)
    requires k in m
    ensures |m - {k}| == |m| - 1 && (m - {k}).Keys == m.Keys - {k}
  {
    assert (m - {k}).Keys == m.Keys - {k};
  }

  lemma MapCounts(m: Mmu, d: nat, p: nat, f: nat)
    requires |m.dirs| > 0 && p / 1024 != 0
    ensures var m' := Map(m, d, p, f, PAGE_KERNEL);
            && m'.pdes.Keys == m.pdes.Keys + {(d, p / 1024)}
            && |m'.own| - |m.own| == |m'.pdes| - |m.pdes|
            && (forall x | x in m.pdes :: m'.pdes[x] == m.pdes[x])
  {
    hide Map, NextFrame;
    MapGrows(m, d, p, f);
    NextIsFree(m);
    var key, m' := (d, p / 1024), Map(m, d, p, f, PAGE_KERNEL);
    if key !in m.pdes {
      InsertSize(m.own, NextFrame(m), Table(d, p / 1024));
      Inserted(m.pdes, m'.pdes, key, Entry(NextFrame(m), PAGE_KERNEL));
    } else {
      SameKeys(m.pdes, key);
    }
  }

  lemma Inserted<K, V>(m: map<K, V>, m': map<K, V>, k: K, v: V)
    requires k !in m && m' == m[k := v]
    ensures |m'| == |m| + 1 && m'.Keys == m.Keys + {k} && forall x | x in m :: m'[x] == m[x]
  {
    InsertSize(m, k, v);
  }

  lemma SameKeys<K, V>(m: map<K, V>, k: K)
    requires k in m
    ensures m.Keys == m.Keys + {k}
  {
  }

  /** What AddPage changes: one pair of page entries, at most one pair of tables, a frame for each. */
  lemma AddPageShape(m: Mmu, p: nat)
    requires |m.dirs| > 0 && HEAP_PAGE <= p
    ensures var m' := AddPage(m, p); var b := Band(p); var i := p / 1024;
            && m'.pdes.Keys == m.pdes.Keys + {(b, i)} + {(0, i)}
            && (forall x | x in m.pdes :: m'.pdes[x] == m.pdes[x])
            && |m'.own| == |m.own| + 1 + |m'.pdes| - |m.pdes|
  {
    var f, m1, m2 := NextFrame(m), Taken(m, p), HalfAdded(m, p);
    MapCounts(m1, Band(p), p, f);
    MapCounts(m2, 0, p, f);
    InsertSize(m.own, f, Page(p));
  }

  lemma AddPageEntries(m: Mmu, p: nat)
    requires |m.dirs| > 0 && HEAP_PAGE <= p
    ensures var m' := AddPage(m, p); var e := Entry(NextFrame(m), PAGE_KERNEL);
            && m'.dirs == m.dirs && m'.cleared == m.cleared
            && m'.ptes == m.ptes[(Band(p), p) := e][(0, p) := e]
  {
    MapGrows(Taken(m, p), Band(p), p, NextFrame(m));
    MapGrows(HalfAdded(m, p), 0, p, NextFrame(m));
  }

  /** Installing a table, or entering a page, keeps the roles of all other frames. */
  lemma MapKeepsRoles(m: Mmu, d: nat, p: nat, f: nat, g: nat)
    requires |m.dirs| > 0 && p / 1024 != 0 && g in Map(m, d, p, f, PAGE_KERNEL).own
    requires g in m.own ==> RoleMet(m, g)
    requires d == 0 ==> (0, p) !in m.ptes
    ensures RoleMet(Map(m, d, p, f, PAGE_KERNEL), g)
  {
    MapGrows(m, d, p, f);
  }

  lemma AddPageRoles(m: Mmu, p: nat, g: nat)
    requires Balanced(m) && HEAP_PAGE <= p && (0, p) !in m.ptes && Band(p) != 0 && g in AddPage(m, p).own
    ensures RoleMet(AddPage(m, p), g)
  {
    var f, m1, m2 := NextFrame(m), Taken(m, p), HalfAdded(m, p);
    MapGrows(m1, Band(p), p, f);
    MapGrows(m2, 0, p, f);
    if g != f {
      if g in m.own { assert RoleMet(m, g); assert RoleMet(m1, g); }
      if g in m2.own { MapKeepsRoles(m1, Band(p), p, f, g); }
      MapKeepsRoles(m2, 0, p, f, g);
    }
  }

  lemma AddPagePairs(m: Mmu, p: nat)
    requires Balanced(m) && HEAP_PAGE <= p && (0, p) !in m.ptes && (Band(p), p) !in m.ptes
    ensures var m' := AddPage(m, p); forall x | x in m'.ptes :: PagePair(m', x.0, x.1)
  {
    var m' := AddPage(m, p);
    AddPageEntries(m, p);
    forall x | x in m'.ptes ensures PagePair(m', x.0, x.1) {
      if x.1 != p { assert PagePair(m, x.0, x.1); }
    }
  }

  lemma BandOfIndex(p: nat)
    requires HEAP_PAGE <= p
    ensures HEAP_PAGE <= p / 1024 * 1024 && Band(p / 1024 * 1024) == Band(p) && Band(p) != 0
  {
  }

  lemma MapTablePairs(m: Mmu, d: nat, p: nat, f: nat, x: (nat, nat))
    requires |m.dirs| > 0 && HEAP_PAGE <= p && (d == 0 || d == Band(p))
    requires x in Map(m, d, p, f, PAGE_KERNEL).pdes
    requires x in m.pdes ==> m.pdes[x].flags == PAGE_KERNEL
    ensures Map(m, d, p, f, PAGE_KERNEL).pdes[x].flags == PAGE_KERNEL
  {
    MapGrows(m, d, p, f);
  }

  lemma AddPageTables(m: Mmu, p: nat)
    requires Balanced(m) && HEAP_PAGE <= p
    ensures var m' := AddPage(m, p); forall x | x in m'.pdes :: TablePair(m', x.0, x.1)
  {
    var f, m1, m2, m' := NextFrame(m), Taken(m, p), HalfAdded(m, p), AddPage(m, p);
    AddPageShape(m, p);
    BandOfIndex(p);
    forall x | x in m'.pdes ensures TablePair(m', x.0, x.1) {
      if x in m1.pdes { assert TablePair(m, x.0, x.1); }
      if x in m2.pdes { MapTablePairs(m1, Band(p), p, f, x); }
      MapTablePairs(m2, 0, p, f, x);
    }
  }

  lemma AddPageCounted(m: Mmu, p: nat)
    requires |m.dirs| > 0 && Counted(m) && HEAP_PAGE <= p && (0, p) !in m.ptes && (Band(p), p) !in m.ptes
    ensures Counted(AddPage(m, p)) && |AddPage(m, p).ptes| == |m.ptes| + 2
  {
    var e := Entry(NextFrame(m), PAGE_KERNEL);
    BandOfIndex(p);
    AddPageEntries(m, p);
    AddPageShape(m, p);
    InsertSize(m.ptes, (Band(p), p), e);
    InsertSize(m.ptes[(Band(p), p) := e], (0, p), e);
  }

  lemma AddPageAllRoles(m: Mmu, p: nat)
    requires Balanced(m) && HEAP_PAGE <= p && (0, p) !in m.ptes
    ensures |AddPage(m, p).dirs| > 0
    ensures forall g | g in AddPage(m, p).own :: RoleMet(AddPage(m, p), g)
  {
    BandOfIndex(p);
    AddPageEntries(m, p);
    forall g | g in AddPage(m, p).own ensures RoleMet(AddPage(m, p), g) { AddPageRoles(m, p, g); }
  }

  /** AddPage keeps every page doubly mapped and every frame in exactly one role. */
  lemma AddPageBalanced(m: Mmu, p: nat)
    requires Balanced(m) && HEAP_PAGE <= p && (0, p) !in m.ptes && (Band(p), p) !in m.ptes
    ensures Balanced(AddPage(m, p)) && |AddPage(m, p).ptes| == |m.ptes| + 2
  {
    AddPagePairs(m, p);
    AddPageTables(m, p);
    AddPageAllRoles(m, p);
    AddPageCounted(m, p);
  }

  // ---------------------------------------------------------------------------------------
  // DropPage
  // ---------------------------------------------------------------------------------------

  /** The entries of page p gone, its frame still marked. */
  function Unmapped(m: Mmu, p: nat): Mmu {
    m.(ptes := m.ptes - {(Band(p), p)} - {(0, p)})
  }

  lemma DropPageSteps(m: Mmu, p: nat)
    requires Wf(m) && Balanced(m) && (0, p) in m.ptes
    ensures var f := m.ptes[(0, p)].frame;
            && (Band(p), p) in m.ptes && Band(p) != 0 && m.ptes[(Band(p), p)].frame == f
            && f in m.own && m.own[f] == Page(p)
            && Wf(Unmapped(m, p))
            && (forall x | x in Unmapped(m, p).ptes :: Unmapped(m, p).ptes[x].frame != f)
    ensures Wf(DropPage(m, p))
  {
    assert PteOk(m, 0, p) && PagePair(m, 0, p);
    BandOfIndex(p);
    var f := m.ptes[(0, p)].frame;
    forall x | x in Unmapped(m, p).ptes ensures m.ptes[x].frame != f {
      assert PteOk(m, x.0, x.1) && PagePair(m, x.0, x.1);
    }
    ErasePteKeepsWf(m, Band(p), p);
    ErasePteKeepsWf(m.(ptes := m.ptes - {(Band(p), p)}), 0, p);
    ReleaseKeepsWf(Unmapped(m, p), f);
  }

  lemma DropPageCounted(m: Mmu, p: nat)
    requires |m.dirs| > 0 && Counted(m) && Band(p) != 0
    requires (0, p) in m.ptes && (Band(p), p) in m.ptes && m.ptes[(0, p)].frame in m.own
    ensures Counted(DropPage(m, p)) && |DropPage(m, p).ptes| == |m.ptes| - 2
    ensures |DropPage(m, p).own| == |m.own| - 1
  {
    RemoveSize(m.ptes, (Band(p), p));
    RemoveSize(m.ptes - {(Band(p), p)}, (0, p));
    RemoveSize(m.own, m.ptes[(0, p)].frame);
  }

  lemma DropPagePairs(m: Mmu, p: nat)
    requires |m.dirs| > 0 && (0, p) in m.ptes && forall x | x in m.ptes :: PagePair(m, x.0, x.1)
    ensures forall x | x in DropPage(m, p).ptes :: PagePair(DropPage(m, p), x.0, x.1)
  {
    var m' := DropPage(m, p);
    forall x | x in m'.ptes ensures PagePair(m', x.0, x.1) { assert PagePair(m, x.0, x.1); }
  }

  lemma DropPageTables(m: Mmu, p: nat)
    requires (0, p) in m.ptes && forall x | x in m.pdes :: TablePair(m, x.0, x.1)
    ensures forall x | x in DropPage(m, p).pdes :: TablePair(DropPage(m, p), x.0, x.1)
  {
    var m' := DropPage(m, p);
    forall x | x in m'.pdes ensures TablePair(m', x.0, x.1) { assert TablePair(m, x.0, x.1); }
  }

  lemma DropPageRoles(m: Mmu, p: nat)
    requires |m.dirs| > 0 && (0, p) in m.ptes && forall f | f in m.own :: RoleMet(m, f)
    ensures |DropPage(m, p).dirs| > 0
    ensures forall f | f in DropPage(m, p).own :: RoleMet(DropPage(m, p), f)
  {
    var m' := DropPage(m, p);
    forall g | g in m'.own ensures RoleMet(m', g) { assert RoleMet(m, g); }
  }

  /** DropPage keeps the balance too. */
  lemma DropPageBalanced(m: Mmu, p: nat)
    requires Wf(m) && Balanced(m) && (0, p) in m.ptes
    ensures Wf(DropPage(m, p)) && Balanced(DropPage(m, p)) && |DropPage(m, p).ptes| == |m.ptes| - 2
    ensures |DropPage(m, p).own| == |m.own| - 1
  {
    DropPageSteps(m, p);
    DropPageCounted(m, p);
    DropPagePairs(m, p);
    DropPageTables(m, p);
    DropPageRoles(m, p);
  }
}
