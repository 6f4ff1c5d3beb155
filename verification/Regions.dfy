/** Runs of pages, new directories and the state at boot. */
module Regions {
  import opened Frames
  import opened PageTables
  import opened Spaces

  predicate Good(m: Mmu) {
    Wf(m) && Balanced(m)
  }

  predicate HasTable(m: Mmu, i: nat) {
    (0, i) in m.pdes
  }

  /** Pages mapped in `m` keep their frame in `m'`. */
  ghost predicate KeepsPages(m: Mmu, m': Mmu) {
    forall q: nat | PageMapped(m, q) && PageMapped(m', q) :: m'.ptes[(0, q)] == m.ptes[(0, q)]
  }

  lemma BandMapped(m: Mmu, p: nat)
    requires Balanced(m) && HEAP_PAGE <= p
    ensures (Band(p), p) in m.ptes <==> (0, p) in m.ptes
  {
    if (0, p) in m.ptes { assert PagePair(m, 0, p); }
    if (Band(p), p) in m.ptes { assert PagePair(m, Band(p), p); }
  }

  lemma BandTable(m: Mmu, p: nat)
    requires Balanced(m) && HEAP_PAGE <= p
    ensures (Band(p), p / 1024) in m.pdes <==> (0, p / 1024) in m.pdes
  {
    hide Band, PagePair, RoleMet, Counted;
    BandOfIndex(p);
    var i := p / 1024;
    if (0, i) in m.pdes { assert TablePair(m, 0, i); }
    if (Band(p), i) in m.pdes { assert TablePair(m, Band(p), i); }
  }

  // ---------------------------------------------------------------------------------------
  // One page
  // ---------------------------------------------------------------------------------------

  lemma AddPageEffect(m: Mmu, p: nat)
    requires Good(m) && Addable(m, p)
    ensures var m' := AddPage(m, p);
            && Good(m') && KeepsPages(m, m')
            && m'.dirs == m.dirs && m'.cleared == m.cleared
            && (forall q: nat :: PageMapped(m', q) <==> q == p || PageMapped(m, q))
            && |m'.ptes| == |m.ptes| + 2
  {
    hide Wf, Balanced, AddPage, InDirect;
    BandMapped(m, p);
    assert |m.dirs| > 0;
    AddPageSteps(m, p);
    AddPageBalanced(m, p);
    AddPageEntries(m, p);
  }

  lemma TwoKeys<K, V>(m: map<K, V>, m': map<K, V>, a: K, b: K)
    requires m'.Keys == m.Keys + {a} + {b} && a != b && forall x | x in m :: m'[x] == m[x]
    ensures a in m && b in m ==> m' == m
    ensures a !in m && b !in m ==> |m'| == |m| + 2
  {
    if a in m && b in m {
      assert m'.Keys == m.Keys;
    } else if a !in m && b !in m {
      assert |m'.Keys| == |m.Keys + {a} + {b}|;
    }
  }

  lemma OneMoreTable(m: Mmu, m': Mmu, b: nat, i: nat)
    requires b != 0 && m'.pdes.Keys == m.pdes.Keys + {(b, i)} + {(0, i)}
    ensures forall j: nat :: HasTable(m', j) <==> j == i || HasTable(m, j)
  {
    forall j: nat ensures HasTable(m', j) <==> j == i || HasTable(m, j) {
      assert (0, j) in m'.pdes.Keys <==> (0, j) in m.pdes.Keys + {(b, i)} + {(0, i)};
    }
  }

  lemma AddPageTableEffect(m: Mmu, p: nat)
    requires Balanced(m) && |m.dirs| > 0 && HEAP_PAGE <= p
    ensures var m' := AddPage(m, p);
            && (forall i: nat :: HasTable(m', i) <==> i == p / 1024 || HasTable(m, i))
            && |m'.own| - |m.own| == 1 + |m'.pdes| - |m.pdes|
            && (if HasTable(m, p / 1024) then m'.pdes == m.pdes else |m'.pdes| == |m.pdes| + 2)
  {
    hide Balanced, AddPage, Band;
    var m', i, b := AddPage(m, p), p / 1024, Band(p);
    BandTable(m, p);
    BandOfIndex(p);
    AddPageShape(m, p);
    TwoKeys(m.pdes, m'.pdes, (b, i), (0, i));
    OneMoreTable(m, m', b, i);
  }

  /** AddPage never gives a frame up. */
  lemma AddPageGrows(m: Mmu, p: nat)
    requires |m.dirs| > 0 && HEAP_PAGE <= p
    ensures m.own.Keys <= AddPage(m, p).own.Keys && AddPage(m, p).dirs == m.dirs
  {
    MapGrows(Taken(m, p), Band(p), p, NextFrame(m));
    MapGrows(HalfAdded(m, p), 0, p, NextFrame(m));
  }

  // ---------------------------------------------------------------------------------------
  // Runs of pages
  // ---------------------------------------------------------------------------------------

  /** Pages p, p + 1, ..., p + n - 1 added in that order. */
  function AddPages(m: Mmu, p: nat, n: nat): (r: Mmu)
    requires |m.dirs| > 0
    ensures r.dirs == m.dirs
  {
    if n == 0 then m else AddPage(AddPages(m, p, n - 1), p + n - 1)
  }

  predicate AddableRun(m: Mmu, p: nat, n: nat) {
    && |m.dirs| > 0 && HEAP_PAGE <= p && p + n <= KERNEL_PAGE
    && (forall q: nat | p <= q < p + n :: Band(q) < |m.dirs| && !PageMapped(m, q))
    && InDirect(AddPages(m, p, n))
  }

  lemma AddableShorter(m: Mmu, p: nat, n: nat)
    requires AddableRun(m, p, n) && n > 0
    ensures AddableRun(m, p, n - 1)
  {
    hide AddPage, Band;
    AddPageGrows(AddPages(m, p, n - 1), p + n - 1);
  }

  lemma {:induction false} AddablePrefix(m: Mmu, p: nat, n: nat, i: nat)
    requires AddableRun(m, p, n) && i <= n
    ensures AddableRun(m, p, i)
  {
    hide AddPage, Band, InDirect;
    if i < n {
      AddableShorter(m, p, n);
      AddablePrefix(m, p, n - 1, i);
    }
  }

  /** Page i of a run can be added once the pages before it have been. */
  lemma NextInRun(m: Mmu, p: nat, n: nat, i: nat)
    requires Good(m) && AddableRun(m, p, n) && i < n
    ensures var r := AddPages(m, p, i);
            Good(r) && Addable(r, p + i) && r.dirs == m.dirs && AddPages(m, p, i + 1) == AddPage(r, p + i)
  {
    hide Good, AddPage, InDirect, KeepsPages;
    AddablePrefix(m, p, n, i);
    AddablePrefix(m, p, n, i + 1);
    AddPagesEffect(m, p, i);
  }

  lemma {:induction false} AddPagesEffect(m: Mmu, p: nat, n: nat)
    requires Good(m) && AddableRun(m, p, n)
    ensures var m' := AddPages(m, p, n);
            && Good(m') && KeepsPages(m, m') && m'.dirs == m.dirs && m'.cleared == m.cleared
            && (forall q: nat :: PageMapped(m', q) <==> p <= q < p + n || PageMapped(m, q))
            && |m'.ptes| == |m.ptes| + 2 * n
  {
    hide Wf, Balanced, AddPage;
    if n > 0 {
      AddableShorter(m, p, n);
      AddPagesEffect(m, p, n - 1);
      AddPageEffect(AddPages(m, p, n - 1), p + n - 1);
    }
  }

  /** First fit takes a frame no higher than the number of marked frames. */
  lemma TakeFits(m: Mmu, role: Role)
    requires InDirect(m) && |m.own| < DIRECT_FRAMES
    ensures InDirect(Take(m, role)) && |Take(m, role).own| == |m.own| + 1
  {
    FirstFreeBound(m.own.Keys);
    InsertSize(m.own, NextFrame(m), role);
    assert |m.own.Keys| == |m.own|;
  }

  lemma MapFits(m: Mmu, d: nat, p: nat, f: nat)
    requires InDirect(m) && |m.dirs| > 0 && p / 1024 != 0
    requires |Map(m, d, p, f, PAGE_KERNEL).own| <= DIRECT_FRAMES
    ensures InDirect(Map(m, d, p, f, PAGE_KERNEL)) && |m.own| <= |Map(m, d, p, f, PAGE_KERNEL).own|
  {
    hide Map, InDirect, NextFrame;
    MapGrows(m, d, p, f);
    if (d, p / 1024) !in m.pdes {
      InsertSize(m.own, NextFrame(m), Table(d, p / 1024)) by { NextIsFree(m); }
      TakeFits(m, Table(d, p / 1024));
      SameOwnFits(Take(m, Table(d, p / 1024)), Map(m, d, p, f, PAGE_KERNEL));
    } else {
      SameOwnFits(m, Map(m, d, p, f, PAGE_KERNEL));
    }
  }

  lemma SameOwnFits(m: Mmu, m': Mmu)
    requires m'.own == m.own && InDirect(m)
    ensures InDirect(m')
  {
  }

  lemma AddPageFits(m: Mmu, p: nat)
    requires InDirect(m) && |m.dirs| > 0 && HEAP_PAGE <= p && |AddPage(m, p).own| <= DIRECT_FRAMES
    ensures InDirect(AddPage(m, p)) && |m.own| < |AddPage(m, p).own|
  {
    hide Map, InDirect, Take;
    var f, m1, m2 := NextFrame(m), Taken(m, p), HalfAdded(m, p);
    TakeSize(m, Page(p));
    MapSizes(m1, Band(p), p, f);
    MapSizes(m2, 0, p, f);
    TakeFits(m, Page(p));
    MapFits(m1, Band(p), p, f);
    MapFits(m2, 0, p, f);
  }

  lemma TakeSize(m: Mmu, role: Role)
    ensures |Take(m, role).own| == |m.own| + 1 && Take(m, role).dirs == m.dirs
  {
    InsertSize(m.own, NextFrame(m), role);
  }

  lemma MapSizes(m: Mmu, d: nat, p: nat, f: nat)
    requires |m.dirs| > 0 && p / 1024 != 0
    ensures |m.own| <= |Map(m, d, p, f, PAGE_KERNEL).own| && Map(m, d, p, f, PAGE_KERNEL).dirs == m.dirs
  {
    hide Map, NextFrame;
    MapGrows(m, d, p, f);
    if (d, p / 1024) !in m.pdes {
      NextIsFree(m);
      InsertSize(m.own, NextFrame(m), Table(d, p / 1024));
    }
  }

  /** A run of pages stays in reach exactly when the marked frames still fit below 0x40000000. */
  lemma {:induction false} AddPagesFits(m: Mmu, p: nat, n: nat)
    requires InDirect(m) && |m.dirs| > 0 && HEAP_PAGE <= p
    ensures |m.own| <= |AddPages(m, p, n).own|
    ensures |AddPages(m, p, n).own| <= DIRECT_FRAMES <==> InDirect(AddPages(m, p, n))
  {
    hide AddPage, InDirect;
    if n == 0 {
      InDirectSize(m);
    } else {
      var r := AddPages(m, p, n - 1);
      AddPagesFits(m, p, n - 1);
      AddPageGrows(r, p + n - 1);
      SubsetSize(r.own.Keys, AddPage(r, p + n - 1).own.Keys);
      if |AddPage(r, p + n - 1).own| <= DIRECT_FRAMES { AddPageFits(r, p + n - 1); }
      if InDirect(AddPage(r, p + n - 1)) { InDirectSize(AddPage(r, p + n - 1)); }
    }
  }

  lemma InDirectSize(m: Mmu)
    requires InDirect(m)
    ensures |m.own| <= DIRECT_FRAMES
  {
    assert m.own.Keys <= Below(DIRECT_FRAMES);
    SubsetSize(m.own.Keys, Below(DIRECT_FRAMES));
    assert |m.own.Keys| == |m.own|;
  }

  /** Number of 4 MB tables that pages below p need, counted from page 0. */
  function Tables(p: nat): nat {
    (p + 1023) / 1024
  }

  /** Indices are in use exactly up to the carving boundary p. */
  predicate Boundary(m: Mmu, p: nat, end: nat) {
    && (p % 1024 != 0 ==> HasTable(m, p / 1024))
    && forall i: nat | Tables(p) <= i < Tables(end) :: !HasTable(m, i)
  }

  /** The last page of a fresh run starts a new table exactly at a 4 MB boundary. */
  lemma BoundaryIndex(m: Mmu, r: Mmu, p: nat, n: nat)
    requires n > 0 && Boundary(m, p, p + n)
    requires forall i: nat :: HasTable(r, i) <==> (n > 1 && p / 1024 <= i <= (p + n - 2) / 1024) || HasTable(m, i)
    ensures HasTable(r, (p + n - 1) / 1024) <==> Tables(p + n) == Tables(p + n - 1)
    ensures 0 <= Tables(p + n) - Tables(p + n - 1) <= 1
  {
    var q := p + n - 1;
    if q % 1024 == 0 {
      assert q / 1024 == Tables(q) && Tables(p) <= q / 1024 < Tables(p + n);
    } else if n > 1 {
      assert (q - 1) / 1024 == q / 1024;
    }
  }

  /** Carving n fresh pages costs two tables for each 4 MB boundary crossed, and a frame for each page and table. */
  lemma {:induction false} AddPagesFreshTables(m: Mmu, p: nat, n: nat)
    requires Balanced(m) && |m.dirs| > 0 && HEAP_PAGE <= p && Boundary(m, p, p + n)
    requires forall q: nat | p <= q < p + n :: !PageMapped(m, q)
    ensures var m', t := AddPages(m, p, n), Tables(p + n) - Tables(p);
            && Balanced(m') && |m'.pdes| == |m.pdes| + 2 * t && |m'.own| == |m.own| + n + 2 * t
            && (forall q: nat :: PageMapped(m', q) <==> p <= q < p + n || PageMapped(m, q))
            && (forall i: nat :: HasTable(m', i) <==> (n > 0 && p / 1024 <= i <= (p + n - 1) / 1024) || HasTable(m, i))
  {
    hide Balanced, AddPage, PageMapped, HasTable, Boundary, Tables;
    if n > 0 {
      var r, q := AddPages(m, p, n - 1), p + n - 1;
      BoundaryShorter(m, p, n);
      AddPagesFreshTables(m, p, n - 1);
      BandMapped(r, q);
      Unpaired(r, q);
      AddPageBalanced(r, q);
      AddPageTableEffect(r, q);
      AddPageMapped(r, q);
      BoundaryIndex(m, r, p, n);
    }
  }

  lemma RunUnmapped(m: Mmu, p: nat, n: nat)
    requires Good(m) && AddableRun(m, p, n)
    ensures Balanced(m) && |m.dirs| > 0 && HEAP_PAGE <= p && forall q: nat | p <= q < p + n :: !PageMapped(m, q)
  {
    hide Wf, Balanced, InDirect;
  }

  lemma BoundaryShorter(m: Mmu, p: nat, n: nat)
    requires n > 0 && Boundary(m, p, p + n)
    ensures Boundary(m, p, p + n - 1)
  {
  }

  lemma AddPageMapped(m: Mmu, p: nat)
    requires |m.dirs| > 0 && HEAP_PAGE <= p
    ensures forall q: nat :: PageMapped(AddPage(m, p), q) <==> q == p || PageMapped(m, q)
  {
    hide AddPage;
    BandOfIndex(p);
    AddPageEntries(m, p);
  }

  /** Where all tables exist, n pages cost n frames. */
  lemma {:induction false} AddPagesInTables(m: Mmu, p: nat, n: nat)
    requires Balanced(m) && |m.dirs| > 0 && HEAP_PAGE <= p
    requires forall q: nat | p <= q < p + n :: !PageMapped(m, q) && HasTable(m, q / 1024)
    ensures var m' := AddPages(m, p, n);
            && Balanced(m') && m'.pdes == m.pdes && |m'.own| == |m.own| + n
            && (forall q: nat :: PageMapped(m', q) <==> p <= q < p + n || PageMapped(m, q))
  {
    hide Balanced, AddPage, PageMapped;
    if n > 0 {
      var r, q := AddPages(m, p, n - 1), p + n - 1;
      assert HasTable(m, q / 1024);
      AddPagesInTables(m, p, n - 1);
      BandMapped(r, q);
      Unpaired(r, q);
      AddPageBalanced(r, q);
      AddPageTableEffect(r, q);
      AddPageMapped(r, q);
    }
  }

  lemma Unpaired(m: Mmu, p: nat)
    requires !PageMapped(m, p)
    ensures (0, p) !in m.ptes
  {
  }

  /** Pages p, ..., p + n - 1 dropped in that order. */
  function DropPages(m: Mmu, p: nat, n: nat): (r: Mmu)
    ensures r.dirs == m.dirs
  {
    if n == 0 then m
    else
      var r := DropPages(m, p, n - 1);
      if (0, p + n - 1) in r.ptes then DropPage(r, p + n - 1) else r
  }

  lemma {:induction false} DropPagesEffect(m: Mmu, p: nat, n: nat)
    requires Good(m) && forall q: nat | p <= q < p + n :: PageMapped(m, q)
    ensures var m' := DropPages(m, p, n);
            && Good(m') && KeepsPages(m, m') && m'.dirs == m.dirs && m'.cleared == m.cleared + n
            && (forall q: nat :: PageMapped(m', q) <==> !(p <= q < p + n) && PageMapped(m, q))
            && |m'.ptes| == |m.ptes| - 2 * n && |m'.own| == |m.own| - n && m'.pdes == m.pdes
  {
    hide Wf, Balanced, DropPage;
    if n > 0 {
      DropPagesEffect(m, p, n - 1);
      DropPageEffect(DropPages(m, p, n - 1), p + n - 1);
    }
  }

  lemma DropPageEffect(m: Mmu, p: nat)
    requires Good(m) && PageMapped(m, p)
    ensures var m' := DropPage(m, p);
            && Good(m') && KeepsPages(m, m') && m'.dirs == m.dirs && m'.cleared == m.cleared + 1
            && (forall q: nat :: PageMapped(m', q) <==> q != p && PageMapped(m, q))
            && |m'.ptes| == |m.ptes| - 2 && |m'.own| == |m.own| - 1 && m'.pdes == m.pdes
  {
    hide Wf, Balanced;
    DropPageBalanced(m, p);
    DropPageSteps(m, p);
  }

  // ---------------------------------------------------------------------------------------
  // Directories
  // ---------------------------------------------------------------------------------------

  /** A new page directory in the next free frame. */
  function NewDir(m: Mmu): Mmu {
    Take(m, Directory(|m.dirs|)).(dirs := m.dirs + [NextFrame(m)])
  }

  lemma NewDirWf(m: Mmu)
    requires Wf(m) && NextFrame(m) < DIRECT_FRAMES
    ensures Wf(NewDir(m))
  {
    var m' := NewDir(m);
    forall x | x in m'.pdes ensures PdeOk(m', x.0, x.1) { assert PdeOk(m, x.0, x.1); }
    forall x | x in m'.ptes ensures PteOk(m', x.0, x.1) { assert PteOk(m, x.0, x.1); }
  }

  lemma NewDirBalanced(m: Mmu)
    requires Balanced(m)
    ensures Balanced(NewDir(m)) && |NewDir(m).own| == |m.own| + 1
  {
    var m' := NewDir(m);
    InsertSize(m.own, NextFrame(m), Directory(|m.dirs|));
    forall x | x in m'.ptes ensures PagePair(m', x.0, x.1) { assert PagePair(m, x.0, x.1); }
    forall x | x in m'.pdes ensures TablePair(m', x.0, x.1) { assert TablePair(m, x.0, x.1); }
    forall f | f in m'.own ensures RoleMet(m', f) {
      if f in m.own { assert RoleMet(m, f); }
    }
  }

  /** The image of a new directory: no lower entry, the kernel's 256 upper ones. */
  predicate FreshDirectory(mem: Memory, kdir: nat, f: nat)
    requires WfMemory(mem) && kdir + KERNEL_TABLES <= DIRECT_FRAMES && f < DIRECT_FRAMES
  {
    KernelHalf(mem, kdir, f) && forall i | 0 <= i < 768 :: mem[f][i] == 0
  }

  lemma NewDirRep(mem: Memory, mem': Memory, m: Mmu)
    requires Rep(mem, m) && NextFrame(m) < DIRECT_FRAMES
    requires SameExcept(mem, mem', NextFrame(m)) && FreshDirectory(mem', m.dirs[0], NextFrame(m))
    ensures Rep(mem', NewDir(m))
  {
    var m', f := NewDir(m), NextFrame(m);
    NewDirWf(m);
    assert Reserve(m) <= f;
    DirectTablesStay(mem, mem', m.dirs[0], f);
    forall d | 0 <= d < |m'.dirs| ensures DirRep(mem', m', d) {
      if d < |m.dirs| {
        DirFrame(m, d);
        assert DirRep(mem, m, d);
      } else {
        forall x | x in m'.pdes ensures x.0 < d { assert PdeOk(m, x.0, x.1); }
      }
    }
    forall x | x in m'.ptes ensures PteRep(mem', m', x.0, x.1) {
      assert PteRep(mem, m, x.0, x.1) && PteOk(m, x.0, x.1);
    }
  }

  // ---------------------------------------------------------------------------------------
  // Boot
  // ---------------------------------------------------------------------------------------

  /** After init_paging and init_pmm: the kernel image reserved, one directory, nothing mapped below 0xC0000000. */
  function BootMmu(kdir: nat): Mmu {
    var image := Below(kdir + KERNEL_TABLES);
    Mmu(map f | f in image :: Reserved, [kdir], map[], map[], 0)
  }

  lemma BootGood(kdir: nat)
    requires kdir + KERNEL_TABLES <= DIRECT_FRAMES
    ensures Good(BootMmu(kdir)) && BootMmu(kdir).own.Keys == Below(kdir + KERNEL_TABLES)
  {
    assert BootMmu(kdir).own.Keys == Below(kdir + KERNEL_TABLES);
  }
}
