/** The get/put law of map_page, stated on the reference walk for every page of every directory. */
module MapLaw {
  import opened Frames
  import opened PageTables

  /** A call of map_page that the code can carry out. */
  predicate CanMap(m: Mmu, d: nat, p: nat, frame: nat, flags: nat) {
    && Wf(m) && d < |m.dirs| && p < KERNEL_PAGE
    && frame in m.own && m.own[frame] == Page(p)
    && flags < 128 && flags % 2 == 1
    && ((d, p / 1024) in m.pdes || NextFrame(m) < DIRECT_FRAMES)
  }

  /** Abstract state once the index of page p has a table. */
  function WithTable(m: Mmu, d: nat, p: nat, flags: nat): Mmu
    requires |m.dirs| > 0
  {
    if (d, p / 1024) in m.pdes then m else Install(m, d, p / 1024, flags)
  }

  /** Memory after the directory entry has been written, when one was missing. */
  function TableMemory(mem: Memory, m: Mmu, d: nat, p: nat, frame: nat, flags: nat): Memory
    requires Rep(mem, m) && CanMap(m, d, p, frame, flags)
  {
    if (d, p / 1024) in m.pdes then mem
    else
      DirFrame(m, d);
      InstallKeepsWf(m, d, p / 1024, flags);
      Put(mem, m.dirs[d], p / 1024, PdeWord(Install(m, d, p / 1024, flags), d, p / 1024))
  }

  /** Memory after map_page. */
  function MapMemory(mem: Memory, m: Mmu, d: nat, p: nat, frame: nat, flags: nat): (r: Memory)
    requires Rep(mem, m) && CanMap(m, d, p, frame, flags)
    ensures WfMemory(r)
  {
    var mem1 := TableMemory(mem, m, d, p, frame, flags);
    var m1 := WithTable(m, d, p, flags);
    assert Rep(mem1, m1) by { WithTableRep(mem, m, d, p, frame, flags); }
    Put(mem1, TableOf(m1, d, p / 1024), p % 1024, WordOf(Entry(frame, flags)))
  }

  lemma WithTableRep(mem: Memory, m: Mmu, d: nat, p: nat, frame: nat, flags: nat)
    requires Rep(mem, m) && CanMap(m, d, p, frame, flags)
    ensures Rep(TableMemory(mem, m, d, p, frame, flags), WithTable(m, d, p, flags))
  {
    if (d, p / 1024) !in m.pdes { InstallKeepsRep(mem, m, d, p / 1024, flags); }
  }

  lemma MapKeepsRep(mem: Memory, m: Mmu, d: nat, p: nat, frame: nat, flags: nat)
    requires Rep(mem, m) && CanMap(m, d, p, frame, flags)
    ensures Rep(MapMemory(mem, m, d, p, frame, flags), Map(m, d, p, frame, flags))
  {
    WithTableRep(mem, m, d, p, frame, flags);
    SetPteKeepsRep(TableMemory(mem, m, d, p, frame, flags), WithTable(m, d, p, flags), d, p, Entry(frame, flags));
  }

  /** The table a directory entry leads to: an installed one below index 768, a direct-map one above. */
  lemma PdeFrame(mem: Memory, m: Mmu, e: nat, j: nat)
    requires Rep(mem, m) && e < |m.dirs| && j < 1024
    ensures m.dirs[e] < DIRECT_FRAMES
    ensures var pde := mem[m.dirs[e]][j];
            if j >= 768 then pde / 4096 == m.dirs[0] + 2 + j - 768
            else if (e, j) in m.pdes then pde / 4096 == TableOf(m, e, j)
            else pde == 0
  {
    DirFrame(m, e);
    assert DirRep(mem, m, e);
    if j < 768 {
      assert mem[m.dirs[e]][j] == PdeWord(m, e, j);
      if (e, j) in m.pdes {
        assert PdeOk(m, e, j);
        EntryParts(TableOf(m, e, j), m.pdes[(e, j)].flags);
      }
    } else {
      EntryParts(m.dirs[0] + 2 + j - 768, PAGE_KERNEL);
    }
  }

  /** The walk depends on one directory entry and one table entry only. */
  lemma WalkLocal(mem: Memory, mem': Memory, dir: nat, q: nat)
    requires WfMemory(mem) && WfMemory(mem') && dir < DIRECT_FRAMES && q < PAGES
    requires mem'[dir][q / 1024] == mem[dir][q / 1024]
    requires var t := mem[dir][q / 1024] / 4096;
             mem[dir][q / 1024] == 0 || t >= DIRECT_FRAMES || mem'[t][q % 1024] == mem[t][q % 1024]
    ensures Walk(mem', dir, q) == Walk(mem, dir, q)
  {
  }

  /** Writing a table entry changes the walk of that one page of that directory. */
  lemma WalkAfterTableWrite(mem: Memory, m: Mmu, d: nat, i: nat, w: nat, value: Word, e: nat, q: nat)
    requires Rep(mem, m) && (d, i) in m.pdes && w < 1024 && e < |m.dirs| && q < PAGES
    requires e != d || q / 1024 != i || q % 1024 != w
    ensures m.dirs[e] < DIRECT_FRAMES
    ensures Walk(Put(mem, TableOf(m, d, i), w, value), m.dirs[e], q) == Walk(mem, m.dirs[e], q)
  {
    DirFrame(m, e);
    PdeFrame(mem, m, e, q / 1024);
    assert q / 1024 >= 768 ==> m.dirs[0] + 2 + q / 1024 - 768 < Reserve(m);
    WalkLocal(mem, Put(mem, TableOf(m, d, i), w, value), m.dirs[e], q);
  }

  /** Installing a table changes the walk only within that 4 MB of that directory. */
  lemma WalkAfterInstall(mem: Memory, m: Mmu, d: nat, i: nat, value: Word, e: nat, q: nat)
    requires Rep(mem, m) && d < |m.dirs| && i < 768 && e < |m.dirs| && q < PAGES
    requires e != d || q / 1024 != i
    ensures m.dirs[e] < DIRECT_FRAMES && m.dirs[d] < DIRECT_FRAMES
    ensures Walk(Put(mem, m.dirs[d], i, value), m.dirs[e], q) == Walk(mem, m.dirs[e], q)
  {
    DirFrame(m, d);
    DirFrame(m, e);
    PdeFrame(mem, m, e, q / 1024);
    assert q / 1024 >= 768 ==> m.dirs[0] + 2 + q / 1024 - 768 < Reserve(m);
    WalkLocal(mem, Put(mem, m.dirs[d], i, value), m.dirs[e], q);
  }

  /**
   * The law. The walk of p in directory d now yields phys | flags. Every page of every other
   * directory, the kernel half included, walks as before. In directory d itself no other page
   * changes when the table existed, and no page outside p's 4 MB when a table was installed.
   */
  lemma MapPageLaw(mem: Memory, m: Mmu, d: nat, p: nat, frame: nat, flags: nat)
    requires Rep(mem, m) && CanMap(m, d, p, frame, flags)
    ensures forall e | 0 <= e < |m.dirs| :: m.dirs[e] < DIRECT_FRAMES
    ensures var mem' := MapMemory(mem, m, d, p, frame, flags);
            && WfMemory(mem')
            && Walk(mem', m.dirs[d], p) == Some(frame * 4096 + flags)
            && (forall e, q: nat | 0 <= e < |m.dirs| && q < PAGES && e != d ::
                  Walk(mem', m.dirs[e], q) == Walk(mem, m.dirs[e], q))
            && (forall q: nat | q < PAGES && q != p && ((d, p / 1024) in m.pdes || q / 1024 != p / 1024) ::
                  Walk(mem', m.dirs[d], q) == Walk(mem, m.dirs[d], q))
  {
    MapYields(mem, m, d, p, frame, flags);
    forall e | 0 <= e < |m.dirs| ensures m.dirs[e] < DIRECT_FRAMES { DirFrame(m, e); }
    forall e, q: nat | 0 <= e < |m.dirs| && q < PAGES && (e, q) != (d, p)
                       && (e != d || (d, p / 1024) in m.pdes || q / 1024 != p / 1024)
      ensures Walk(MapMemory(mem, m, d, p, frame, flags), m.dirs[e], q) == Walk(mem, m.dirs[e], q)
    {
      WalkAfterMap(mem, m, d, p, frame, flags, e, q);
    }
  }

  lemma MapYields(mem: Memory, m: Mmu, d: nat, p: nat, frame: nat, flags: nat)
    requires Rep(mem, m) && CanMap(m, d, p, frame, flags)
    ensures m.dirs[d] < DIRECT_FRAMES
    ensures Walk(MapMemory(mem, m, d, p, frame, flags), m.dirs[d], p) == Some(frame * 4096 + flags)
  {
    var mem1, m1 := TableMemory(mem, m, d, p, frame, flags), WithTable(m, d, p, flags);
    WithTableRep(mem, m, d, p, frame, flags);
    TableWriteYields(mem1, m1, d, p, Entry(frame, flags));
  }

  lemma TableWriteYields(mem: Memory, m: Mmu, d: nat, p: nat, e: Entry)
    requires Rep(mem, m) && p < KERNEL_PAGE && d < |m.dirs| && (d, p / 1024) in m.pdes && EntryOk(e)
    ensures m.dirs[d] < DIRECT_FRAMES
    ensures Walk(Put(mem, TableOf(m, d, p / 1024), p % 1024, WordOf(e)), m.dirs[d], p) == Some(WordOf(e))
  {
    DirFrame(m, d);
    assert PdeOk(m, d, p / 1024);
    assert mem[m.dirs[d]][p / 1024] == PdeWord(m, d, p / 1024) by { assert DirRep(mem, m, d); }
    var mem' := Put(mem, TableOf(m, d, p / 1024), p % 1024, WordOf(e));
    WalkThrough(mem', m.dirs[d], p, m.pdes[(d, p / 1024)], e);
  }

  lemma WalkAfterMap(mem: Memory, m: Mmu, d: nat, p: nat, frame: nat, flags: nat, e: nat, q: nat)
    requires Rep(mem, m) && CanMap(m, d, p, frame, flags) && e < |m.dirs| && q < PAGES
    requires (e, q) != (d, p) && (e != d || (d, p / 1024) in m.pdes || q / 1024 != p / 1024)
    ensures m.dirs[e] < DIRECT_FRAMES
    ensures Walk(MapMemory(mem, m, d, p, frame, flags), m.dirs[e], q) == Walk(mem, m.dirs[e], q)
  {
    var mem1, m1 := TableMemory(mem, m, d, p, frame, flags), WithTable(m, d, p, flags);
    WithTableRep(mem, m, d, p, frame, flags);
    if (d, p / 1024) !in m.pdes {
      WalkAfterInstall(mem, m, d, p / 1024, PdeWord(m1, d, p / 1024), e, q);
    }
    WalkAfterTableWrite(mem1, m1, d, p / 1024, p % 1024, WordOf(Entry(frame, flags)), e, q);
  }
}
