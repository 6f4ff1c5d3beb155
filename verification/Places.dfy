/** The pages create_process maps in the directory of a new process, and what they do to translation. */
module Places {
  import opened PageTables
  import opened MapLaw

  /** A fresh frame mapped at a page of directory d. */
  datatype Place = Place(d: nat, page: nat, flags: nat)

  const PAGE_USER: nat := 0x7

  /** PROC_STACK_VIRT and PROC_CODE_VIRT; the latter is the base of the 64-byte class. */
  const STACK_PAGE: nat := 0xB_FFFF
  const CODE_PAGE: nat := 0x1_0000

  /** The pages of one process: a stack, and a code page for a user process. */
  function PlacesFor(d: nat, user: bool): seq<Place> {
    if user then [Place(d, STACK_PAGE, PAGE_USER), Place(d, CODE_PAGE, PAGE_USER)]
    else [Place(d, STACK_PAGE, PAGE_KERNEL)]
  }

  predicate CanPlace(m: Mmu, x: Place) {
    && NextFrame(m) < DIRECT_FRAMES && Wf(m)
    && CanMap(Take(m, Page(x.page)), x.d, x.page, NextFrame(m), x.flags)
  }

  /** Abstract state and memory after get_next_free_process_frame and map_page. */
  function Placed(m: Mmu, x: Place): (r: Mmu)
    requires |m.dirs| > 0
    ensures r.dirs == m.dirs
  {
    Map(Take(m, Page(x.page)), x.d, x.page, NextFrame(m), x.flags)
  }

  function PlacedMemory(mem: Memory, m: Mmu, x: Place): Memory
    requires Rep(mem, m) && CanPlace(m, x)
  {
    TakeKeepsRep(mem, m, Page(x.page));
    MapMemory(mem, Take(m, Page(x.page)), x.d, x.page, NextFrame(m), x.flags)
  }

  lemma PlacedRep(mem: Memory, m: Mmu, x: Place)
    requires Rep(mem, m) && CanPlace(m, x)
    ensures |m.dirs| > 0 && Rep(PlacedMemory(mem, m, x), Placed(m, x))
  {
    hide Rep, Map, MapMemory, Take, NextFrame;
    TakeKeepsRep(mem, m, Page(x.page));
    MapKeepsRep(mem, Take(m, Page(x.page)), x.d, x.page, NextFrame(m), x.flags);
  }

  /** The page placed walks to its frame. */
  lemma PlaceYields(mem: Memory, m: Mmu, x: Place)
    requires Rep(mem, m) && CanPlace(m, x)
    ensures x.d < |m.dirs| && m.dirs[x.d] < DIRECT_FRAMES && x.page < PAGES && WfMemory(PlacedMemory(mem, m, x))
    ensures Walk(PlacedMemory(mem, m, x), m.dirs[x.d], x.page) == Some(NextFrame(m) * 4096 + x.flags)
  {
    hide Rep, Walk, MapMemory, NextFrame;
    TakeKeepsRep(mem, m, Page(x.page));
    MapPageLaw(mem, Take(m, Page(x.page)), x.d, x.page, NextFrame(m), x.flags);
  }

  /** Nothing else changes, except within the 4 MB of that page in that directory. */
  lemma PlaceElsewhere(mem: Memory, m: Mmu, x: Place, e: nat, q: nat)
    requires Rep(mem, m) && CanPlace(m, x) && e < |m.dirs| && q < PAGES && (e != x.d || q / 1024 != x.page / 1024)
    ensures WfMemory(mem) && m.dirs[e] < DIRECT_FRAMES && WfMemory(PlacedMemory(mem, m, x))
    ensures Walk(PlacedMemory(mem, m, x), m.dirs[e], q) == Walk(mem, m.dirs[e], q)
  {
    hide Walk, MapMemory, NextFrame, DirsRep, PtesRep;
    TakeKeepsRep(mem, m, Page(x.page));
    MapPageLaw(mem, Take(m, Page(x.page)), x.d, x.page, NextFrame(m), x.flags);
  }

  // ---------------------------------------------------------------------------------------
  // Any number of places
  // ---------------------------------------------------------------------------------------

  predicate CanPlaceAll(m: Mmu, xs: seq<Place>)
    decreases |xs|
  {
    xs == [] || (CanPlace(m, xs[0]) && CanPlaceAll(Placed(m, xs[0]), xs[1..]))
  }

  function PlacedAll(m: Mmu, xs: seq<Place>): (r: Mmu)
    requires |m.dirs| > 0
    ensures r.dirs == m.dirs
    decreases |xs|
  {
    if xs == [] then m else PlacedAll(Placed(m, xs[0]), xs[1..])
  }

  function PlacedAllMemory(mem: Memory, m: Mmu, xs: seq<Place>): (r: Memory)
    requires Rep(mem, m) && CanPlaceAll(m, xs)
    ensures WfMemory(r)
    decreases |xs|
  {
    if xs == [] then mem
    else
      PlacedRep(mem, m, xs[0]);
      PlacedAllMemory(PlacedMemory(mem, m, xs[0]), Placed(m, xs[0]), xs[1..])
  }

  lemma OnePlace(mem: Memory, m: Mmu, x: Place)
    requires Rep(mem, m) && CanPlaceAll(m, [x])
    ensures CanPlace(m, x) && |m.dirs| > 0 && PlacedAll(m, [x]) == Placed(m, x)
    ensures PlacedAllMemory(mem, m, [x]) == PlacedMemory(mem, m, x)
  {
    hide Rep, CanPlace, Placed, PlacedMemory;
    PlacedRep(mem, m, x);
    assert [x][1..] == [];
  }

  lemma TwoPlaces(mem: Memory, m: Mmu, x: Place, y: Place)
    requires Rep(mem, m) && CanPlaceAll(m, [x, y])
    ensures CanPlace(m, x) && |m.dirs| > 0 && CanPlace(Placed(m, x), y) && Rep(PlacedMemory(mem, m, x), Placed(m, x))
    ensures PlacedAll(m, [x, y]) == Placed(Placed(m, x), y)
    ensures PlacedAllMemory(mem, m, [x, y]) == PlacedMemory(PlacedMemory(mem, m, x), Placed(m, x), y)
  {
    hide Rep, CanPlace, Placed, PlacedMemory;
    PlacedRep(mem, m, x);
    assert [x, y][1..] == [y];
    OnePlace(PlacedMemory(mem, m, x), Placed(m, x), y);
  }

  /** Places change no walk of a directory outside the 4 MB stretches they lie in. */
  lemma {:induction false} PlacesElsewhere(mem: Memory, m: Mmu, xs: seq<Place>, e: nat, q: nat)
    requires Rep(mem, m) && CanPlaceAll(m, xs) && e < |m.dirs| && q < PAGES
    requires forall x | x in xs :: e != x.d || q / 1024 != x.page / 1024
    ensures WfMemory(mem) && m.dirs[e] < DIRECT_FRAMES
    ensures Walk(PlacedAllMemory(mem, m, xs), m.dirs[e], q) == Walk(mem, m.dirs[e], q)
    decreases |xs|
  {
    hide Rep, Walk, CanPlace, Placed, PlacedMemory;
    if xs == [] {
      RepDir(mem, m, e);
    } else {
      assert xs[0] in xs;
      PlacedRep(mem, m, xs[0]);
      PlaceElsewhere(mem, m, xs[0], e, q);
      PlacesElsewhere(PlacedMemory(mem, m, xs[0]), Placed(m, xs[0]), xs[1..], e, q);
    }
  }

  lemma RepDir(mem: Memory, m: Mmu, e: nat)
    requires Rep(mem, m) && e < |m.dirs|
    ensures WfMemory(mem) && m.dirs[e] < DIRECT_FRAMES
  {
    hide DirsRep, PtesRep, WfPdes, WfPtes;
    DirFrame(m, e);
  }

  // ---------------------------------------------------------------------------------------
  // The pages of one process
  // ---------------------------------------------------------------------------------------

  /**
   * A kernel process: 0xBFFFF000 walks to a frame that was not marked, with flags 3, and no walk
   * changes outside that 4 MB of its directory.
   */
  lemma KernelProcess(mem: Memory, m: Mmu, d: nat, e: nat, q: nat) returns (f: nat)
    requires Rep(mem, m) && CanPlaceAll(m, PlacesFor(d, false)) && d < |m.dirs| && e < |m.dirs| && q < PAGES
    ensures f !in m.own && WfMemory(mem) && m.dirs[d] < DIRECT_FRAMES && m.dirs[e] < DIRECT_FRAMES
    ensures Walk(PlacedAllMemory(mem, m, PlacesFor(d, false)), m.dirs[d], 0xB_FFFF) == Some(f * 4096 + 3)
    ensures e != d || q / 1024 != 767 ==>
              Walk(PlacedAllMemory(mem, m, PlacesFor(d, false)), m.dirs[e], q) == Walk(mem, m.dirs[e], q)
  {
    hide Rep, Walk, CanPlaceAll, PlacedAll, PlacedAllMemory, CanPlace, Placed, PlacedMemory, NextFrame;
    var x := Place(d, STACK_PAGE, PAGE_KERNEL);
    f := NextFrame(m);
    NextIsFree(m);
    OnePlace(mem, m, x);
    PlaceYields(mem, m, x);
    RepDir(mem, m, e);
    if e != d || q / 1024 != 767 { PlaceElsewhere(mem, m, x, e, q); }
  }

  /**
   * A user process: 0xBFFFF000 and 0x10000000 walk to two different frames that were not marked,
   * with flags 7, and no walk changes outside those two 4 MB of its directory.
   */
  lemma UserProcess(mem: Memory, m: Mmu, d: nat, e: nat, q: nat) returns (f: nat, g: nat)
    requires Rep(mem, m) && CanPlaceAll(m, PlacesFor(d, true)) && d < |m.dirs| && e < |m.dirs| && q < PAGES
    ensures f !in m.own && g !in m.own && f != g
    ensures WfMemory(mem) && m.dirs[d] < DIRECT_FRAMES && m.dirs[e] < DIRECT_FRAMES
    ensures Walk(PlacedAllMemory(mem, m, PlacesFor(d, true)), m.dirs[d], 0xB_FFFF) == Some(f * 4096 + 7)
    ensures Walk(PlacedAllMemory(mem, m, PlacesFor(d, true)), m.dirs[d], 0x1_0000) == Some(g * 4096 + 7)
    ensures e != d || (q / 1024 != 767 && q / 1024 != 64) ==>
              Walk(PlacedAllMemory(mem, m, PlacesFor(d, true)), m.dirs[e], q) == Walk(mem, m.dirs[e], q)
  {
    hide Rep, Walk, CanPlaceAll, PlacedAll, PlacedAllMemory, CanPlace, Placed, PlacedMemory, NextFrame;
    var x, y := Place(d, STACK_PAGE, PAGE_USER), Place(d, CODE_PAGE, PAGE_USER);
    TwoPlaces(mem, m, x, y);
    var mem1, m1 := PlacedMemory(mem, m, x), Placed(m, x);
    f, g := NextFrame(m), NextFrame(m1);
    NextIsFree(m);
    NextIsFree(m1);
    PlacedGrows(m, x);
    PlaceYields(mem, m, x);
    PlaceElsewhere(mem1, m1, y, d, STACK_PAGE);
    PlaceYields(mem1, m1, y);
    RepDir(mem, m, e);
    if e != d || (q / 1024 != 767 && q / 1024 != 64) {
      PlaceElsewhere(mem, m, x, e, q);
      PlaceElsewhere(mem1, m1, y, e, q);
    }
  }

  lemma PlacedGrows(m: Mmu, x: Place)
    requires |m.dirs| > 0 && CanPlace(m, x)
    ensures m.own.Keys + {NextFrame(m)} <= Placed(m, x).own.Keys
  {
  }
}
