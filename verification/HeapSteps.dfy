/** How each heap operation changes memory, and why memory still holds the abstract heap. */
module HeapSteps {
  import opened Frames
  import opened PageTables
  import opened Spaces
  import opened Regions
  import opened HeapModel
  import opened SizeClasses
  import opened LargeRegions
  import opened HeapInv
  import opened LargeInv
  import opened HeapRuns
  import opened Translation
  import opened HeapMemory

  // ---------------------------------------------------------------------------------------
  // Small blocks
  // ---------------------------------------------------------------------------------------

  lemma LinkedTail(mem: Memory, m: Mmu, s: seq<nat>)
    requires Rep(mem, m) && Linked(mem, m, s) && s != []
    ensures Linked(mem, m, s[1..]) && Holds(mem, m, s[0], First(s[1..]))
  {
    hide Rep, Holds;
    assert Holds(mem, m, s[0], LinkAt(s, 0));
    forall i | 0 <= i < |s[1..]| ensures Holds(mem, m, s[1..][i], LinkAt(s[1..], i)) {
      assert Holds(mem, m, s[i + 1], LinkAt(s, i + 1));
    }
  }

  lemma LinkedCons(mem: Memory, m: Mmu, a: nat, s: seq<nat>)
    requires Rep(mem, m) && Linked(mem, m, s) && Holds(mem, m, a, First(s))
    ensures Linked(mem, m, [a] + s)
  {
    hide Rep, Holds;
    var t := [a] + s;
    forall i | 0 <= i < |t| ensures Holds(mem, m, t[i], LinkAt(t, i)) {
      if i > 0 { assert Holds(mem, m, s[i - 1], LinkAt(s, i - 1)); }
    }
  }

  /** Replacing the free list of one class. */
  lemma ListsUpdate(mem: Memory, v: View, v': View, k: nat)
    requires Rep(mem, v.mmu) && |v.doms| == CLASSES && k < CLASSES && ListsHeld(mem, v)
    requires v'.mmu == v.mmu && |v'.doms| == CLASSES && Linked(mem, v.mmu, v'.doms[k].free)
    requires forall j | 0 <= j < CLASSES && j != k :: v'.doms[j].free == v.doms[j].free
    ensures ListsHeld(mem, v')
  {
    hide Rep, Linked;
    forall j | 0 <= j < CLASSES ensures Linked(mem, v'.mmu, v'.doms[j].free) {
      assert Linked(mem, v.mmu, v.doms[j].free);
    }
  }

  /** Taking the head of a free list: its link is the new head. */
  lemma HeldPop(mem: Memory, v: View, k: nat)
    requires Rep(mem, v.mmu) && |v.doms| == CLASSES && k < CLASSES && Held(mem, v) && v.doms[k].free != []
    ensures Held(mem, Pop(v, k)) && Holds(mem, v.mmu, v.doms[k].free[0], First(v.doms[k].free[1..]))
  {
    hide Rep, Holds, Linked, SlotsLinked, Headers, DataHeld;
    assert Linked(mem, v.mmu, v.doms[k].free);
    LinkedTail(mem, v.mmu, v.doms[k].free);
    ListsUpdate(mem, v, Pop(v, k), k);
  }

  lemma FewerData(mem: Memory, v: View, data: map<nat, Word>)
    requires Rep(mem, v.mmu) && |v.doms| == CLASSES && Held(mem, v)
    requires forall a | a in data :: a in v.data && data[a] == v.data[a]
    ensures Held(mem, v.(data := data))
  {
    hide Rep, Holds, Linked, SlotsLinked, Headers;
    assert ListsHeld(mem, v.(data := data)) by { SameLists(mem, v, v.(data := data)); }
    forall a | a in data ensures Holds(mem, v.mmu, a, data[a]) { assert Holds(mem, v.mmu, a, v.data[a]); }
  }

  lemma SameLists(mem: Memory, v: View, v': View)
    requires Rep(mem, v.mmu) && |v.doms| == CLASSES && ListsHeld(mem, v) && v'.mmu == v.mmu && v'.doms == v.doms
    ensures ListsHeld(mem, v')
  {
    hide Rep, Linked;
    forall k | 0 <= k < CLASSES
      ensures Linked(mem, v'.mmu, v'.doms[k].free)
    {
      assert Linked(mem, v.mmu, v.doms[k].free);
    }
  }

  /** A block being freed is not tracked once its data is forgotten. */
  lemma FreedUntracked(v: View, k: nat, ptr: nat)
    requires Inv(v) && k < CLASSES && ptr in v.doms[k].live
    ensures |v.doms| == CLASSES && RouteOf(ptr) == Some(k) && ptr % 4 == 0 && PageMapped(v.mmu, ptr / 4096)
    ensures !Tracked(v.(data := Forget(v.data, ptr, ptr + BlockSize(k))), ptr)
  {
    hide Inv, Tracked, LiveWord, Bookkeeping;
    InvDom(v, k);
    LiveBlock(k, v.doms[k], ptr);
    BlockSmall(k);
    assert LiveWord(v, ptr) by { LiveStart(v, k, ptr); }
    LivePageMapped(v, ptr);
    LiveNotBookkeeping(v, ptr);
    DataOnly(v, ptr, ptr + BlockSize(k));
  }

  lemma LiveStart(v: View, k: nat, ptr: nat)
    requires |v.doms| == CLASSES && k < CLASSES && ptr in v.doms[k].live && RouteOf(ptr) == Some(k)
        && ptr % BlockSize(k) == 0
    ensures LiveWord(v, ptr)
  {
    OwnBlock(k, ptr);
  }

  lemma LiveBlock(k: nat, d: Dom, ptr: nat)
    requires k < CLASSES && DomOk(k, d) && ptr in d.live
    ensures RouteOf(ptr) == Some(k) && ptr % 4 == 0 && ptr % BlockSize(k) == 0 && ptr != 0
  {
    assert IsBlock(k, d.carved, ptr);
    BlockIndex(k, ptr);
    hide BlockSize, BlocksPerPage;
  }

  lemma DataOnly(v: View, from: nat, to: nat)
    requires |v.doms| == CLASSES && from < to && !Bookkeeping(v.doms, v.big, from)
    ensures !Tracked(v.(data := Forget(v.data, from, to)), from)
  {
    hide Bookkeeping;
  }

  /** Freeing a block: one word written, the rest of the heap as it was. */
  lemma HeldPush(mem: Memory, v: View, k: nat, ptr: nat)
    requires |v.doms| == CLASSES && Rep(mem, v.mmu) && k < CLASSES && ptr in v.doms[k].live
    requires Inv(v) && Held(mem, v) && First(v.doms[k].free) < 0x1_0000_0000
    ensures PageMapped(v.mmu, ptr / 4096)
    ensures var mem' := HeapPut(mem, v.mmu, ptr, First(v.doms[k].free));
            Rep(mem', v.mmu) && Held(mem', DomFree(v, k, ptr))
  {
    hide Inv, Rep, Holds, Linked, SlotsLinked, Headers, DataHeld, Tracked, Same, HeapPut, Forget, ListsHeld;
    FreedUntracked(v, k, ptr);
    var w := First(v.doms[k].free);
    var mem', u := HeapPut(mem, v.mmu, ptr, w), v.(data := Forget(v.data, ptr, ptr + BlockSize(k)));
    ForgetFewer(v.data, ptr, ptr + BlockSize(k));
    FewerData(mem, v, u.data);
    SameMemory(mem, u);
    PutKeepsSame(mem, u.mmu, mem, u.mmu, u, ptr, w);
    SameHeld(mem, mem', u, u);
    PutHolds(mem, u.mmu, ptr, w);
    ListKnown(mem', u, k);
    LinkedCons(mem', u.mmu, ptr, u.doms[k].free);
    ListsUpdate(mem', u, DomFree(v, k, ptr), k);
  }

  lemma ListKnown(mem: Memory, v: View, k: nat)
    requires Rep(mem, v.mmu) && |v.doms| == CLASSES && k < CLASSES && ListsHeld(mem, v)
    ensures Linked(mem, v.mmu, v.doms[k].free)
  {
  }

  lemma ForgetFewer(data: map<nat, Word>, from: nat, to: nat)
    ensures var d := Forget(data, from, to); forall a | a in d :: a in data && d[a] == data[a]
  {
  }

  /** A client write: one word of live memory, the rest of the heap as it was. */
  lemma HeldWrite(mem: Memory, v: View, va: nat, w: Word)
    requires |v.doms| == CLASSES && Rep(mem, v.mmu) && va % 4 == 0 && LiveWord(v, va)
    requires Inv(v) && Held(mem, v)
    ensures PageMapped(v.mmu, va / 4096)
    ensures var mem' := HeapPut(mem, v.mmu, va, w);
            Rep(mem', v.mmu) && Held(mem', v.(data := v.data[va := w]))
  {
    hide Inv, Rep, Holds, Linked, SlotsLinked, Headers, Tracked, Same, HeapPut, Forget, ListsHeld, Bookkeeping,
         LiveWord;
    LivePageMapped(v, va);
    LiveNotBookkeeping(v, va);
    DataOnly(v, va, va + 4);
    var mem', u := HeapPut(mem, v.mmu, va, w), v.(data := Forget(v.data, va, va + 4));
    ForgetFewer(v.data, va, va + 4);
    FewerData(mem, v, u.data);
    SameMemory(mem, u);
    PutKeepsSame(mem, u.mmu, mem, u.mmu, u, va, w);
    SameHeld(mem, mem', u, u);
    PutHolds(mem, u.mmu, va, w);
    var v' := v.(data := v.data[va := w]);
    SameLists(mem', u, v');
    forall a | a in v'.data ensures Holds(mem', v'.mmu, a, v'.data[a]) {
      DataAligned(v, va, w, a);
      if a != va { DataKept(mem', v, va, w, a); }
    }
  }

  lemma DataKept(mem: Memory, v: View, va: nat, w: Word, a: nat)
    requires Rep(mem, v.mmu) && DataHeld(mem, v.mmu, Forget(v.data, va, va + 4)) && a in v.data && a != va
    requires a % 4 == 0 && va % 4 == 0
    ensures Holds(mem, v.mmu, a, v.data[a])
  {
    hide Rep, Holds;
    assert a in Forget(v.data, va, va + 4);
  }

  lemma DataAligned(v: View, va: nat, w: Word, a: nat)
    requires |v.doms| == CLASSES && Inv(v) && va % 4 == 0 && a in v.data[va := w]
    ensures a % 4 == 0
  {
    hide Good, DomsOk, BigOk, DirsOk, PagesOk, TablesOk, CountsOk, LiveWord;
  }

  // ---------------------------------------------------------------------------------------
  // A new page of blocks
  // ---------------------------------------------------------------------------------------

  /** The first n blocks of the page point to their neighbours. */
  ghost predicate Chained(mem: Memory, m: Mmu, s: seq<nat>, n: nat)
    requires Rep(mem, m) && n < |s|
  {
    forall i | 0 <= i < n :: Holds(mem, m, s[i], s[i + 1])
  }

  /** One link written into a page that was not mapped when the operation began. */
  lemma ThreadOne(mem0: Memory, v: View, mem: Memory, m: Mmu, k: nat, p: nat, i: nat, w: Word)
    requires Rep(mem0, v.mmu) && Rep(mem, m) && |v.doms| == CLASSES && k < CLASSES && Same(mem0, v.mmu, mem, m, v)
    requires !PageMapped(v.mmu, p) && PageMapped(m, p) && i < BlocksPerPage(k) && Chained(mem, m, PageBlocks(k, p), i)
    ensures var a := PageBlocks(k, p)[i];
            && a / 4096 == p && a % 4 == 0
            && Rep(HeapPut(mem, m, a, w), m) && Same(mem0, v.mmu, HeapPut(mem, m, a, w), m, v)
            && Chained(HeapPut(mem, m, a, w), m, PageBlocks(k, p), i) && Holds(HeapPut(mem, m, a, w), m, a, w)
  {
    hide Rep, Holds, Same, HeapPut, PageBlocks, BlocksPerPage, PageMapped;
    var s := PageBlocks(k, p);
    var a := s[i];
    PageBlockIn(k, p, i);
    PutKeepsSame(mem0, v.mmu, mem, m, v, a, w);
    PutHolds(mem, m, a, w);
    forall j | 0 <= j < i ensures Holds(HeapPut(mem, m, a, w), m, s[j], s[j + 1]) {
      PageBlocksDistinct(k, p, j, i);
      PutKeepsHolds(mem, m, a, w, s[j], s[j + 1]);
    }
  }

  /** The blocks of the page, chained, in front of the old free list. */
  lemma LinkedFront(mem: Memory, m: Mmu, s: seq<nat>, t: seq<nat>)
    requires Rep(mem, m) && |s| >= 1 && Chained(mem, m, s, |s| - 1)
    requires Holds(mem, m, s[|s| - 1], First(t)) && Linked(mem, m, t)
    ensures Linked(mem, m, s + t)
  {
    hide Rep, Holds;
    var u := s + t;
    forall i | 0 <= i < |u| ensures Holds(mem, m, u[i], LinkAt(u, i)) {
      if i < |s| - 1 {
        assert Holds(mem, m, s[i], s[i + 1]);
      } else if i >= |s| {
        assert Holds(mem, m, t[i - |s|], LinkAt(t, i - |s|));
      }
    }
  }

  /** A carved page: memory that kept the old heap and threads the new page holds the larger heap. */
  lemma HeldCarve(mem0: Memory, v: View, mem: Memory, k: nat)
    requires |v.doms| == CLASSES && k < CLASSES && |v.mmu.dirs| > 0
    requires Rep(mem0, v.mmu) && Held(mem0, v) && Rep(mem, Carve(v, k).mmu)
        && Same(mem0, v.mmu, mem, Carve(v, k).mmu, v)
    requires var s := PageBlocks(k, BasePage(k) + v.doms[k].carved);
             && Chained(mem, Carve(v, k).mmu, s, |s| - 1)
             && Holds(mem, Carve(v, k).mmu, s[|s| - 1], First(v.doms[k].free))
    ensures Held(mem, Carve(v, k))
  {
    hide Rep, Holds, Same, PageBlocks, BlocksPerPage, AddPage, Linked, SlotsLinked, Headers, DataHeld, Chained,
         ListsHeld;
    var v' := Carve(v, k);
    var u := v.(mmu := v'.mmu);
    SameHeld(mem0, mem, v, u);
    ListKnown(mem, u, k);
    LinkedFront(mem, u.mmu, PageBlocks(k, BasePage(k) + v.doms[k].carved), v.doms[k].free);
    ListsUpdate(mem, u, v', k);
  }

  // ---------------------------------------------------------------------------------------
  // Large regions
  // ---------------------------------------------------------------------------------------

  lemma SlotsTail(mem: Memory, m: Mmu, s: seq<Slot>)
    requires Rep(mem, m) && SlotsLinked(mem, m, s) && s != []
    ensures SlotsLinked(mem, m, s[1..]) && SlotHolds(mem, m, s, 0)
  {
    hide Rep, Holds;
    assert SlotHolds(mem, m, s, 0);
    forall j | 0 <= j < |s[1..]| ensures SlotHolds(mem, m, s[1..], j) {
      assert SlotHolds(mem, m, s, j + 1);
      assert s[1..][j + 1..] == s[j + 2..];
    }
  }

  lemma SlotsCons(mem: Memory, m: Mmu, x: Slot, s: seq<Slot>)
    requires Rep(mem, m) && SlotsLinked(mem, m, s)
    requires Holds(mem, m, x.start * 4096, SlotAddress(s)) && Holds(mem, m, x.start * 4096 + 4, x.count)
    ensures SlotsLinked(mem, m, [x] + s)
  {
    hide Rep, Holds;
    var t := [x] + s;
    forall j | 0 <= j < |t| ensures SlotHolds(mem, m, t, j) {
      if j > 0 {
        assert SlotHolds(mem, m, s, j - 1);
        assert t[j + 1..] == s[j..];
      } else {
        assert t[1..] == s;
      }
    }
  }

  /** The heap without the slot about to be reused, or unchanged. */
  function Unslotted(v: View, n: nat): View {
    if Reuses(v.big, n) then v.(big := v.big.(slots := v.big.slots[1..])) else v
  }

  lemma HeldUnslotted(mem: Memory, v: View, n: nat)
    requires Rep(mem, v.mmu) && |v.doms| == CLASSES && Held(mem, v)
    ensures Held(mem, Unslotted(v, n))
    ensures Reuses(v.big, n) ==> SlotHolds(mem, v.mmu, v.big.slots, 0)
  {
    hide Rep, Holds, Linked, SlotsLinked, Headers, DataHeld, ListsHeld;
    if Reuses(v.big, n) {
      SlotsTail(mem, v.mmu, v.big.slots);
      SameLists(mem, v, Unslotted(v, n));
    }
  }

  /** Tracked words of the rest of the heap keep clear of the region being taken. */
  lemma UnslottedClear(v: View, n: nat, a: nat)
    requires |v.doms| == CLASSES && Inv(v) && CanTake(v.big, n) && Tracked(Unslotted(v, n), a)
    ensures !(BigStart(v.big, n) <= a / 4096 < BigStart(v.big, n) + n)
  {
    hide Good, DomsOk, DirsOk, PagesOk, TablesOk, CountsOk, DataOk, Tracked, CanTake, Apart;
    var u := Unslotted(v, n);
    TakeClear(v.big, n);
    TakeFacts(v.big, n);
    SameDoms(v, u);
    SameData(v, u);
    UnslottedRange(v.big, n);
    TakenSlots(v.big, n);
    ClearOfRegions(u, BigStart(v.big, n), n, a);
  }

  lemma TakenSlots(b: Big, n: nat)
    ensures BigTake(b, n).slots == if Reuses(b, n) then b.slots[1..] else b.slots
  {
  }

  lemma UnslottedRange(b: Big, n: nat)
    requires InRange(b)
    ensures Reuses(b, n) ==> InRange(b.(slots := b.slots[1..]))
  {
    if Reuses(b, n) {
      var b' := b.(slots := b.slots[1..]);
      forall s | s in b'.live ensures Within(b', s, b'.live[s]) { assert Within(b, s, b.live[s]); }
      forall j | 0 <= j < |b'.slots| ensures Within(b', b'.slots[j].start, b'.slots[j].count) {
        assert Within(b, b.slots[j + 1].start, b.slots[j + 1].count);
      }
    }
  }

  lemma SameData(v: View, u: View)
    requires |v.doms| == CLASSES && DataOk(v) && u.doms == v.doms && u.data == v.data && u.big.live == v.big.live
    ensures DataOk(u)
  {
    forall a | a in u.data ensures a % 4 == 0 && LiveWord(u, a) {
      assert LiveWord(v, a);
      if a >= 0x8000_0000 {
        var s :| s in v.big.live && s * 4096 + 4 <= a < (s + v.big.live[s]) * 4096;
        assert s in u.big.live;
      }
    }
  }

  /** The header written last completes a large allocation. */
  lemma HeldBigAlloc(mem0: Memory, v: View, mem: Memory, n: nat)
    requires |v.doms| == CLASSES && |v.mmu.dirs| > 0
    requires Rep(mem0, v.mmu) && Held(mem0, v) && Rep(mem, BigAlloc(v, n).mmu)
    requires Same(mem0, v.mmu, mem, BigAlloc(v, n).mmu, Unslotted(v, n))
    requires Holds(mem, BigAlloc(v, n).mmu, BigStart(v.big, n) * 4096, n)
    ensures Held(mem, BigAlloc(v, n))
  {
    hide Rep, Holds, Same, AddPages, Cleared, Linked, SlotsLinked, DataHeld, ListsHeld;
    var v' := BigAlloc(v, n);
    var u := Unslotted(v, n).(mmu := v'.mmu);
    HeldUnslotted(mem0, v, n);
    SameHeld(mem0, mem, Unslotted(v, n), u);
    SameLists(mem, u, v');
    forall s | s in v'.big.live ensures Holds(mem, v'.mmu, s * 4096, v'.big.live[s]) {
      if s != BigStart(v.big, n) { assert Holds(mem, u.mmu, s * 4096, u.big.live[s]); }
    }
  }

  /** The heap without the region being freed and its data. */
  function Unregioned(v: View, start: nat): View
    requires start in v.big.live
  {
    v.(big := v.big.(live := v.big.live - {start}),
       data := Forget(v.data, start * 4096, (start + v.big.live[start]) * 4096))
  }

  lemma HeldUnregioned(mem: Memory, v: View, start: nat)
    requires Rep(mem, v.mmu) && |v.doms| == CLASSES && Held(mem, v) && start in v.big.live
    ensures Held(mem, Unregioned(v, start)) && Holds(mem, v.mmu, start * 4096, v.big.live[start])
  {
    hide Rep, Holds, Linked, SlotsLinked, ListsHeld, DataHeld, Forget;
    var u := Unregioned(v, start);
    assert Holds(mem, v.mmu, start * 4096, v.big.live[start]);
    ForgetFewer(v.data, start * 4096, (start + v.big.live[start]) * 4096);
    FewerData(mem, v, u.data);
    SameLists(mem, v, u);
    forall s | s in u.big.live ensures Holds(mem, u.mmu, s * 4096, u.big.live[s]) {
      assert Holds(mem, v.mmu, s * 4096, v.big.live[s]);
    }
  }

  lemma UnregionedClear(v: View, start: nat, a: nat)
    requires |v.doms| == CLASSES && start in v.big.live && Inv(v) && Tracked(Unregioned(v, start), a)
    ensures !(start <= a / 4096 < start + v.big.live[start])
  {
    hide Good, DomsOk, DirsOk, PagesOk, TablesOk, CountsOk, DataOk, Tracked, Forget;
    var u := Unregioned(v, start);
    assert Within(v.big, start, v.big.live[start]);
    SameDoms(v, u);
    RegionData(v, start);
    forall s | s in u.big.live ensures Apart(s, u.big.live[s], start, v.big.live[start]) {
      assert Apart(s, v.big.live[s], start, v.big.live[start]);
    }
    forall s | s in u.big.live ensures Within(u.big, s, u.big.live[s]) { assert Within(v.big, s, v.big.live[s]); }
    forall j | 0 <= j < |u.big.slots| ensures Within(u.big, u.big.slots[j].start, u.big.slots[j].count) {
      assert Within(v.big, v.big.slots[j].start, v.big.slots[j].count);
    }
    ClearOfRegions(u, start, v.big.live[start], a);
  }

  lemma RegionData(v: View, start: nat)
    requires |v.doms| == CLASSES && DataOk(v) && start in v.big.live
    ensures DataOk(Unregioned(v, start))
  {
    var u := Unregioned(v, start);
    forall a | a in u.data ensures a % 4 == 0 && LiveWord(u, a) {
      assert LiveWord(v, a);
      if a >= 0x8000_0000 {
        var s :| s in v.big.live && s * 4096 + 4 <= a < (s + v.big.live[s]) * 4096;
        assert s in u.big.live;
      }
    }
  }

  /** The chain and count words written last complete a large free. */
  lemma HeldBigFree(mem0: Memory, v: View, mem: Memory, start: nat)
    requires |v.doms| == CLASSES && start in v.big.live && v.big.live[start] >= 1
    requires Rep(mem0, v.mmu) && Held(mem0, v) && Rep(mem, BigFree(v, start).mmu)
    requires Same(mem0, v.mmu, mem, BigFree(v, start).mmu, Unregioned(v, start))
    requires Holds(mem, BigFree(v, start).mmu, start * 4096, SlotAddress(v.big.slots))
    requires Holds(mem, BigFree(v, start).mmu, start * 4096 + 4, v.big.live[start])
    ensures Held(mem, BigFree(v, start))
  {
    hide Rep, Holds, Same, DropPages, Linked, SlotsLinked, DataHeld, ListsHeld, Headers, Forget;
    var v' := BigFree(v, start);
    var u := Unregioned(v, start).(mmu := v'.mmu);
    HeldUnregioned(mem0, v, start);
    SameHeld(mem0, mem, Unregioned(v, start), u);
    SameLists(mem, u, v');
    SlotsCons(mem, u.mmu, Slot(start, v.big.live[start]), v.big.slots);
  }

  // ---------------------------------------------------------------------------------------
  // Following the links
  // ---------------------------------------------------------------------------------------

  /** The word the processor reads at `a` under directory `dir`, 0 where nothing is mapped. */
  function ReadWord(mem: Memory, dir: nat, a: nat): nat
    requires WfMemory(mem) && dir < DIRECT_FRAMES
  {
    if Mapped(mem, dir, a / 4096) then mem[FrameOf(mem, dir, a / 4096)][a % 4096 / 4] else 0
  }

  /** At most `fuel` blocks met by following links from `a` until a null link. */
  function Chase(mem: Memory, dir: nat, a: nat, fuel: nat): seq<nat>
    requires WfMemory(mem) && dir < DIRECT_FRAMES
    decreases fuel
  {
    if a == 0 || fuel == 0 then [] else [a] + Chase(mem, dir, ReadWord(mem, dir, a), fuel - 1)
  }

  lemma {:induction false} ChaseLinked(mem: Memory, m: Mmu, s: seq<nat>, fuel: nat)
    requires Rep(mem, m) && Linked(mem, m, s) && fuel >= |s| && forall i | 0 <= i < |s| :: s[i] != 0
    ensures WfMemory(mem) && |m.dirs| > 0 && m.dirs[0] < DIRECT_FRAMES
    ensures Chase(mem, m.dirs[0], First(s), fuel) == s
  {
    hide Rep, Linked, ReadWord;
    RepShape(mem, m);
    if s != [] {
      LinkedTail(mem, m, s);
      ReadHeld(mem, m, s[0], First(s[1..]));
      ChaseLinked(mem, m, s[1..], fuel - 1);
      assert s == [s[0]] + s[1..];
    }
  }

  lemma RepShape(mem: Memory, m: Mmu)
    requires Rep(mem, m)
    ensures WfMemory(mem) && |m.dirs| > 0 && m.dirs[0] < DIRECT_FRAMES
  {
    hide DirsRep, PtesRep, WfPdes, WfPtes;
    DirFrame(m, 0);
  }

  lemma ReadHeld(mem: Memory, m: Mmu, a: nat, w: nat)
    requires Rep(mem, m) && Holds(mem, m, a, w)
    ensures WfMemory(mem) && |m.dirs| > 0 && m.dirs[0] < DIRECT_FRAMES && ReadWord(mem, m.dirs[0], a) == w
  {
    hide Rep, HeapWord, HeapPut;
    HeapAccess(mem, m, a);
  }

  /**
   * Whatever clients have written, following the links of a class from its list head, through
   * the page tables, gives exactly the abstract free list and stops at a null link.
   */
  lemma FreeListInMemory(mem: Memory, v: View, k: nat, fuel: nat)
    requires |v.doms| == CLASSES && Rep(mem, v.mmu) && Inv(v) && Held(mem, v) && k < CLASSES && fuel >= |v.doms[k].free|
    ensures WfMemory(mem) && |v.mmu.dirs| > 0 && v.mmu.dirs[0] < DIRECT_FRAMES
    ensures Chase(mem, v.mmu.dirs[0], First(v.doms[k].free), fuel) == v.doms[k].free
  {
    hide Rep, Linked, SlotsLinked, Headers, DataHeld, Good, DomsOk, BigOk, DirsOk, PagesOk, TablesOk, CountsOk, DataOk;
    ListKnown(mem, v, k);
    forall i | 0 <= i < |v.doms[k].free| ensures v.doms[k].free[i] != 0 { FreeBlockSmall(v, k, v.doms[k].free[i]); }
    ChaseLinked(mem, v.mmu, v.doms[k].free, fuel);
  }
}
