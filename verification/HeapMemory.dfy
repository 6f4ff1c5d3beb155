/**
 * The heap's bookkeeping in memory: links threaded through free blocks, chain and count words
 * in free slots, headers in live regions, and the data of the clients.
 */
module HeapMemory {
  import opened Frames
  import opened PageTables
  import opened Spaces
  import opened Regions
  import opened HeapModel
  import opened SizeClasses
  import opened LargeRegions
  import opened HeapInv
  import opened HeapRuns
  import opened Translation

  /** A word of the heap holds `w`. */
  ghost predicate Holds(mem: Memory, m: Mmu, a: nat, w: nat)
    requires Rep(mem, m)
  {
    a % 4 == 0 && PageMapped(m, a / 4096) && HeapWord(mem, m, a) == w
  }

  /** The address a free list starts with, 0 when it is empty. */
  function First(s: seq<nat>): nat {
    if s == [] then 0 else s[0]
  }

  /** The link of the i-th free block. */
  function LinkAt(s: seq<nat>, i: nat): nat
    requires i < |s|
  {
    if i + 1 < |s| then s[i + 1] else 0
  }

  ghost predicate Linked(mem: Memory, m: Mmu, s: seq<nat>)
    requires Rep(mem, m)
  {
    forall i | 0 <= i < |s| :: Holds(mem, m, s[i], LinkAt(s, i))
  }

  function SlotAddress(s: seq<Slot>): nat {
    if s == [] then 0 else s[0].start * 4096
  }

  /** Word 0 of a slot's kept page is the next slot's address, word 1 the page count. */
  ghost predicate SlotHolds(mem: Memory, m: Mmu, s: seq<Slot>, j: nat)
    requires Rep(mem, m) && j < |s|
  {
    && Holds(mem, m, s[j].start * 4096, SlotAddress(s[j + 1..]))
    && Holds(mem, m, s[j].start * 4096 + 4, s[j].count)
  }

  ghost predicate SlotsLinked(mem: Memory, m: Mmu, s: seq<Slot>)
    requires Rep(mem, m)
  {
    forall j | 0 <= j < |s| :: SlotHolds(mem, m, s, j)
  }

  ghost predicate Headers(mem: Memory, m: Mmu, live: map<nat, nat>)
    requires Rep(mem, m)
  {
    forall s | s in live :: Holds(mem, m, s * 4096, live[s])
  }

  ghost predicate DataHeld(mem: Memory, m: Mmu, data: map<nat, Word>)
    requires Rep(mem, m)
  {
    forall a | a in data :: Holds(mem, m, a, data[a])
  }

  ghost predicate ListsHeld(mem: Memory, v: View)
    requires Rep(mem, v.mmu) && |v.doms| == CLASSES
  {
    forall k | 0 <= k < CLASSES :: Linked(mem, v.mmu, v.doms[k].free)
  }

  /** Memory holds the abstract heap. */
  ghost predicate Held(mem: Memory, v: View)
    requires Rep(mem, v.mmu) && |v.doms| == CLASSES
  {
    && ListsHeld(mem, v) && SlotsLinked(mem, v.mmu, v.big.slots)
    && Headers(mem, v.mmu, v.big.live) && DataHeld(mem, v.mmu, v.data)
  }

  // ---------------------------------------------------------------------------------------
  // Where bookkeeping lies
  // ---------------------------------------------------------------------------------------

  /** Words of the bookkeeping: links of free blocks, both words of free slots, headers of live regions. */
  ghost predicate Bookkeeping(doms: seq<Dom>, b: Big, a: nat)
    requires |doms| == CLASSES
  {
    || (exists k | 0 <= k < CLASSES :: a in doms[k].free)
    || (exists j | 0 <= j < |b.slots| :: a == b.slots[j].start * 4096 || a == b.slots[j].start * 4096 + 4)
    || (exists s | s in b.live :: a == s * 4096)
  }

  /** Where memory must not change behind the heap's back. */
  ghost predicate Tracked(v: View, a: nat)
    requires |v.doms| == CLASSES
  {
    Bookkeeping(v.doms, v.big, a) || a in v.data
  }

  /** The tracked words of v read the same in both memories. */
  ghost predicate Same(mem: Memory, m: Mmu, mem': Memory, m': Mmu, v: View)
    requires Rep(mem, m) && Rep(mem', m') && |v.doms| == CLASSES
  {
    forall a: nat, w: nat | Tracked(v, a) && Holds(mem, m, a, w) :: Holds(mem', m', a, w)
  }

  lemma SameLinks(mem: Memory, mem': Memory, m': Mmu, v: View, k: nat)
    requires Rep(mem, v.mmu) && Rep(mem', m') && |v.doms| == CLASSES && k < CLASSES
    requires Linked(mem, v.mmu, v.doms[k].free) && Same(mem, v.mmu, mem', m', v)
    ensures Linked(mem', m', v.doms[k].free)
  {
    hide Rep, Holds;
    var s := v.doms[k].free;
    forall i | 0 <= i < |s| ensures Holds(mem', m', s[i], LinkAt(s, i)) {
      assert Holds(mem, v.mmu, s[i], LinkAt(s, i));
      assert s[i] in v.doms[k].free;
    }
  }

  lemma SameSlots(mem: Memory, mem': Memory, m': Mmu, v: View)
    requires Rep(mem, v.mmu) && Rep(mem', m') && |v.doms| == CLASSES
    requires SlotsLinked(mem, v.mmu, v.big.slots) && Same(mem, v.mmu, mem', m', v)
    ensures SlotsLinked(mem', m', v.big.slots)
  {
    hide Rep, Holds;
    forall j | 0 <= j < |v.big.slots| ensures SlotHolds(mem', m', v.big.slots, j) {
      assert SlotHolds(mem, v.mmu, v.big.slots, j);
    }
  }

  lemma SameRest(mem: Memory, mem': Memory, m': Mmu, v: View)
    requires Rep(mem, v.mmu) && Rep(mem', m') && |v.doms| == CLASSES
    requires Headers(mem, v.mmu, v.big.live) && DataHeld(mem, v.mmu, v.data) && Same(mem, v.mmu, mem', m', v)
    ensures Headers(mem', m', v.big.live) && DataHeld(mem', m', v.data)
  {
    hide Rep, Holds;
    forall s | s in v.big.live ensures Holds(mem', m', s * 4096, v.big.live[s]) {
      assert Holds(mem, v.mmu, s * 4096, v.big.live[s]);
    }
    forall a | a in v.data ensures Holds(mem', m', a, v.data[a]) {
      assert Holds(mem, v.mmu, a, v.data[a]);
    }
  }

  /** Held only depends on tracked words. */
  lemma SameHeld(mem: Memory, mem': Memory, v: View, v': View)
    requires |v.doms| == CLASSES && Rep(mem, v.mmu) && Rep(mem', v'.mmu) && v' == v.(mmu := v'.mmu)
    requires Held(mem, v) && Same(mem, v.mmu, mem', v'.mmu, v)
    ensures Held(mem', v')
  {
    hide Rep, Holds, Linked, SlotsLinked, Headers, DataHeld, Same;
    forall k | 0 <= k < CLASSES ensures Linked(mem', v'.mmu, v'.doms[k].free) {
      SameLinks(mem, mem', v'.mmu, v, k);
    }
    SameSlots(mem, mem', v'.mmu, v);
    SameRest(mem, mem', v'.mmu, v);
  }

  // ---------------------------------------------------------------------------------------
  // What leaves tracked words alone
  // ---------------------------------------------------------------------------------------

  lemma SameMemory(mem: Memory, v: View)
    requires Rep(mem, v.mmu) && |v.doms| == CLASSES
    ensures Same(mem, v.mmu, mem, v.mmu, v)
  {
    hide Rep, Holds;
  }

  /** A heap write outside the tracked words, or to a page that was not mapped before. */
  lemma PutKeepsSame(mem0: Memory, m0: Mmu, mem: Memory, m: Mmu, v: View, va: nat, w: Word)
    requires Rep(mem0, m0) && Rep(mem, m) && |v.doms| == CLASSES && Same(mem0, m0, mem, m, v)
    requires va % 4 == 0 && PageMapped(m, va / 4096) && (!PageMapped(m0, va / 4096) || !Tracked(v, va))
    ensures Rep(HeapPut(mem, m, va, w), m) && Same(mem0, m0, HeapPut(mem, m, va, w), m, v)
  {
    hide Rep, Tracked, HeapWord, HeapPut;
    HeapPutGet(mem, m, va, w, va);
    forall a: nat, u: nat | Tracked(v, a) && Holds(mem0, m0, a, u) ensures Holds(HeapPut(mem, m, va, w), m, a, u) {
      assert Holds(mem, m, a, u);
      HeapPutGet(mem, m, va, w, a);
    }
  }

  /** Changes to page tables that keep page frames and the tracked pages. */
  lemma TablesKeepSame(mem0: Memory, m0: Mmu, mem: Memory, m: Mmu, mem': Memory, m': Mmu, v: View)
    requires Rep(mem0, m0) && Rep(mem, m) && Rep(mem', m') && |v.doms| == CLASSES && Same(mem0, m0, mem, m, v)
    requires KeepsPages(m, m')
    requires forall f | f in m.own && m.own[f].Page? :: f < DIRECT_FRAMES && mem'[f] == mem[f]
    requires forall a: nat, u: nat | Tracked(v, a) && Holds(mem0, m0, a, u) :: PageMapped(m', a / 4096)
    ensures Same(mem0, m0, mem', m', v)
  {
    hide Rep, Tracked, HeapWord, KeepsPages;
    forall a: nat, u: nat | Tracked(v, a) && Holds(mem0, m0, a, u) ensures Holds(mem', m', a, u) {
      assert Holds(mem, m, a, u);
      HeapWordStays(mem, m, mem', m', a);
    }
  }

  lemma PutHolds(mem: Memory, m: Mmu, va: nat, w: Word)
    requires Rep(mem, m) && va % 4 == 0 && PageMapped(m, va / 4096)
    ensures Rep(HeapPut(mem, m, va, w), m) && Holds(HeapPut(mem, m, va, w), m, va, w)
  {
    hide Rep;
    HeapPutGet(mem, m, va, w, va);
  }

  lemma PutKeepsHolds(mem: Memory, m: Mmu, va: nat, w: Word, a: nat, u: nat)
    requires Rep(mem, m) && va % 4 == 0 && PageMapped(m, va / 4096) && Holds(mem, m, a, u) && a != va
    ensures Rep(HeapPut(mem, m, va, w), m) && Holds(HeapPut(mem, m, va, w), m, a, u)
  {
    hide Rep;
    HeapPutGet(mem, m, va, w, a);
  }

  // ---------------------------------------------------------------------------------------
  // Where tracked words are not
  // ---------------------------------------------------------------------------------------

  /** Free blocks lie below the large region, word aligned. */
  lemma FreeBlockSmall(v: View, k: nat, a: nat)
    requires DomsOk(v) && k < CLASSES && a in v.doms[k].free
    ensures RouteOf(a) == Some(k) && a % 4 == 0 && a !in v.doms[k].live && a / 4096 < BasePage(k) + v.doms[k].carved
    ensures BasePage(k) <= a / 4096 && a % BlockSize(k) == 0
  {
    assert DomOk(k, v.doms[k]);
    assert IsBlock(k, v.doms[k].carved, a);
    BlockIndex(k, a);
    hide BlockSize, BlocksPerPage;
  }

  /** No tracked word lies in large pages that keep clear of every region and slot. */
  lemma ClearOfRegions(v: View, start: nat, n: nat, a: nat)
    requires |v.doms| == CLASSES && DomsOk(v) && DataOk(v) && LARGE_PAGE <= start && Tracked(v, a)
    requires InRange(v.big)
    requires forall s | s in v.big.live :: Apart(s, v.big.live[s], start, n)
    requires forall j | 0 <= j < |v.big.slots| :: Apart(start, n, v.big.slots[j].start, v.big.slots[j].count)
    ensures !(start <= a / 4096 < start + n)
  {
    hide DomsOk, DataOk;
    if k :| 0 <= k < CLASSES && a in v.doms[k].free {
      FreeBlockSmall(v, k, a);
    } else if j :| 0 <= j < |v.big.slots| && a - v.big.slots[j].start * 4096 in {0, 4} {
      assert Within(v.big, v.big.slots[j].start, v.big.slots[j].count);
      assert a / 4096 == v.big.slots[j].start;
    } else if s :| s in v.big.live && a == s * 4096 {
      assert Within(v.big, s, v.big.live[s]);
    } else {
      DataPage(v, a, start, n);
    }
  }

  lemma DataPage(v: View, a: nat, start: nat, n: nat)
    requires |v.doms| == CLASSES && DataOk(v) && LARGE_PAGE <= start && a in v.data
    requires forall s | s in v.big.live :: Apart(s, v.big.live[s], start, n)
    ensures !(start <= a / 4096 < start + n)
  {
    assert LiveWord(v, a);
    if a >= 0x8000_0000 {
      var s :| s in v.big.live && s * 4096 + 4 <= a < (s + v.big.live[s]) * 4096;
      assert Apart(s, v.big.live[s], start, n);
    }
  }

  /** A word of live memory is not bookkeeping. */
  lemma LiveNotBookkeeping(v: View, va: nat)
    requires Inv(v) && LiveWord(v, va)
    ensures |v.doms| == CLASSES && !Bookkeeping(v.doms, v.big, va)
  {
    hide Good, DirsOk, PagesOk, TablesOk, CountsOk, DataOk, DomsOk;
    forall k | 0 <= k < CLASSES ensures va !in v.doms[k].free {
      if va in v.doms[k].free {
        FreeBlockSmall(v, k, va);
        OwnBlock(k, va);
      }
    }
    if va >= 0x8000_0000 {
      var s :| s in v.big.live && s * 4096 + 4 <= va < (s + v.big.live[s]) * 4096;
      forall j | 0 <= j < |v.big.slots| ensures va / 4096 != v.big.slots[j].start {
        assert Apart(s, v.big.live[s], v.big.slots[j].start, v.big.slots[j].count);
        assert Within(v.big, v.big.slots[j].start, v.big.slots[j].count);
      }
      forall t | t in v.big.live ensures va != t * 4096 {
        assert t != s ==> Apart(t, v.big.live[t], s, v.big.live[s]);
        assert Within(v.big, t, v.big.live[t]);
      }
    } else {
      NotLargeWord(v.big, va);
    }
  }

  lemma NotLargeWord(b: Big, va: nat)
    requires InRange(b) && va < 0x8000_0000
    ensures forall j | 0 <= j < |b.slots| :: va < b.slots[j].start * 4096
    ensures forall s | s in b.live :: va < s * 4096
  {
    forall j | 0 <= j < |b.slots|
      ensures va < b.slots[j].start * 4096
    {
      assert Within(b, b.slots[j].start, b.slots[j].count);
    }
    forall s | s in b.live ensures va < s * 4096 { assert Within(b, s, b.live[s]); }
  }

  lemma OwnBlock(k: nat, a: nat)
    requires k < CLASSES && a % BlockSize(k) == 0
    ensures BlockOf(k, a) == a
  {
  }
}
