/**
 * The heap as an abstract machine: seven stacks of free blocks, a stack of free large slots,
 * and the pages behind them. No links, no headers, no page tables; lib/heap_domain.c keeps all
 * of that in memory the clients also write to.
 */
module HeapModel {
  import opened Frames
  import opened PageTables
  import opened Spaces
  import opened Regions

  // ---------------------------------------------------------------------------------------
  // Geometry
  // ---------------------------------------------------------------------------------------

  const CLASSES: nat := 7

  /** PREMAP_PAGES: pages each size class maps at start. */
  const PREMAP: nat := 256

  /** Pages of address space a size class owns: 256 MB. */
  const BAND_PAGES: nat := 0x1_0000

  /** The table of init_all_heaps. */
  function BlockSize(k: nat): nat
    requires k < CLASSES
  {
    if k == 0 then 64 else if k == 1 then 128 else if k == 2 then 256 else if k == 3 then 512
    else if k == 4 then 1024 else if k == 5 then 2048 else 4096
  }

  function BlocksPerPage(k: nat): (n: nat)
    requires k < CLASSES
    ensures n >= 1
  {
    4096 / BlockSize(k)
  }

  function BasePage(k: nat): nat {
    (k + 1) * BAND_PAGES
  }

  /** `a` is a block boundary within the first `carved` pages of class k. */
  predicate IsBlock(k: nat, carved: nat, a: nat)
    requires k < CLASSES
  {
    BasePage(k) * 4096 <= a < (BasePage(k) + carved) * 4096 && a % BlockSize(k) == 0
  }

  /** The blocks of page p in address order. */
  function PageBlocks(k: nat, p: nat): (s: seq<nat>)
    requires k < CLASSES
    ensures |s| == BlocksPerPage(k)
  {
    seq(BlocksPerPage(k), i requires 0 <= i => p * 4096 + i * BlockSize(k))
  }

  // ---------------------------------------------------------------------------------------
  // State
  // ---------------------------------------------------------------------------------------

  /** A size class: pages carved so far, free blocks newest first, live blocks, most ever live. */
  datatype Dom = Dom(carved: nat, free: seq<nat>, live: set<nat>, peak: nat)

  /** A freed large region: its first page and the number of pages it may be reused for. */
  datatype Slot = Slot(start: nat, count: nat)

  /** The large allocator: next fresh page, free slots newest first, live regions with their page counts. */
  datatype Big = Big(cursor: nat, slots: seq<Slot>, live: map<nat, nat>)

  /** `data` holds what clients last wrote to the live words they wrote to. */
  datatype View = View(mmu: Mmu, doms: seq<Dom>, big: Big, data: map<nat, Word>)

  // ---------------------------------------------------------------------------------------
  // Steps of a size class
  // ---------------------------------------------------------------------------------------

  function Max(a: nat, b: nat): nat {
    if a < b then b else a
  }

  /** Takes the newest free block. */
  function PopBlock(d: Dom): Dom
    requires d.free != []
  {
    Dom(d.carved, d.free[1..], d.live + {d.free[0]}, Max(d.peak, |d.live| + 1))
  }

  /** Puts the blocks of the next page in front of the free ones. */
  function CarvePage(k: nat, d: Dom): Dom
    requires k < CLASSES
  {
    d.(carved := d.carved + 1, free := PageBlocks(k, BasePage(k) + d.carved) + d.free)
  }

  function PushBlock(d: Dom, ptr: nat): Dom {
    d.(free := [ptr] + d.free, live := d.live - {ptr})
  }

  function Pop(v: View, k: nat): View
    requires k < |v.doms| && v.doms[k].free != []
  {
    v.(doms := v.doms[k := PopBlock(v.doms[k])])
  }

  function Carve(v: View, k: nat): View
    requires k < CLASSES && k < |v.doms| && |v.mmu.dirs| > 0
  {
    v.(mmu := AddPage(v.mmu, BasePage(k) + v.doms[k].carved), doms := v.doms[k := CarvePage(k, v.doms[k])])
  }

  /** The state heap_domain_alloc pops from: the same, or one page larger when nothing is free. */
  function Refilled(v: View, k: nat): (r: View)
    requires k < CLASSES && k < |v.doms| && |v.mmu.dirs| > 0
    ensures k < |r.doms| && r.doms[k].free != []
  {
    if v.doms[k].free != [] then v else Carve(v, k)
  }

  function DomAlloc(v: View, k: nat): View
    requires k < CLASSES && k < |v.doms| && |v.mmu.dirs| > 0
  {
    Pop(Refilled(v, k), k)
  }

  function DomPointer(v: View, k: nat): nat
    requires k < CLASSES && k < |v.doms| && |v.mmu.dirs| > 0
  {
    Refilled(v, k).doms[k].free[0]
  }

  /** What clients had written outside [from, to). */
  function Forget(data: map<nat, Word>, from: nat, to: nat): map<nat, Word> {
    map a | a in data && !(from <= a < to) :: data[a]
  }

  function DomFree(v: View, k: nat, ptr: nat): View
    requires k < CLASSES && k < |v.doms|
  {
    v.(doms := v.doms[k := PushBlock(v.doms[k], ptr)], data := Forget(v.data, ptr, ptr + BlockSize(k)))
  }

  // ---------------------------------------------------------------------------------------
  // Steps of the large allocator
  // ---------------------------------------------------------------------------------------

  /** Pages for `size` bytes and the 4-byte header. */
  function PagesFor(size: nat): nat {
    (size + 4 + 4095) / 4096
  }

  /** The same in the 32-bit arithmetic of kmalloc_large, which wraps. */
  function RoundedPages(size: nat): nat {
    (size + 4 + 4095) % 0x1_0000_0000 / 4096
  }

  predicate Reuses(b: Big, n: nat) {
    b.slots != [] && b.slots[0].count >= n
  }

  function BigStart(b: Big, n: nat): nat {
    if Reuses(b, n) then b.slots[0].start else b.cursor
  }

  /** Page tables before the region is mapped: a reused slot first gives up the page it kept. */
  function Cleared(m: Mmu, b: Big, n: nat): (r: Mmu)
    ensures r.dirs == m.dirs
  {
    if Reuses(b, n) && PageMapped(m, BigStart(b, n)) then DropPage(m, BigStart(b, n)) else m
  }

  function BigTake(b: Big, n: nat): Big {
    if Reuses(b, n) then Big(b.cursor, b.slots[1..], b.live[b.slots[0].start := n])
    else Big(b.cursor + n, b.slots, b.live[b.cursor := n])
  }

  function BigAlloc(v: View, n: nat): View
    requires |v.mmu.dirs| > 0
  {
    v.(mmu := AddPages(Cleared(v.mmu, v.big, n), BigStart(v.big, n), n), big := BigTake(v.big, n))
  }

  function BigPointer(v: View, n: nat): nat {
    BigStart(v.big, n) * 4096 + 4
  }

  function BigRelease(b: Big, start: nat): Big
    requires start in b.live
  {
    Big(b.cursor, [Slot(start, b.live[start])] + b.slots, b.live - {start})
  }

  function BigFree(v: View, start: nat): View
    requires start in v.big.live && v.big.live[start] >= 1
  {
    var n := v.big.live[start];
    v.(mmu := DropPages(v.mmu, start + 1, n - 1), big := BigRelease(v.big, start),
       data := Forget(v.data, start * 4096, (start + n) * 4096))
  }

  // ---------------------------------------------------------------------------------------
  // Ownership
  // ---------------------------------------------------------------------------------------

  /** The page belongs to a live region, or is the first page of a free slot, kept to hold the link. */
  predicate LivePage(b: Big, p: nat) {
    exists s | s in b.live :: s <= p < s + b.live[s]
  }

  predicate HostagePage(b: Big, p: nat) {
    exists j | 0 <= j < |b.slots| :: b.slots[j].start == p
  }

  /** First page past what band `d` has carved. */
  function End(v: View, d: nat): nat
    requires |v.doms| == CLASSES && 1 <= d <= 8
  {
    if d == 8 then v.big.cursor else d * BAND_PAGES + v.doms[d - 1].carved
  }

  lemma BandRange(p: nat)
    requires HEAP_PAGE <= p
    ensures 1 <= Band(p) <= 8
  {
  }

  /** Pages the heap has mapped. */
  predicate Owned(v: View, p: nat)
    requires |v.doms| == CLASSES
  {
    && HEAP_PAGE <= p
    && (if p < LARGE_PAGE then BandRange(p); p < End(v, Band(p)) else LivePage(v.big, p) || HostagePage(v.big, p))
  }

  /** 4 MB stretches the heap has carved pages from. */
  predicate Carved(v: View, i: nat)
    requires |v.doms| == CLASSES
  {
    && HEAP_PAGE <= i * 1024
    && (BandRange(i * 1024); i * 1024 < End(v, Band(i * 1024)))
  }

  predicate LiveLarge(b: Big, va: nat) {
    exists s | s in b.live :: s * 4096 + 4 <= va < (s + b.live[s]) * 4096
  }

  /** The block a small address lies in. */
  function BlockOf(k: nat, va: nat): nat
    requires k < CLASSES
  {
    va - va % BlockSize(k)
  }

  /** `va` lies in memory a client holds. */
  predicate LiveWord(v: View, va: nat)
    requires |v.doms| == CLASSES
  {
    if va < 0x1000_0000 then false
    else if va < 0x8000_0000 then
      var k := va / 0x1000_0000 - 1;
      BlockOf(k, va) in v.doms[k].live
    else LiveLarge(v.big, va)
  }
}
