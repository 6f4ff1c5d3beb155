/** Runs of the abstract heap: boot, then any sequence of kmalloc, kfree, client writes and new directories. */
module HeapRuns {
  import opened Frames
  import opened PageTables
  import opened Spaces
  import opened Regions
  import opened HeapModel
  import opened SizeClasses
  import opened LargeRegions
  import opened HeapInv
  import opened LargeInv

  // ---------------------------------------------------------------------------------------
  // Steps
  // ---------------------------------------------------------------------------------------

  /** A call a client makes. Spawn stands for create_process_page_directory. */
  datatype Op = Malloc(size: nat) | Free(ptr: nat) | Write(va: nat, w: Word) | Spawn

  /** The size class kmalloc picks, 7 for the large allocator. */
  function ClassOf(size: nat): (k: nat)
    ensures k <= CLASSES && (k < CLASSES <==> size <= 4096)
  {
    if size <= 64 then 0 else if size <= 128 then 1 else if size <= 256 then 2 else if size <= 512 then 3
    else if size <= 1024 then 4 else if size <= 2048 then 5 else if size <= 4096 then 6 else 7
  }

  /** The allocator kfree_heap sends an address to: a class, 7 for the large one, or none. */
  function RouteOf(ptr: nat): Option<nat> {
    if ptr < 0x1000_0000 then None
    else if ptr < 0x8000_0000 then Some(ptr / 0x1000_0000 - 1)
    else Some(7)
  }

  predicate LivePointer(v: View, ptr: nat)
    requires |v.doms| == CLASSES
  {
    match RouteOf(ptr)
    case None => false
    case Some(k) =>
      if k < CLASSES then ptr in v.doms[k].live else ptr % 4096 == 4 && ptr / 4096 in v.big.live
  }

  function AddDir(v: View): View {
    v.(mmu := NewDir(v.mmu))
  }

  /** What the code relies on and does not check. */
  predicate Enabled(v: View, op: Op)
    requires |v.doms| == CLASSES && |v.mmu.dirs| > 0
  {
    match op
    case Malloc(size) =>
      if size <= 4096 then v.doms[ClassOf(size)].free != [] || CanCarve(v, ClassOf(size))
      else size <= 0xFFFF_EFFC && CanBig(v, PagesFor(size))
    case Free(ptr) => RouteOf(ptr).None? || LivePointer(v, ptr)
    case Write(va, w) => va % 4 == 0 && LiveWord(v, va)
    case Spawn => NextFrame(v.mmu) < DIRECT_FRAMES
  }

  function MallocStep(v: View, size: nat): View
    requires |v.doms| == CLASSES && |v.mmu.dirs| > 0
  {
    if size <= 4096 then DomAlloc(v, ClassOf(size)) else BigAlloc(v, PagesFor(size))
  }

  /** The pointer kmalloc returns. */
  function MallocPointer(v: View, size: nat): nat
    requires |v.doms| == CLASSES && |v.mmu.dirs| > 0
  {
    if size <= 4096 then DomPointer(v, ClassOf(size)) else BigPointer(v, PagesFor(size))
  }

  function FreeStep(v: View, ptr: nat): View
    requires |v.doms| == CLASSES
  {
    match RouteOf(ptr)
    case None => v
    case Some(k) =>
      if k < CLASSES then DomFree(v, k, ptr)
      else if ptr / 4096 in v.big.live && v.big.live[ptr / 4096] >= 1 then BigFree(v, ptr / 4096) else v
  }

  function Step(v: View, op: Op): View
    requires |v.doms| == CLASSES && |v.mmu.dirs| > 0
  {
    match op
    case Malloc(size) => MallocStep(v, size)
    case Free(ptr) => FreeStep(v, ptr)
    case Write(va, w) => v.(data := v.data[va := w])
    case Spawn => AddDir(v)
  }

  // ---------------------------------------------------------------------------------------
  // Ready states
  // ---------------------------------------------------------------------------------------

  /** The invariant of a heap that init_all_heaps has set up. */
  ghost predicate Ready(v: View) {
    && Inv(v) && |v.doms| == CLASSES && |v.mmu.dirs| > 8
    && forall k | 0 <= k < CLASSES :: v.doms[k].carved >= PREMAP && HighWater(k, v.doms[k])
  }

  lemma ReadyFacts(v: View)
    requires Ready(v)
    ensures Inv(v) && |v.doms| == CLASSES && |v.mmu.dirs| > 8 && Good(v.mmu)
  {
    hide Good, DomsOk, BigOk, DirsOk, PagesOk, TablesOk, CountsOk, DataOk, HighWater;
  }

  lemma DomKnown(v: View, k: nat)
    requires DomsOk(v) && k < CLASSES
    ensures DomOk(k, v.doms[k])
  {
  }

  lemma PopReady(v: View, k: nat)
    requires Ready(v) && k < CLASSES && v.doms[k].free != []
    ensures Ready(Pop(v, k))
  {
    hide Inv, HighWater, DomOk;
    InvDom(v, k);
    PopKeeps(k, v.doms[k]);
    PopInv(v, k);
    assert HighWater(k, PopBlock(v.doms[k]));
    forall j | 0 <= j < CLASSES ensures Pop(v, k).doms[j].carved >= PREMAP && HighWater(j, Pop(v, k).doms[j]) {
      assert HighWater(j, v.doms[j]);
    }
  }

  lemma InvDom(v: View, k: nat)
    requires Inv(v) && k < CLASSES
    ensures |v.doms| == CLASSES && DomOk(k, v.doms[k])
  {
    hide Good, BigOk, DirsOk, PagesOk, TablesOk, CountsOk, DataOk, DomOk;
    DomKnown(v, k);
  }

  lemma RefillReady(v: View, k: nat)
    requires Ready(v) && k < CLASSES && v.doms[k].free == [] && CanCarve(v, k)
    ensures Ready(DomAlloc(v, k))
  {
    hide Inv, HighWater, DomOk, CanCarve, AddPage, CarvePage, PopBlock;
    InvDom(v, k);
    CarvedRoom(v, k);
    CarveInv(v, k);
    CarveShape(v, k);
    PopInv(Carve(v, k), k);
    RefillHighWater(k, v.doms[k]);
    PopCarved(Carve(v, k).doms[k]);
  }

  lemma PopCarved(d: Dom)
    requires d.free != []
    ensures PopBlock(d).carved == d.carved
  {
  }

  lemma CarveShape(v: View, k: nat)
    requires |v.doms| == CLASSES && k < CLASSES && |v.mmu.dirs| > 0 && HEAP_PAGE <= BasePage(k) + v.doms[k].carved
    ensures Carve(v, k).mmu.dirs == v.mmu.dirs && CarvePage(k, v.doms[k]).carved == v.doms[k].carved + 1
    ensures CarvePage(k, v.doms[k]).free != []
  {
    hide AddPage;
    AddPageGrows(v.mmu, BasePage(k) + v.doms[k].carved);
  }

  lemma DomAllocReady(v: View, k: nat)
    requires Ready(v) && k < CLASSES && (v.doms[k].free != [] || CanCarve(v, k))
    ensures Ready(DomAlloc(v, k))
  {
    hide Ready, CanCarve, Pop, Carve;
    assert |v.doms| == CLASSES && |v.mmu.dirs| > 8 by { ReadyFacts(v); }
    if v.doms[k].free != [] { PopReady(v, k); } else { RefillReady(v, k); }
  }

  lemma DomFreeReady(v: View, k: nat, ptr: nat)
    requires Ready(v) && k < CLASSES && ptr in v.doms[k].live
    ensures Ready(DomFree(v, k, ptr))
  {
    hide Inv, HighWater, DomOk, Forget;
    InvDom(v, k);
    DomFreeInv(v, k, ptr);
    PushKeeps(k, v.doms[k], ptr);
  }

  lemma BigAllocReady(v: View, n: nat)
    requires Ready(v) && CanBig(v, n)
    ensures Ready(BigAlloc(v, n))
  {
    hide Inv, HighWater, CanBig, BigTake, AddPages, Cleared;
    BigAllocInv(v, n);
  }

  lemma BigFreeReady(v: View, start: nat)
    requires Ready(v) && start in v.big.live
    ensures v.big.live[start] >= 1 && Ready(BigFree(v, start))
  {
    hide Inv, HighWater, BigRelease, DropPages, Forget;
    BigFreeInv(v, start);
    BigFreeDirs(v, start);
  }

  lemma BigFreeDirs(v: View, start: nat)
    requires Inv(v) && start in v.big.live && v.big.live[start] >= 1
    ensures BigFree(v, start).mmu.dirs == v.mmu.dirs
  {
    hide Inv, DropPages, BigRelease, Forget;
    BigFreePages(v, start);
  }

  lemma WriteReady(v: View, va: nat, w: Word)
    requires Ready(v) && va % 4 == 0 && LiveWord(v, va)
    ensures Ready(Step(v, Write(va, w)))
  {
    hide Inv, HighWater, LiveWord;
    var v' := Step(v, Write(va, w));
    WriteInv(v, va, w);
  }

  lemma WriteData(v: View, va: nat, w: Word)
    requires |v.doms| == CLASSES && DataOk(v) && va % 4 == 0 && LiveWord(v, va)
    ensures DataOk(v.(data := v.data[va := w]))
  {
    hide LiveWord;
    var v' := v.(data := v.data[va := w]);
    forall a | a in v'.data ensures a % 4 == 0 && LiveWord(v', a) {
      SameLive(v, v', a);
      if a != va { assert LiveWord(v, a); }
    }
  }

  lemma WriteInv(v: View, va: nat, w: Word)
    requires Inv(v) && va % 4 == 0 && LiveWord(v, va)
    ensures Inv(v.(data := v.data[va := w]))
  {
    hide Good, DomsOk, BigOk, DirsOk, PagesOk, TablesOk, CountsOk, LiveWord, DataOk;
    var v' := v.(data := v.data[va := w]);
    SamePages(v, v');
    SameDoms(v, v');
    WriteData(v, va, w);
  }

  lemma AddDirInv(v: View)
    requires Inv(v) && NextFrame(v.mmu) < DIRECT_FRAMES
    ensures Inv(AddDir(v)) && AddDir(v).mmu.dirs == v.mmu.dirs + [NextFrame(v.mmu)]
  {
    hide Wf, Balanced, DomOk, BigOk, LiveWord, LivePage, HostagePage;
    NewDirWf(v.mmu);
    NewDirBalanced(v.mmu);
    var v' := AddDir(v);
    forall p: nat ensures Owned(v', p) <==> Owned(v, p) {}
    forall i: nat ensures Carved(v', i) <==> Carved(v, i) {}
    forall a | a in v'.data ensures LiveWord(v', a) { SameLive(v, v', a); }
  }

  lemma SameLive(v: View, v': View, a: nat)
    requires |v.doms| == CLASSES && v'.doms == v.doms && v'.big == v.big
    ensures LiveWord(v', a) <==> LiveWord(v, a)
  {
  }

  lemma SpawnReady(v: View)
    requires Ready(v) && NextFrame(v.mmu) < DIRECT_FRAMES
    ensures Ready(AddDir(v))
  {
    hide Inv, HighWater, NextFrame;
    AddDirInv(v);
  }

  /** A legal free keeps the invariant, whichever allocator the address names. */
  lemma FreeReady(v: View, ptr: nat)
    requires Ready(v) && Enabled(v, Free(ptr))
    ensures Ready(FreeStep(v, ptr))
  {
    hide Ready, Inv, DomFree, BigFree;
    assert |v.doms| == CLASSES by { ReadyFacts(v); }
    match RouteOf(ptr)
    case None =>
    case Some(k) =>
      if k < CLASSES { DomFreeReady(v, k, ptr); } else { BigFreeReady(v, ptr / 4096); }
  }

  lemma MallocReady(v: View, size: nat)
    requires Ready(v) && Enabled(v, Malloc(size))
    ensures Ready(MallocStep(v, size))
  {
    hide Ready, Inv, DomAlloc, BigAlloc, CanCarve, CanBig;
    assert |v.doms| == CLASSES by { ReadyFacts(v); }
    if size <= 4096 { DomAllocReady(v, ClassOf(size)); } else { BigAllocReady(v, PagesFor(size)); }
  }

  /** Every call of a well-behaved client keeps the invariant. */
  lemma StepReady(v: View, op: Op)
    requires Ready(v) && Enabled(v, op)
    ensures Ready(Step(v, op))
  {
    match op
    case Malloc(size) =>
      hide Ready, MallocStep;
      MallocReady(v, size);
    case Free(ptr) =>
      hide Ready, FreeStep;
      FreeReady(v, ptr);
    case Write(va, w) =>
      hide Ready, LiveWord;
      WriteReady(v, va, w);
    case Spawn =>
      hide Ready, AddDir;
      SpawnReady(v);
  }

  // ---------------------------------------------------------------------------------------
  // Runs
  // ---------------------------------------------------------------------------------------

  /** Every call of the run is one the code can carry out where it is made. */
  ghost predicate EnabledRun(v: View, ops: seq<Op>)
    requires Ready(v)
    decreases |ops|
  {
    if ops == [] then true
    else Enabled(v, ops[0]) && (StepReady(v, ops[0]); EnabledRun(Step(v, ops[0]), ops[1..]))
  }

  ghost function Run(v: View, ops: seq<Op>): (r: View)
    requires Ready(v) && EnabledRun(v, ops)
    ensures Ready(r)
    decreases |ops|
  {
    if ops == [] then v
    else
      StepReady(v, ops[0]);
      Run(Step(v, ops[0]), ops[1..])
  }
}
