/** What the state of the heap says about the run that led to it. */
module HeapHistory {
  import opened Frames
  import opened PageTables
  import opened Spaces
  import opened Regions
  import opened HeapModel
  import opened SizeClasses
  import opened LargeRegions
  import opened HeapInv
  import opened LargeInv
  import opened HeapRuns
  import opened HeapTheorems
  import opened HeapBoot

  /** The state after one call, in the shape runs need. */
  lemma StepShape(v: View, op: Op)
    requires Ready(v) && Enabled(v, op)
    ensures |v.doms| == CLASSES && |v.mmu.dirs| > 8 && Ready(Step(v, op)) && |Step(v, op).doms| == CLASSES
  {
    hide Ready, Enabled, Step;
    StepReady(v, op);
    ReadyFacts(v);
    ReadyFacts(Step(v, op));
  }

  /** A run is its calls in order, each made in the state the earlier ones leave. */
  lemma {:induction false} RunInOrder(v: View, ops: seq<Op>, op: Op)
    requires Ready(v) && EnabledRun(v, ops)
    ensures EnabledRun(v, []) && Run(v, []) == v
    ensures |Run(v, ops).doms| == CLASSES && |Run(v, ops).mmu.dirs| > 8
    ensures EnabledRun(v, ops + [op]) <==> Enabled(Run(v, ops), op)
    ensures EnabledRun(v, ops + [op]) ==> Run(v, ops + [op]) == Step(Run(v, ops), op)
    decreases |ops|
  {
    hide Ready, Enabled, Step, EnabledRun, Run, Inv, Good;
    ReadyFacts(Run(v, ops));
    NoCalls(v);
    if ops == [] {
      assert ops + [op] == [op] + [];
      FirstCall(v, op, []);
      if Enabled(v, op) { NoCalls(Step(v, op)); }
    } else {
      assert ops == [ops[0]] + ops[1..];
      FirstCall(v, ops[0], ops[1..]);
      assert ops + [op] == [ops[0]] + (ops[1..] + [op]);
      FirstCall(v, ops[0], ops[1..] + [op]);
      RunInOrder(Step(v, ops[0]), ops[1..], op);
    }
  }

  lemma NoCalls(v: View)
    requires Ready(v)
    ensures EnabledRun(v, []) && Run(v, []) == v
  {
    hide Ready;
  }

  lemma FirstCall(v: View, op: Op, rest: seq<Op>)
    requires Ready(v)
    ensures |v.doms| == CLASSES && |v.mmu.dirs| > 8
    ensures Enabled(v, op) ==> Ready(Step(v, op)) && (EnabledRun(v, [op] + rest) <==> EnabledRun(Step(v, op), rest))
    ensures !Enabled(v, op) ==> !EnabledRun(v, [op] + rest)
    ensures Enabled(v, op) && EnabledRun(v, [op] + rest) ==> Run(v, [op] + rest) == Run(Step(v, op), rest)
  {
    hide Ready, Enabled, Step, Inv, Good;
    ReadyFacts(v);
    assert ([op] + rest)[1..] == rest;
    if Enabled(v, op) { StepReady(v, op); }
  }

  // ---------------------------------------------------------------------------------------
  // The peak
  // ---------------------------------------------------------------------------------------

  /** The largest number of blocks of class k live at once, over all states of a run. */
  ghost function PeakOver(v: View, ops: seq<Op>, k: nat): nat
    requires k < CLASSES && Ready(v) && EnabledRun(v, ops)
    decreases |ops|
  {
    if ops == [] then |v.doms[k].live|
    else
      StepReady(v, ops[0]);
      Max(|v.doms[k].live|, PeakOver(Step(v, ops[0]), ops[1..], k))
  }

  /** The recorded peak is the running maximum of the number of live blocks. */
  lemma {:induction false} PeakOfRun(v: View, ops: seq<Op>, k: nat)
    requires k < CLASSES && Ready(v) && EnabledRun(v, ops)
    ensures |v.doms| == CLASSES && |Run(v, ops).doms| == CLASSES
    ensures Run(v, ops).doms[k].peak == Max(v.doms[k].peak, PeakOver(v, ops, k))
    decreases |ops|
  {
    hide Ready, Enabled, Step, DomOk, Inv, Good;
    ReadyFacts(v);
    InvDom(v, k);
    PeakBound(k, v.doms[k]);
    if ops != [] {
      StepShape(v, ops[0]);
      PeakIsRunningMax(v, ops[0], k);
      PeakOfRun(Step(v, ops[0]), ops[1..], k);
      PeakAtLeast(Step(v, ops[0]), ops[1..], k);
    }
  }

  lemma {:induction false} PeakAtLeast(v: View, ops: seq<Op>, k: nat)
    requires k < CLASSES && Ready(v) && EnabledRun(v, ops)
    ensures |v.doms| == CLASSES && |v.doms[k].live| <= PeakOver(v, ops, k)
  {
    hide Ready, Enabled, Step, EnabledRun, Inv, Good;
    ReadyFacts(v);
  }

  /**
   * High-water footprint of every run from boot: each class has carved exactly the pages that its
   * largest number of live blocks demanded, and never less than the 256 it started with.
   */
  lemma RunFootprint(kdir: nat, ops: seq<Op>, k: nat)
    requires kdir + KERNEL_TABLES + BOOT_FRAMES <= DIRECT_FRAMES && k < CLASSES
    requires Ready(BootView(kdir)) && EnabledRun(BootView(kdir), ops)
    ensures var v := Run(BootView(kdir), ops);
            && |v.doms| == CLASSES
            && v.doms[k].carved == Max(PREMAP, CeilDiv(PeakOver(BootView(kdir), ops, k), BlocksPerPage(k)))
  {
    hide Ready, EnabledRun, Run, PeakOver, BootView, BlocksPerPage, CeilDiv;
    BootState(kdir);
    PeakOfRun(BootView(kdir), ops, k);
    HighWaterFootprint(Run(BootView(kdir), ops), k);
  }

  // ---------------------------------------------------------------------------------------
  // Address space of the large region
  // ---------------------------------------------------------------------------------------

  /** Sum of the page counts of all free slots. */
  function SlotPages(s: seq<Slot>): nat {
    if s == [] then 0 else s[0].count + SlotPages(s[1..])
  }

  /** Pages of address space below the cursor that neither a live region nor a free slot covers. */
  ghost function Uncovered(b: Big): int {
    b.cursor - LARGE_PAGE - Total(b.live) - SlotPages(b.slots)
  }

  /** Pages a call drops for good: what a reused slot has more than the request needs. */
  function Leftover(v: View, op: Op): nat {
    if op.Malloc? && op.size > 4096 && Reuses(v.big, PagesFor(op.size))
    then v.big.slots[0].count - PagesFor(op.size) else 0
  }

  lemma TakeSpace(b: Big, n: nat)
    requires BigOk(b) && CanTake(b, n)
    ensures Uncovered(BigTake(b, n)) == Uncovered(b) + if Reuses(b, n) then b.slots[0].count - n else 0
  {
    hide BigOk, CanTake, Total;
    TakeTotal(b, n);
  }

  lemma ReleaseSpace(b: Big, start: nat)
    requires start in b.live
    ensures Uncovered(BigRelease(b, start)) == Uncovered(b)
  {
    hide Total;
    TotalRemove(b.live, start);
    assert BigRelease(b, start).slots[1..] == b.slots;
  }

  /** A call loses address space only by reusing a slot that is larger than the request, and then exactly the rest. */
  lemma StepSpace(v: View, op: Op)
    requires |v.doms| == CLASSES && |v.mmu.dirs| > 8 && Ready(v) && Enabled(v, op)
    ensures Uncovered(Step(v, op).big) == Uncovered(v.big) + Leftover(v, op)
  {
    hide Ready, Inv, Uncovered, BigTake, BigRelease, AddPages, Cleared, DropPages, Forget, LiveWord, CanCarve,
         AddPage, PageBlocks,
         PagesFor, BigOk, CanTake, InDirect;
    ReadyFacts(v);
    InvBig(v);
    match op
    case Malloc(size) =>
      if size > 4096 { TakeSpace(v.big, PagesFor(size)); }
    case Free(ptr) =>
      if RouteOf(ptr) == Some(CLASSES) { ReleaseSpace(v.big, ptr / 4096); }
    case Write(va, w) =>
    case Spawn =>
  }

  ghost function LostOver(v: View, ops: seq<Op>): nat
    requires Ready(v) && EnabledRun(v, ops)
    decreases |ops|
  {
    if ops == [] then 0
    else
      StepReady(v, ops[0]);
      Leftover(v, ops[0]) + LostOver(Step(v, ops[0]), ops[1..])
  }

  lemma {:induction false} SpaceOfRun(v: View, ops: seq<Op>)
    requires Ready(v) && EnabledRun(v, ops)
    ensures Uncovered(Run(v, ops).big) == Uncovered(v.big) + LostOver(v, ops)
    decreases |ops|
  {
    hide Ready, Enabled, Step, Uncovered, Leftover;
    if ops != [] {
      StepShape(v, ops[0]);
      StepSpace(v, ops[0]);
      SpaceOfRun(Step(v, ops[0]), ops[1..]);
    }
  }

  /**
   * Conservation: in every run from boot the address space handed to the large region is what live
   * regions and free slots cover, plus the leftovers of every reuse so far. None of it comes back.
   */
  lemma RunSpace(kdir: nat, ops: seq<Op>)
    requires kdir + KERNEL_TABLES + BOOT_FRAMES <= DIRECT_FRAMES
    requires Ready(BootView(kdir)) && EnabledRun(BootView(kdir), ops)
    ensures var b := Run(BootView(kdir), ops).big;
            b.cursor - LARGE_PAGE == Total(b.live) + SlotPages(b.slots) + LostOver(BootView(kdir), ops)
  {
    hide Ready, EnabledRun, Run, LostOver, BootView;
    BootState(kdir);
    SpaceOfRun(BootView(kdir), ops);
  }

  // ---------------------------------------------------------------------------------------
  // Frames cleared
  // ---------------------------------------------------------------------------------------

  /** Frames a call clears: all but one of a freed region, the kept one of a reused slot. */
  function Clears(v: View, op: Op): nat {
    match op
    case Malloc(size) => if size > 4096 && Reuses(v.big, PagesFor(size)) then 1 else 0
    case Free(ptr) =>
      if RouteOf(ptr) == Some(CLASSES) && ptr / 4096 in v.big.live && v.big.live[ptr / 4096] >= 1
      then v.big.live[ptr / 4096] - 1 else 0
    case Write(_, _) => 0
    case Spawn => 0
  }

  lemma TakeClears(v: View, n: nat)
    requires Inv(v) && CanBig(v, n)
    ensures |v.mmu.dirs| > 0
    ensures BigAlloc(v, n).mmu.cleared == v.mmu.cleared + if Reuses(v.big, n) then 1 else 0
  {
    hide Inv, KeepsPages, PageMapped, Good, AddableRun, AddPages, Cleared, BigStart, BigTake, CanTake, InDirect;
    ClearedEffect(v, n);
    BigRun(v, n);
    AddPagesEffect(Cleared(v.mmu, v.big, n), BigStart(v.big, n), n);
  }

  lemma ReleaseClears(v: View, start: nat)
    requires Inv(v) && start in v.big.live && v.big.live[start] >= 1
    ensures BigFree(v, start).mmu.cleared == v.mmu.cleared + v.big.live[start] - 1
  {
    hide DomsOk, DirsOk, TablesOk, CountsOk, DataOk, PagesOk, KeepsPages, PageMapped, Good, DropPages, BigRelease,
         BigOk;
    RegionPages(v, start);
    DropPagesEffect(v.mmu, start + 1, v.big.live[start] - 1);
  }

  lemma AllocClears(v: View, k: nat)
    requires |v.doms| == CLASSES && |v.mmu.dirs| > 0 && k < CLASSES
    ensures DomAlloc(v, k).mmu.cleared == v.mmu.cleared
  {
    hide AddPage, PageBlocks;
    var p := BasePage(k) + v.doms[k].carved;
    assert HEAP_PAGE <= p;
    AddPageEntries(v.mmu, p);
  }

  lemma StepClears(v: View, op: Op)
    requires |v.doms| == CLASSES && |v.mmu.dirs| > 8 && Ready(v) && Enabled(v, op)
    ensures Step(v, op).mmu.cleared == v.mmu.cleared + Clears(v, op)
  {
    hide Ready, Inv, DomAlloc, BigAlloc, BigFree, LiveWord, CanCarve, CanBig, PagesFor, NextFrame, ClassOf;
    ReadyFacts(v);
    match op
    case Malloc(size) =>
      if size <= 4096 { AllocClears(v, ClassOf(size)); } else { TakeClears(v, PagesFor(size)); }
    case Free(ptr) =>
      if RouteOf(ptr) == Some(CLASSES) {
        RegionCounted(v, ptr / 4096);
        ReleaseClears(v, ptr / 4096);
      }
    case Write(va, w) =>
    case Spawn =>
  }

  lemma RegionCounted(v: View, start: nat)
    requires Inv(v) && start in v.big.live
    ensures v.big.live[start] >= 1
  {
    hide Inv, Disjoint;
    InvBig(v);
  }

  ghost function ClearedOver(v: View, ops: seq<Op>): nat
    requires Ready(v) && EnabledRun(v, ops)
    decreases |ops|
  {
    if ops == [] then 0
    else
      StepReady(v, ops[0]);
      Clears(v, ops[0]) + ClearedOver(Step(v, ops[0]), ops[1..])
  }

  /** The counter of cleared frames counts exactly what the calls of the run have cleared. */
  lemma {:induction false} ClearedOfRun(v: View, ops: seq<Op>)
    requires Ready(v) && EnabledRun(v, ops)
    ensures Run(v, ops).mmu.cleared == v.mmu.cleared + ClearedOver(v, ops)
    decreases |ops|
  {
    hide Ready, Enabled, Step, Clears;
    if ops != [] {
      StepShape(v, ops[0]);
      StepClears(v, ops[0]);
      ClearedOfRun(Step(v, ops[0]), ops[1..]);
    }
  }

  // ---------------------------------------------------------------------------------------
  // Processes
  // ---------------------------------------------------------------------------------------

  /** A run with processes in it: what clients and create_process do, the kernel stacks marked. */
  datatype Act = Client(op: Op) | KernelStack

  const STACK_SIZE: nat := 4096

  /** The class kernel stacks come from. */
  const STACK_CLASS: nat := 6

  /** Every call is one the code can carry out, and nobody frees a kernel stack, as in the source. */
  ghost predicate Legal(v: View, acts: seq<Act>, stacks: set<nat>)
    requires Ready(v)
    decreases |acts|
  {
    if acts == [] then true
    else
      match acts[0]
      case Client(op) =>
        && Enabled(v, op) && (op.Free? ==> op.ptr !in stacks)
        && (StepReady(v, op); Legal(Step(v, op), acts[1..], stacks))
      case KernelStack =>
        && Enabled(v, Malloc(STACK_SIZE))
        && (StepReady(v, Malloc(STACK_SIZE));
            Legal(Step(v, Malloc(STACK_SIZE)), acts[1..], stacks + {MallocPointer(v, STACK_SIZE)}))
  }

  function Created(acts: seq<Act>): nat {
    if acts == [] then 0 else Created(acts[1..]) + if acts[0].KernelStack? then 1 else 0
  }

  lemma StacksStay(v: View, op: Op, stacks: set<nat>)
    requires |v.doms| == CLASSES && |v.mmu.dirs| > 8 && Ready(v) && Enabled(v, op)
    requires stacks <= v.doms[STACK_CLASS].live && (op.Free? ==> op.ptr !in stacks)
    ensures |Step(v, op).doms| == CLASSES && stacks <= Step(v, op).doms[STACK_CLASS].live
  {
    hide Ready, Inv, AddPages, Cleared, BigTake, DropPages, BigRelease, LiveWord, CanCarve, CanBig, PagesFor, NextFrame,
         AddPage, PageBlocks;
  }

  lemma NewStack(v: View)
    requires |v.doms| == CLASSES && |v.mmu.dirs| > 8 && Ready(v) && Enabled(v, Malloc(STACK_SIZE))
    ensures var p := MallocPointer(v, STACK_SIZE); var v' := Step(v, Malloc(STACK_SIZE));
            && |v'.doms| == CLASSES && p !in v.doms[STACK_CLASS].live
            && v'.doms[STACK_CLASS].live == v.doms[STACK_CLASS].live + {p}
  {
    hide Ready, Inv, CanCarve, DomAlloc, DomPointer;
    ReadyFacts(v);
    DomPointerFresh(v, STACK_CLASS);
    DomAllocShape(v, STACK_CLASS);
  }

  /** Kernel stacks are never freed, so there are at most 65536 of them in any legal run. */
  lemma {:induction false} StacksFit(v: View, acts: seq<Act>, stacks: set<nat>)
    requires Ready(v) && Legal(v, acts, stacks) && |v.doms| == CLASSES && stacks <= v.doms[STACK_CLASS].live
    ensures |stacks| + Created(acts) <= BAND_PAGES
    decreases |acts|
  {
    hide Ready, Enabled, Step, MallocPointer;
    if acts == [] {
      StacksNow(v, stacks);
    } else {
      match acts[0]
      case Client(op) =>
        StepShape(v, op);
        StacksStay(v, op, stacks);
        StacksFit(Step(v, op), acts[1..], stacks);
      case KernelStack =>
        StepShape(v, Malloc(STACK_SIZE));
        NewStack(v);
        var p := MallocPointer(v, STACK_SIZE);
        assert p !in stacks && |stacks + {p}| == |stacks| + 1;
        StacksFit(Step(v, Malloc(STACK_SIZE)), acts[1..], stacks + {p});
    }
  }

  lemma StacksNow(v: View, stacks: set<nat>)
    requires Ready(v) && |v.doms| == CLASSES && stacks <= v.doms[STACK_CLASS].live
    ensures |stacks| <= BAND_PAGES
    ensures |v.mmu.dirs| > 0 && (|stacks| == BAND_PAGES ==> !Enabled(v, Malloc(STACK_SIZE)))
  {
    hide Ready, Inv, Enabled;
    ReadyFacts(v);
    FullClass(v, STACK_SIZE);
    SubsetSize(stacks, v.doms[STACK_CLASS].live);
  }

  /** No legal run from boot creates more than 65536 processes: each needs a kernel stack. */
  lemma ProcessLimit(kdir: nat, acts: seq<Act>)
    requires kdir + KERNEL_TABLES + BOOT_FRAMES <= DIRECT_FRAMES
    requires Ready(BootView(kdir)) && Legal(BootView(kdir), acts, {})
    ensures Created(acts) <= 65536
  {
    hide Ready, Legal, BootView, Created;
    ReadyFacts(BootView(kdir));
    StacksFit(BootView(kdir), acts, {});
  }
}
