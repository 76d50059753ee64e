/** The window at 0xE000. Without a region mapped over it, a page there behaves like any private page; mapped, a
    region is one byte array that every process with it mapped reads and writes. */
module SharedPages {
  import opened Basics
  import opened Lru
  import opened Memory
  import opened Paging
  import opened FrameInvariant
  import opened PagingRuns
  import opened FlatMemory
  import opened DiskRoundTrip
  import opened OwnerMap

  // ---- One page of one process, in the window or not ---------------------------------------------------------------

  /** Taking a frame here evicts page q of process j, which is clean and not zero. */
  ghost predicate TakesClean(vm: Vm, j: nat, q: nat)
    requires Shape(vm) && CanTake(vm)
  {
    j < |vm.pids| && !HasFree(vm.mem) && Holds(vm, TakenFrame(vm), j, q) && !DirtyOrZero(vm, j, q)
  }

  ghost predicate GrabsTakeClean(vm: Vm, i: nat, start: nat, n: nat, j: nat, q: nat)
    requires Shape(vm) && i < |vm.pids| && start + n <= |vm.mem.tables[i]| && CanTake(vm)
  {
    n > 0 && (GrabsTakeClean(vm, i, start, n - 1, j, q) || TakesClean(GrabRange(vm, i, start, n - 1), j, q))
  }

  /** Some eviction of the operation does. */
  ghost predicate OpTakesClean(vm: Vm, op: Op, j: nat, q: nat)
    requires Shape(vm)
  {
    Enabled(vm, op) &&
    match op
    case PageFault(_, _) => TakesClean(vm, j, q)
    case AllocHeap(i, bytes) =>
      var (vm1, start, n) := AllocPlan(vm, i, bytes);
      i < |vm1.pids| && start + n <= |vm1.mem.tables[i]| && CanTake(vm1) && GrabsTakeClean(vm1, i, start, n, j, q)
    case _ => false
  }

  /** The operation maps a region over that page. */
  predicate MapsOver(op: Op, j: nat, q: nat) {
    op.MapRegion? && op.proc == j && SHARED_PAGE + op.region == q
  }

  lemma {:induction false} GrabRangePage(vm: Vm, i: nat, start: nat, n: nat, j: nat, q: nat)
    requires Inv(vm) && i < |vm.pids| && start + n <= |vm.mem.tables[i]| && CanTake(vm) && RunFree(vm, i, start, n)
    requires j < |vm.pids| && Own(vm, j, q)
    ensures var r, lost := GrabRange(vm, i, start, n), GrabsTakeClean(vm, i, start, n, j, q);
      && Own(r, j, q)
      && (!lost ==> View(r, j, q) == View(vm, j, q))
      && (lost ==> View(r, j, q) == ZeroPage() != View(vm, j, q))
  {
    hide Inv, Grab, View, CanTake, PageFree, RunFree, Own;
    InvShape(vm);
    if n > 0 {
      GrabNext(vm, i, start, n);
      GrabRangePage(vm, i, start, n - 1, j, q);
      GrabView(GrabRange(vm, i, start, n - 1), i, start + n - 1, j, q);
      GrabOwn(GrabRange(vm, i, start, n - 1), i, start + n - 1, j, q);
    }
  }

  lemma AllocPage(vm: Vm, i: nat, bytes: int, j: nat, q: nat)
    requires Inv(vm) && i < |vm.pids| && Live(vm, i) && CanTake(vm) && j < |vm.pids| && Own(vm, j, q)
    ensures Own(Alloc(vm, i, bytes).0, j, q)
    ensures View(Alloc(vm, i, bytes).0, j, q) == View(vm, j, q) <==> !OpTakesClean(vm, AllocHeap(i, bytes), j, q)
  {
    hide Inv, Alloc, GrabRange, CanTake, GrowTable, RunFree, FirstFit, View, GrabsTakeClean;
    InvShape(vm);
    AllocForm(vm, i, bytes);
    var (vm1, start, n) := AllocPlan(vm, i, bytes);
    GrowView(vm, i, HEAP_LAST + 1, j, q);
    GrabRangePage(vm1, i, start, n, j, q);
    SameButHeaps(GrabRange(vm1, i, start, n), Alloc(vm, i, bytes).0, j, q);
  }

  lemma SameButHeaps(vm: Vm, r: Vm, j: nat, q: nat)
    requires Shape(vm) && Shape(r) && r == vm.(heaps := r.heaps)
    ensures View(r, j, q) == View(vm, j, q) && Own(r, j, q) == Own(vm, j, q)
  {}

  /** Heap pages alone are released. */
  lemma {:induction false} ReleaseRangeOwn(vm: Vm, i: nat, start: nat, n: nat, j: nat, q: nat)
    requires Inv(vm) && i < |vm.pids| && start + n <= HEAP_LAST + 1 && Own(vm, j, q)
    ensures Own(ReleaseRange(vm, i, start, n), j, q)
  {
    hide Inv;
    InvShape(vm);
    if n > 0 {
      ReleaseRangeOwn(vm, i, start, n - 1, j, q);
    }
  }

  lemma FreeOwn(vm: Vm, i: nat, addr: nat, j: nat, q: nat)
    requires Inv(vm) && i < |vm.pids| && Own(vm, j, q)
    ensures Own(Free(vm, i, addr), j, q)
  {
    if addr in vm.heaps[i] {
      assert HeapOk(vm.heaps[i]);
      ReleaseRangeOwn(vm, i, addr / PAGE_SIZE, vm.heaps[i][addr], j, q);
    }
  }

  lemma OtherOwn(vm: Vm, i: nat, codeSize: nat, va: Word, j: nat, q: nat)
    requires Shape(vm) && i < |vm.pids| && Own(vm, j, q)
    ensures Own(vm.(mem := ReadByte(vm.mem, i, codeSize, va).mem), j, q)
    ensures Own(Cleanup(vm, i), j, q)
  {}

  /** Whatever the operation, the page reads afterwards as in flat memory iff it was not evicted clean and not zero. */
  lemma StepPage(vm: Vm, op: Op, j: nat, q: nat)
    requires Inv(vm) && Roomy(vm) && Shape(vm) && Own(vm, j, q) && !MapsOver(op, j, q)
    ensures Own(Step(vm, op), j, q)
    ensures View(Step(vm, op), j, q) == FlatStep(vm, op, j, q, View(vm, j, q)) <==> !OpTakesClean(vm, op, j, q)
  {
    hide Inv, View, PageIn, Alloc, Free, MapShared, Cleanup, Create, ReadByte, WriteByte, Roomy, Own, GrabsTakeClean;
    if Enabled(vm, op) {
      if op.Spawn? {
        CreateView(vm, op.code, j, q);
      } else if j >= |vm.pids| {
        NobodysPage(vm, op, j, q);
      } else {
        match op
        case Read(i, va) => ReadView(vm, i, vm.sizes[i], va, j, q); OtherOwn(vm, i, vm.sizes[i], va, j, q);
        case Write(i, va, b) => WriteView(vm, i, vm.sizes[i], va, b, j, q); WriteOwn(vm, i, vm.sizes[i], va, b, j, q);
        case PageFault(i, vp) => PageInView(vm, i, vp, j, q); PageInOwn(vm, i, vp, j, q);
        case AllocHeap(i, bytes) => AllocPage(vm, i, bytes, j, q);
        case FreeHeap(i, addr) => FreeView(vm, i, addr, j, q); FreeOwn(vm, i, addr, j, q);
        case MapRegion(i, r) => MapSharedView(vm, i, r, j, q);
        case Exit(i) => CleanupView(vm, i, j, q); OtherOwn(vm, i, 0, 0, j, q);
      }
    }
  }

  lemma NobodysPage(vm: Vm, op: Op, j: nat, q: nat)
    requires Inv(vm) && Shape(vm) && j >= |vm.pids| && !op.Spawn? && Enabled(vm, op)
    ensures Own(Step(vm, op), j, q)
    ensures View(Step(vm, op), j, q) == FlatStep(vm, op, j, q, View(vm, j, q)) && !OpTakesClean(vm, op, j, q)
  {
    hide Inv, PageIn, Alloc, Free, MapShared, Cleanup, ReadByte, WriteByte, GrabsTakeClean;
    StepKeepsPids(vm, op);
    NoProcessView(vm, j, q);
    NoProcessView(Step(vm, op), j, q);
    NoProcessOwn(Step(vm, op), j, q);
    if op.AllocHeap? {
      AllocForm(vm, op.proc, op.bytes);
      var (vm1, start, n) := AllocPlan(vm, op.proc, op.bytes);
      NobodyTaken(vm1, op.proc, start, n, j, q);
    }
  }

  lemma {:induction false} NobodyTaken(vm: Vm, i: nat, start: nat, n: nat, j: nat, q: nat)
    requires Shape(vm) && i < |vm.pids| && start + n <= |vm.mem.tables[i]| && CanTake(vm) && j >= |vm.pids|
    ensures !GrabsTakeClean(vm, i, start, n, j, q)
  {
    if n > 0 { NobodyTaken(vm, i, start, n - 1, j, q); }
  }

  // ---- ... over every run ------------------------------------------------------------------------------------------

  predicate NeverMapped(ops: seq<Op>, j: nat, q: nat) {
    forall k | 0 <= k < |ops| :: !MapsOver(ops[k], j, q)
  }

  ghost predicate NeverTakenClean(vm: Vm, ops: seq<Op>, j: nat, q: nat)
    requires Shape(vm)
  {
    ops == [] || (NeverTakenClean(vm, ops[..|ops| - 1], j, q) && !OpTakesClean(Run(vm, ops[..|ops| - 1]), ops[|ops| - 1], j, q))
  }

  /** The page reads as in flat memory after every operation of the run. */
  ghost predicate PageFlat(vm: Vm, ops: seq<Op>, j: nat, q: nat)
    requires Shape(vm)
  {
    View(Run(vm, ops), j, q) == FlatRun(vm, ops, j, q) && (ops == [] || PageFlat(vm, ops[..|ops| - 1], j, q))
  }

  /** A page of a process, also one in the window at 0xE000 that the process maps no region over, is flat throughout a
      run iff it is never evicted clean and not zero. */
  lemma {:induction false} PageFlatIff(numFrames: nat, ops: seq<Op>, j: nat, q: nat)
    requires NUM_SHARED <= numFrames <= MAX_FRAMES && NeverMapped(ops, j, q)
    ensures Own(Run(Boot(numFrames), ops), j, q)
    ensures PageFlat(Boot(numFrames), ops, j, q) <==> NeverTakenClean(Boot(numFrames), ops, j, q)
  {
    var vm0 := Boot(numFrames);
    if ops != [] {
      var before, op := ops[..|ops| - 1], ops[|ops| - 1];
      PageFlatIff(numFrames, before, j, q);
      EveryRunKeepsInv(numFrames, before);
      hide Inv, View, Step, FlatStep, OpTakesClean, Own, Roomy, Boot;
      StepPage(Run(vm0, before), op, j, q);
    }
  }

  // ---- A mapped region ---------------------------------------------------------------------------------------------

  /** Process i has region r mapped. */
  predicate Attached(vm: Vm, i: nat, r: nat)
    requires Shape(vm) && r < NUM_SHARED
  {
    var e := Entry(vm.mem, i, SHARED_PAGE + r);
    i < |vm.pids| && e.isValid && e.physPage == vm.shared[r]
  }

  /** What an operation does to the bytes of a region: a write at it by any process that has it mapped stores its byte, and
      nothing else has any effect. */
  function RegionStep(vm: Vm, op: Op, r: nat, page: Page): Page
    requires Shape(vm) && r < NUM_SHARED
  {
    if op.Write? && Enabled(vm, op) && Attached(vm, op.proc, r) && op.vaddr / PAGE_SIZE == SHARED_PAGE + r
    then page[op.vaddr % PAGE_SIZE := op.val] else page
  }

  function RegionRun(vm: Vm, ops: seq<Op>, r: nat): Page
    requires Shape(vm) && r < NUM_SHARED
  {
    if ops == [] then ZeroPage()
    else
      var before := ops[..|ops| - 1];
      RegionStep(Run(vm, before), ops[|ops| - 1], r, RegionRun(vm, before, r))
  }

  /** The shared frames and their bytes are as before. */
  ghost predicate SharedKept(vm: Vm, r: Vm) {
    && r.shared == vm.shared
    && forall f | f in vm.shared :: f < |vm.mem.frames| && f < |r.mem.frames| && r.mem.frames[f] == vm.mem.frames[f]
  }

  lemma KeptOn(vm: Vm, v: Vm, r: Vm)
    requires SharedKept(vm, v) && SharedKept(v, r)
    ensures SharedKept(vm, r)
  {}

  lemma Unchanged(vm: Vm)
    requires Inv(vm)
    ensures SharedKept(vm, vm)
  {}

  lemma TakeFrameShared(vm: Vm)
    requires Inv(vm) && CanTake(vm)
    ensures SharedKept(vm, TakeFrame(vm))
  {
    if !HasFree(vm.mem) {
      hide Evict, Victim;
      var p, k := EvictEffect(vm);
    }
  }

  lemma PageInShared(vm: Vm, i: nat, vp: nat)
    requires Inv(vm) && i < |vm.pids| && Live(vm, i) && CanTake(vm) && !Entry(vm.mem, i, vp).isValid
    ensures SharedKept(vm, PageIn(vm, i, vp))
  {
    hide Inv, TakeFrame, CanTake, PageIn, View;
    InvShape(vm);
    GrowInv(vm, i, vp + 1);
    var vm1 := vm.(mem := GrowTable(vm.mem, i, vp + 1));
    TakeFrameShared(vm1);
    PageInForm(vm, i, vp);
  }

  lemma GrabShared(vm: Vm, i: nat, vp: nat)
    requires Inv(vm) && i < |vm.pids| && vp < |vm.mem.tables[i]| && CanTake(vm) && PageFree(vm, i, vp)
    ensures SharedKept(vm, Grab(vm, i, vp))
  {
    GrabIsPageIn(vm, i, vp);
    PageInShared(vm, i, vp);
  }

  lemma {:induction false} GrabRangeShared(vm: Vm, i: nat, start: nat, n: nat)
    requires Inv(vm) && i < |vm.pids| && start + n <= |vm.mem.tables[i]| && CanTake(vm) && RunFree(vm, i, start, n)
    ensures SharedKept(vm, GrabRange(vm, i, start, n))
  {
    hide Inv, Grab, CanTake, PageFree, RunFree, SharedKept;
    InvShape(vm);
    Unchanged(vm);
    if n > 0 {
      GrabNext(vm, i, start, n);
      GrabRangeShared(vm, i, start, n - 1);
      var v := GrabRange(vm, i, start, n - 1);
      GrabShared(v, i, start + n - 1);
      KeptOn(vm, v, GrabRange(vm, i, start, n));
    }
  }

  lemma AllocShared(vm: Vm, i: nat, bytes: int)
    requires Inv(vm) && i < |vm.pids| && Live(vm, i) && CanTake(vm)
    ensures SharedKept(vm, Alloc(vm, i, bytes).0)
  {
    hide Inv, Alloc, GrabRange, CanTake, RunFree, FirstFit;
    InvShape(vm);
    AllocForm(vm, i, bytes);
    var (vm1, start, n) := AllocPlan(vm, i, bytes);
    GrabRangeShared(vm1, i, start, n);
  }

  lemma {:induction false} ReleaseRangeShared(vm: Vm, i: nat, start: nat, n: nat)
    requires Inv(vm) && i < |vm.pids|
    ensures SharedKept(vm, ReleaseRange(vm, i, start, n))
  {
    if n > 0 {
      ReleaseRangeShared(vm, i, start, n - 1);
    }
  }

  lemma {:induction false} LoadPagesShared(vm: Vm, i: nat, vp: nat, n: nat)
    requires Inv(vm) && i < |vm.pids| && vp + n <= |vm.mem.tables[i]| && (forall x: nat :: PageFree(vm, i, x))
    ensures SharedKept(vm, LoadPages(vm, i, vp, n).0)
  {
    if n > 0 {
      LoadPagesInv(vm, i, vp, n - 1);
      LoadPagesShared(vm, i, vp, n - 1);
      hide TablesInv, RecordsInv, LoadPages;
      LoadOne(vm, i, vp, n);
    }
  }

  lemma LoadOne(vm: Vm, i: nat, vp: nat, n: nat)
    requires Shape(vm) && i < |vm.pids| && vp + n <= |vm.mem.tables[i]| && n > 0
    requires var v := LoadPages(vm, i, vp, n - 1).0; SharedInUse(v) && SharedKept(vm, v)
    ensures SharedKept(vm, LoadPages(vm, i, vp, n).0)
  {}

  lemma WriteShared(vm: Vm, i: nat, codeSize: nat, va: Word, b: Byte)
    requires Inv(vm) && i < |vm.pids| && Own(vm, i, va / PAGE_SIZE)
    ensures SharedKept(vm, vm.(mem := WriteByte(vm.mem, i, codeSize, va, b).mem))
  {
    WriteEffect(vm.mem, i, codeSize, va, b);
    hide WriteByte;
    assert Backed(vm, i, va / PAGE_SIZE);
  }

  ghost predicate AllOwn(vm: Vm, i: nat) {
    forall q: nat :: Own(vm, i, q)
  }

  lemma WriteKeepsOwn(vm: Vm, i: nat, codeSize: nat, va: Word, b: Byte)
    requires Inv(vm) && Shape(vm) && i < |vm.pids| && AllOwn(vm, i)
    ensures var r := vm.(mem := WriteByte(vm.mem, i, codeSize, va, b).mem); AllOwn(r, i) && SharedKept(vm, r)
  {
    hide Inv, WriteByte, Own, SharedKept;
    assert Own(vm, i, va / PAGE_SIZE);
    WriteShared(vm, i, codeSize, va, b);
    var r := vm.(mem := WriteByte(vm.mem, i, codeSize, va, b).mem);
    forall q: nat ensures Own(r, i, q) { WriteOwn(vm, i, codeSize, va, b, i, q); }
  }

  lemma {:induction false} WriteCodeShared(vm: Vm, i: nat, code: seq<Byte>, n: nat)
    requires Inv(vm) && i < |vm.pids| && n <= |code| <= 0xE000 && AllOwn(vm, i)
    ensures var r := vm.(mem := WriteCode(vm.mem, i, |code|, code, n).mem); AllOwn(r, i) && SharedKept(vm, r)
  {
    hide Inv, WriteByte, AllOwn, SharedKept;
    InvShape(vm);
    if n == 0 {
      assert vm.(mem := vm.mem) == vm;
      Unchanged(vm);
    } else {
      WriteCodeShared(vm, i, code, n - 1);
      WriteCodeInv(vm, i, code, n - 1);
      var v := vm.(mem := WriteCode(vm.mem, i, |code|, code, n - 1).mem);
      var va: Word := CODE_BASE + n - 1;
      WriteKeepsOwn(v, i, |code|, va, code[n - 1]);
      KeptOn(vm, v, v.(mem := WriteByte(v.mem, i, |code|, va, code[n - 1]).mem));
    }
  }

  lemma CreateShared(vm: Vm, code: seq<Byte>)
    requires Inv(vm) && |code| <= 0xE000
    ensures SharedKept(vm, Create(vm, code).0)
  {
    hide Inv, LoadPages, WriteCode, PageFree, Own;
    InvShape(vm);
    Unchanged(vm);
    var i, vm1 := |vm.pids|, AddProcess(vm, |code|);
    AddProcessInv(vm, |code|);
    if |code| != 0 {
      var n := (CODE_BASE + |code| - 1) / PAGE_SIZE - CODE_PAGE + 1;
      LoadPagesInv(vm1, i, CODE_PAGE, n);
      LoadPagesEffect(vm1, i, CODE_PAGE, n);
      LoadPagesShared(vm1, i, CODE_PAGE, n);
      var (vm2, ok) := LoadPages(vm1, i, CODE_PAGE, n);
      if ok {
        ValidInRange(vm2, i);
        WriteCodeEffect(vm2.mem, i, code, |code|);
        forall q: nat ensures Own(vm2, i, q) {
          NoProcessOwn(vm, i, q);
          NewProcessView(vm, |code|, i, q);
          LoadPagesView(vm1, i, CODE_PAGE, n, i, q);
        }
        WriteCodeShared(vm2, i, code, |code|);
      }
    }
  }

  lemma FreeShared(vm: Vm, i: nat, addr: nat)
    requires Inv(vm) && i < |vm.pids|
    ensures SharedKept(vm, Free(vm, i, addr))
  {
    hide ReleaseRange;
    if addr in vm.heaps[i] {
      ReleaseRangeShared(vm, i, addr / PAGE_SIZE, vm.heaps[i][addr]);
    }
  }

  lemma OtherShared(vm: Vm, i: nat, codeSize: nat, va: Word)
    requires Inv(vm) && i < |vm.pids|
    ensures SharedKept(vm, vm.(mem := ReadByte(vm.mem, i, codeSize, va).mem)) && SharedKept(vm, Cleanup(vm, i))
    ensures forall r: nat | r < |vm.shared| :: SharedKept(vm, MapShared(vm, i, r))
  {}

  /** A byte write lands in a shared frame iff it is at that region and its process has the region mapped. */
  lemma WriteRegion(vm: Vm, i: nat, codeSize: nat, va: Word, b: Byte, r: nat)
    requires Inv(vm) && Shape(vm) && i < |vm.pids| && r < NUM_SHARED
    ensures vm.shared[r] < |vm.mem.frames|
    ensures var w, f := WriteByte(vm.mem, i, codeSize, va, b).mem, vm.shared[r];
      w.frames[f] == if Attached(vm, i, r) && va / PAGE_SIZE == SHARED_PAGE + r
                     then vm.mem.frames[f][va % PAGE_SIZE := b] else vm.mem.frames[f]
  {
    WriteEffect(vm.mem, i, codeSize, va, b);
    WriteByteEntries(vm.mem, i, codeSize, va, b);
    hide WriteByte;
    assert vm.shared[r] in vm.shared;
    assert Backed(vm, i, va / PAGE_SIZE);
  }

  lemma StepRegion(vm: Vm, op: Op, r: nat)
    requires Inv(vm) && Roomy(vm) && Shape(vm) && r < NUM_SHARED
    ensures Step(vm, op).shared == vm.shared && vm.shared[r] < |vm.mem.frames| && vm.shared[r] < |Step(vm, op).mem.frames|
    ensures Step(vm, op).mem.frames[vm.shared[r]] == RegionStep(vm, op, r, vm.mem.frames[vm.shared[r]])
  {
    hide Inv, PageIn, Alloc, Free, MapShared, Cleanup, Create, ReadByte, WriteByte, Roomy, Attached;
    Unchanged(vm);
    assert vm.shared[r] in vm.shared;
    if Enabled(vm, op) {
      match op
      case Read(i, va) => OtherShared(vm, i, vm.sizes[i], va);
      case Write(i, va, b) => WriteRegion(vm, i, vm.sizes[i], va, b, r);
      case PageFault(i, vp) => PageInShared(vm, i, vp);
      case AllocHeap(i, bytes) => AllocShared(vm, i, bytes);
      case FreeHeap(i, addr) => FreeShared(vm, i, addr);
      case MapRegion(i, g) => OtherShared(vm, i, 0, 0);
      case Exit(i) => OtherShared(vm, i, 0, 0);
      case Spawn(code) => CreateShared(vm, code);
    }
  }

  /** The entry of a page of process i is as it was, but perhaps for its dirty bit. */
  predicate SameFrame(vm: Vm, r: Vm, i: nat, q: nat) {
    var e, f := Entry(vm.mem, i, q), Entry(r.mem, i, q);
    e.isValid == f.isValid && e.physPage == f.physPage
  }

  lemma SameFrameAttached(vm: Vm, v: Vm, i: nat, r: nat)
    requires Shape(vm) && Shape(v) && r < NUM_SHARED && SameFrame(vm, v, i, SHARED_PAGE + r) && v.shared == vm.shared
    requires i < |v.pids| <==> i < |vm.pids|
    ensures Attached(v, i, r) <==> Attached(vm, i, r)
  {}

  /** So a byte that one process writes to a region is what any other with the region mapped reads there. */
  lemma WrittenIsRead(vm: Vm, i: nat, j: nat, va: Word, b: Byte, r: nat)
    requires Inv(vm) && Shape(vm) && r < NUM_SHARED && Attached(vm, i, r) && Attached(vm, j, r)
    requires va / PAGE_SIZE == SHARED_PAGE + r
    ensures var w := WriteByte(vm.mem, i, vm.sizes[i], va, b);
      w.Done? && var g := ReadByte(w.mem, j, vm.sizes[j], va); g.Done? && g.val == b
  {
    hide Inv, WriteByte, ReadByte, View, Attached;
    AttachedView(vm, i, r);
    AttachedView(vm, j, r);
    WriteRegion(vm, i, vm.sizes[i], va, b, r);
    WriteInv(vm, i, vm.sizes[i], va, b);
    WriteByteEntries(vm.mem, i, vm.sizes[i], va, b);
    var v := vm.(mem := WriteByte(vm.mem, i, vm.sizes[i], va, b).mem);
    SameFrameAttached(vm, v, j, r);
    AttachedView(v, j, r);
    ReadView(v, j, vm.sizes[j], va, j, SHARED_PAGE + r);
    ReadsDone(v.mem, j, vm.sizes[j], va);
  }

  lemma AttachedView(vm: Vm, i: nat, r: nat)
    requires Inv(vm) && Shape(vm) && r < NUM_SHARED && Attached(vm, i, r)
    ensures i < |vm.pids| && vm.shared[r] < |vm.mem.frames| && View(vm, i, SHARED_PAGE + r) == vm.mem.frames[vm.shared[r]]
    ensures Entry(vm.mem, i, SHARED_PAGE + r).isValid && Entry(vm.mem, i, SHARED_PAGE + r).physPage == vm.shared[r]
  {
    assert vm.shared[r] in vm.shared;
  }

  lemma ReadsDone(m: Mem, j: nat, codeSize: nat, va: Word)
    requires j < |m.tables| && SHARED_BASE <= va < SHARED_BASE + NUM_SHARED * PAGE_SIZE
    requires Entry(m, j, va / PAGE_SIZE).isValid && Entry(m, j, va / PAGE_SIZE).physPage < |m.frames|
    ensures ReadByte(m, j, codeSize, va).Done?
  {}

  lemma BootIsZero(n: nat)
    requires NUM_SHARED <= n <= MAX_FRAMES
    ensures var vm := Boot(n);
      |vm.mem.frames| == n && (forall f | 0 <= f < n :: vm.mem.frames[f] == ZeroPage()) && forall f | f in vm.shared :: f < n
  {
    BootInv(n);
  }

  /** After any run, whoever has the region mapped sees at it what was last written there by anybody who had it mapped
      then, or zeros; so any two processes that have it mapped see the same. */
  lemma {:induction false} RegionIsOneArray(numFrames: nat, ops: seq<Op>, r: nat)
    requires NUM_SHARED <= numFrames <= MAX_FRAMES && r < NUM_SHARED
    ensures var vm := Run(Boot(numFrames), ops);
      forall i: nat | Attached(vm, i, r) :: View(vm, i, SHARED_PAGE + r) == RegionRun(Boot(numFrames), ops, r)
  {
    EveryRunKeepsInv(numFrames, ops);
    RegionBytes(numFrames, ops, r);
  }

  lemma {:induction false} RegionBytes(numFrames: nat, ops: seq<Op>, r: nat)
    requires NUM_SHARED <= numFrames <= MAX_FRAMES && r < NUM_SHARED
    ensures var vm := Run(Boot(numFrames), ops);
      vm.shared[r] < |vm.mem.frames| && vm.mem.frames[vm.shared[r]] == RegionRun(Boot(numFrames), ops, r)
  {
    var vm0 := Boot(numFrames);
    if ops == [] {
      BootIsZero(numFrames);
      EmptyRun(vm0);
      assert vm0.shared[r] in vm0.shared;
    } else {
      var before, op := ops[..|ops| - 1], ops[|ops| - 1];
      RegionBytes(numFrames, before, r);
      EveryRunKeepsInv(numFrames, before);
      hide Inv, Step, RegionStep, Roomy, Boot;
      StepRegion(Run(vm0, before), op, r);
    }
  }

  // ---- How long a region stays mapped ------------------------------------------------------------------------------

  /** While recorded pages are mapped where they are recorded, no eviction takes a mapped region away. */
  lemma TakeFrameAttached(vm: Vm, i: nat, r: nat)
    requires Inv(vm) && Shape(vm) && CanTake(vm) && OwnersMapped(vm) && r < NUM_SHARED
    ensures Attached(TakeFrame(vm), i, r) <==> Attached(vm, i, r)
  {
    hide Evict, Victim, TablesInv, RecordsInv;
    if !HasFree(vm.mem) && i < |vm.pids| {
      var p, k := EvictEffect(vm);
      assert Mapped(vm, p);
      assert vm.shared[r] in vm.shared;
      assert KeyOf(vm, i, SHARED_PAGE + r) == k ==> Entry(vm.mem, i, SHARED_PAGE + r).physPage == p;
    }
  }

  lemma PageInAttached(vm: Vm, j: nat, vp: nat, i: nat, r: nat)
    requires Inv(vm) && Shape(vm) && j < |vm.pids| && Live(vm, j) && CanTake(vm) && !Entry(vm.mem, j, vp).isValid
    requires OwnersMapped(vm) && r < NUM_SHARED
    ensures Attached(PageIn(vm, j, vp), i, r) <==> Attached(vm, i, r)
  {
    hide Inv, TakeFrame, CanTake, Install, PageIn, GrowTable, View, OwnersMapped;
    GrowInv(vm, j, vp + 1);
    var vm1 := vm.(mem := GrowTable(vm.mem, j, vp + 1));
    GrowsTo(vm, j, vp + 1);
    SameEntries(vm, vm1);
    SameFrameAttached(vm, vm1, i, r);
    TakeFrameAttached(vm1, i, r);
    PageInForm(vm, j, vp);
    var vm2, p := TakeFrame(vm1), TakenFrame(vm1);
    var vm3 := vm2.(disk := vm2.disk - {KeyOf(vm, j, vp)});
    SameFrameAttached(vm2, vm3, i, r);
    InstallAttached(vm3, j, vp, p, View(vm, j, vp), i, r);
  }

  lemma InstallAttached(vm: Vm, j: nat, vp: nat, p: nat, content: Page, i: nat, r: nat)
    requires Shape(vm) && j < |vm.pids| && vp < |vm.mem.tables[j]| && p < |vm.mem.frames| && r < NUM_SHARED
    requires p !in vm.shared && !(i == j && vp == SHARED_PAGE + r && Attached(vm, i, r))
    ensures Attached(Install(vm, j, vp, p, content), i, r) <==> Attached(vm, i, r)
  {
    InstallEntries(vm, j, vp, p, content);
    assert vm.shared[r] in vm.shared;
  }

  lemma {:induction false} GrabRangeAttached(vm: Vm, j: nat, start: nat, n: nat, i: nat, r: nat)
    requires Inv(vm) && Shape(vm) && j < |vm.pids| && start + n <= |vm.mem.tables[j]| && CanTake(vm) && RunFree(vm, j, start, n)
    requires OwnersMapped(vm) && r < NUM_SHARED
    ensures Attached(GrabRange(vm, j, start, n), i, r) <==> Attached(vm, i, r)
  {
    hide Inv, Grab, CanTake, PageFree, RunFree, OwnersMapped, Attached, PageIn;
    if n > 0 {
      GrabNext(vm, j, start, n);
      GrabRangeAttached(vm, j, start, n - 1, i, r);
      GrabRangeMapped(vm, j, start, n - 1);
      var v, q := GrabRange(vm, j, start, n - 1), start + n - 1;
      GrabIsPageIn(v, j, q);
      FreeIsUnmapped(v, j, q);
      PageInAttached(v, j, q, i, r);
    }
  }

  lemma AllocAttached(vm: Vm, j: nat, bytes: int, i: nat, r: nat)
    requires Inv(vm) && Shape(vm) && j < |vm.pids| && Live(vm, j) && CanTake(vm) && OwnersMapped(vm) && r < NUM_SHARED
    ensures Attached(Alloc(vm, j, bytes).0, i, r) <==> Attached(vm, i, r)
  {
    hide Inv, Alloc, GrabRange, CanTake, GrowTable, RunFree, FirstFit, OwnersMapped;
    AllocForm(vm, j, bytes);
    var (vm1, start, n) := AllocPlan(vm, j, bytes);
    GrowInv(vm, j, HEAP_LAST + 1);
    GrowsTo(vm, j, HEAP_LAST + 1);
    SameEntries(vm, vm1);
    SameFrameAttached(vm, vm1, i, r);
    GrabRangeAttached(vm1, j, start, n, i, r);
    GrabRangeShared(vm1, j, start, n);
    SameFrameAttached(GrabRange(vm1, j, start, n), Alloc(vm, j, bytes).0, i, r);
  }

  lemma FreeAttached(vm: Vm, j: nat, addr: nat, i: nat, r: nat)
    requires Inv(vm) && Shape(vm) && j < |vm.pids| && r < NUM_SHARED
    ensures Attached(Free(vm, j, addr), i, r) <==> Attached(vm, i, r)
  {
    FreeShared(vm, j, addr);
    if addr in vm.heaps[j] && i < |vm.pids| {
      assert HeapOk(vm.heaps[j]);
      ReleaseRangeFate(vm, j, addr / PAGE_SIZE, vm.heaps[j][addr], i, SHARED_PAGE + r);
    }
    hide ReleaseRange;
  }

  lemma CreateAttached(vm: Vm, code: seq<Byte>, i: nat, r: nat)
    requires Inv(vm) && Shape(vm) && |code| <= 0xE000 && r < NUM_SHARED
    ensures Attached(Create(vm, code).0, i, r) <==> Attached(vm, i, r)
  {
    hide Inv, Create;
    CreateShared(vm, code);
    if i < |vm.pids| {
      CreateEntries(vm, code, i, SHARED_PAGE + r);
    } else {
      assert vm.shared[r] in vm.shared;
      NoProcessOwn(vm, i, SHARED_PAGE + r);
      CreateView(vm, code, i, SHARED_PAGE + r);
    }
  }

  lemma OtherAttached(vm: Vm, j: nat, va: Word, b: Byte, i: nat, r: nat)
    requires Inv(vm) && Shape(vm) && j < |vm.pids| && r < NUM_SHARED
    ensures Attached(vm.(mem := ReadByte(vm.mem, j, vm.sizes[j], va).mem), i, r) <==> Attached(vm, i, r)
    ensures Attached(vm.(mem := WriteByte(vm.mem, j, vm.sizes[j], va, b).mem), i, r) <==> Attached(vm, i, r)
    ensures Attached(Cleanup(vm, j), i, r) <==> Attached(vm, i, r) && i != j
  {
    WriteEffect(vm.mem, j, vm.sizes[j], va, b);
    hide WriteByte;
  }

  lemma MapAttached(vm: Vm, j: nat, g: nat, i: nat, r: nat)
    requires Inv(vm) && Shape(vm) && j < |vm.pids| && g < NUM_SHARED && r < NUM_SHARED
    ensures Attached(MapShared(vm, j, g), i, r) <==> Attached(vm, i, r) || (i == j && g == r)
  {
    MapSharedEffect(vm, j, g);
    hide MapShared;
  }

  /** What an operation does to a mapping: MapSharedMem makes it, exit ends it, and nothing else touches it. */
  predicate MappedAfter(vm: Vm, op: Op, i: nat, r: nat, before: bool)
    requires Shape(vm) && r < NUM_SHARED
  {
    if !Enabled(vm, op) then before
    else if op == MapRegion(i, r) then true
    else op != Exit(i) && before
  }

  predicate MappedNow(vm: Vm, ops: seq<Op>, i: nat, r: nat)
    requires Shape(vm) && r < NUM_SHARED
  {
    ops != [] && MappedAfter(Run(vm, ops[..|ops| - 1]), ops[|ops| - 1], i, r, MappedNow(vm, ops[..|ops| - 1], i, r))
  }

  lemma StepAttached(vm: Vm, op: Op, i: nat, r: nat)
    requires Inv(vm) && Roomy(vm) && Shape(vm) && OwnersMapped(vm) && r < NUM_SHARED
    ensures Attached(Step(vm, op), i, r) <==> MappedAfter(vm, op, i, r, Attached(vm, i, r))
  {
    hide Inv, PageIn, Alloc, Free, MapShared, Cleanup, Create, ReadByte, WriteByte, Roomy, Attached, OwnersMapped;
    if Enabled(vm, op) {
      match op
      case Read(j, va) => OtherAttached(vm, j, va, 0, i, r);
      case Write(j, va, b) => OtherAttached(vm, j, va, b, i, r);
      case PageFault(j, vp) => PageInAttached(vm, j, vp, i, r);
      case AllocHeap(j, bytes) => AllocAttached(vm, j, bytes, i, r);
      case FreeHeap(j, addr) => FreeAttached(vm, j, addr, i, r);
      case MapRegion(j, g) => MapAttached(vm, j, g, i, r);
      case Exit(j) => OtherAttached(vm, j, 0, 0, i, r);
      case Spawn(code) => CreateAttached(vm, code, i, r);
    }
  }

  /** In a run that maps no region over a page resident in an owned frame, a process has a region mapped from the time it
      maps it until it exits, and at no other time. */
  lemma {:induction false} MappedUntilExit(numFrames: nat, ops: seq<Op>, i: nat, r: nat)
    requires NUM_SHARED <= numFrames <= MAX_FRAMES && NothingStranded(Boot(numFrames), ops) && r < NUM_SHARED
    ensures Attached(Run(Boot(numFrames), ops), i, r) <==> MappedNow(Boot(numFrames), ops, i, r)
  {
    hide Inv, Roomy, Step, Strands, OwnersMapped, MappedAfter;
    var vm0 := Boot(numFrames);
    if ops == [] {
      assert |vm0.pids| == 0;
    } else {
      var before := ops[..|ops| - 1];
      MappedUntilExit(numFrames, before, i, r);
      UnstrandedIsMapped(numFrames, before);
      EveryRunKeepsInv(numFrames, before);
      StepAttached(Run(vm0, before), ops[|ops| - 1], i, r);
    }
  }
}
