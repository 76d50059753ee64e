/** A one-line repair: a page brought back from disk is marked dirty. With it, paged memory refines flat
    memory over every run, with no condition on the victims. */
module RepairedSwapIn {
  import opened Basics
  import opened Lru
  import opened Memory
  import opened Paging
  import opened FrameInvariant
  import opened PagingRuns
  import opened FlatMemory
  import opened HeapAllocator

  function MarkDirty(vm: Vm, i: nat, vp: nat): (r: Vm)
    requires Shape(vm)
    ensures Shape(r)
  {
    if i < |vm.mem.tables| && vp < |vm.mem.tables[i]|
    then vm.(mem := SetEntry(vm.mem, i, vp, vm.mem.tables[i][vp].(isDirty := true))) else vm
  }

  /** handlePageFault_ with isDirty set exactly for pages restored from disk. */
  function PageInDirty(vm: Vm, i: nat, vp: nat): (r: Vm)
    requires Shape(vm) && i < |vm.pids| && CanTake(vm)
    ensures Shape(r)
  {
    if KeyOf(vm, i, vp) in vm.disk then MarkDirty(PageIn(vm, i, vp), i, vp) else PageIn(vm, i, vp)
  }

  function RepairedStep(vm: Vm, op: Op): (r: Vm)
    requires Shape(vm)
    ensures Shape(r)
  {
    if op.PageFault? && Enabled(vm, op) then PageInDirty(vm, op.proc, op.vpage) else Step(vm, op)
  }

  function RepairedRun(vm: Vm, ops: seq<Op>): (r: Vm)
    requires Shape(vm)
    ensures Shape(r)
  {
    if ops == [] then vm else RepairedStep(RepairedRun(vm, ops[..|ops| - 1]), ops[|ops| - 1])
  }

  /** What the flat specification makes of the same run. */
  function RepairedFlat(vm: Vm, ops: seq<Op>, i: nat, vp: nat): Page
    requires Shape(vm)
  {
    if ops == [] then View(vm, i, vp)
    else
      var before := ops[..|ops| - 1];
      FlatStep(RepairedRun(vm, before), ops[|ops| - 1], i, vp, RepairedFlat(vm, before, i, vp))
  }

  // ---- Clean pages are zero ------------------------------------------------------------------------------

  /** If this page is resident and clean, it is all zero. */
  predicate CleanAt(vm: Vm, j: nat, q: nat)
    requires Shape(vm)
  {
    j < |vm.pids| && Entry(vm.mem, j, q).isValid && !Entry(vm.mem, j, q).isDirty ==> View(vm, j, q) == ZeroPage()
  }

  ghost predicate CleanIsZero(vm: Vm)
    requires Shape(vm)
  {
    forall j: nat, q: nat | !InSharedWindow(q) :: CleanAt(vm, j, q)
  }

  lemma MarkDirtyKeeps(vm: Vm, i: nat, vp: nat)
    requires Inv(vm)
    ensures Inv(MarkDirty(vm, i, vp)) && MarkDirty(vm, i, vp).pids == vm.pids
    ensures forall j: nat, q: nat :: View(MarkDirty(vm, i, vp), j, q) == View(vm, j, q)
    ensures forall j: nat, q: nat :: CleanAt(vm, j, q) ==> CleanAt(MarkDirty(vm, i, vp), j, q)
    ensures |MarkDirty(vm, i, vp).mem.frames| == |vm.mem.frames|
    ensures i < |vm.mem.tables| && vp < |vm.mem.tables[i]| ==> Entry(MarkDirty(vm, i, vp).mem, i, vp).isDirty
  {
    var r := MarkDirty(vm, i, vp);
    SameFrames(vm, r, {});
    forall j: nat, q: nat
      ensures Entry(r.mem, j, q) == Entry(vm.mem, j, q).(isDirty := Entry(r.mem, j, q).isDirty)
      ensures Entry(vm.mem, j, q).isDirty ==> Entry(r.mem, j, q).isDirty
    {}
    hide FramesInv;
    forall j: nat, q: nat | j < |r.pids| ensures Backed(r, j, q) { assert Backed(vm, j, q); }
    forall f | f in r.owner ensures Owning(r, f) { assert Owning(vm, f); }
    forall k | k in r.disk ensures Saved(r, k) { assert Saved(vm, k); }
  }

  /** Then every eviction is safe. */
  lemma CleanIsSafe(vm: Vm)
    requires Inv(vm) && CanTake(vm) && CleanIsZero(vm)
    ensures SafeTake(vm)
  {
    if !HasFree(vm.mem) {
      forall j: nat, q: nat | j < |vm.pids| && !InSharedWindow(q) && Holds(vm, TakenFrame(vm), j, q)
        ensures DirtyOrZero(vm, j, q)
      {
        assert Owning(vm, TakenFrame(vm)) && CleanAt(vm, j, q);
      }
    }
  }

  /** A page fault keeps clean pages zero, except for a page it restores. */
  lemma PageInClean(vm: Vm, i: nat, vp: nat, j: nat, q: nat)
    requires Inv(vm) && i < |vm.pids| && Live(vm, i) && CanTake(vm) && !Entry(vm.mem, i, vp).isValid && !InSharedWindow(q)
    requires CleanAt(vm, j, q) && !(i == j && q == vp && KeyOf(vm, i, vp) in vm.disk)
    ensures CleanAt(PageIn(vm, i, vp), j, q)
  {
    hide Inv, PageIn, CanTake, Holds;
    InvShape(vm);
    if j < |vm.pids| {
      PageInView(vm, i, vp, j, q);
      NotHeld(vm, i, vp);
      if !(i == j && q == vp) {
        PageInKeepsEntry(vm, i, vp, j, q);
      }
    }
  }

  lemma {:induction false} GrabRangeClean(vm: Vm, i: nat, start: nat, n: nat)
    requires Inv(vm) && i < |vm.pids| && start + n <= |vm.mem.tables[i]| && CanTake(vm) && RunFree(vm, i, start, n) && CleanIsZero(vm)
    ensures CleanIsZero(GrabRange(vm, i, start, n)) && SafeGrabs(vm, i, start, n)
  {
    hide Inv, Grab, PageIn, CanTake, RunFree, CleanAt, SafeTake;
    InvShape(vm);
    if n > 0 {
      var v, vp := GrabRange(vm, i, start, n - 1), start + n - 1;
      GrabNext(vm, i, start, n);
      GrabRangeClean(vm, i, start, n - 1);
      CleanIsSafe(v);
      GrabIsPageIn(v, i, vp);
      forall j: nat, q: nat | !InSharedWindow(q) ensures CleanAt(PageIn(v, i, vp), j, q) {
        assert CleanAt(v, j, q);
        PageInClean(v, i, vp, j, q);
      }
    }
  }

  lemma AllocClean(vm: Vm, i: nat, bytes: int)
    requires Inv(vm) && i < |vm.pids| && Live(vm, i) && CanTake(vm) && CleanIsZero(vm)
    ensures CleanIsZero(Alloc(vm, i, bytes).0) && SafeAlloc(vm, i, bytes)
  {
    hide Inv, Alloc, GrabRange, CanTake, GrowTable, RunFree, SafeGrabs;
    InvShape(vm);
    AllocForm(vm, i, bytes);
    var (vm1, start, n) := AllocPlan(vm, i, bytes);
    forall j: nat, q: nat | !InSharedWindow(q) ensures CleanAt(vm1, j, q) {
      assert CleanAt(vm, j, q);
      if j < |vm.pids| { GrowView(vm, i, HEAP_LAST + 1, j, q); }
    }
    GrabRangeClean(vm1, i, start, n);
    var r, g := Alloc(vm, i, bytes).0, GrabRange(vm1, i, start, n);
    forall j: nat, q: nat | !InSharedWindow(q) ensures CleanAt(r, j, q) { assert CleanAt(g, j, q); }
  }

  lemma AccessClean(vm: Vm, i: nat, va: Word, b: Byte, j: nat, q: nat)
    requires Inv(vm) && i < |vm.pids| && !InSharedWindow(q) && CleanAt(vm, j, q)
    ensures CleanAt(vm.(mem := ReadByte(vm.mem, i, vm.sizes[i], va).mem), j, q)
    ensures CleanAt(vm.(mem := WriteByte(vm.mem, i, vm.sizes[i], va, b).mem), j, q)
  {
    if j < |vm.pids| {
      ReadView(vm, i, vm.sizes[i], va, j, q);
      WriteView(vm, i, vm.sizes[i], va, b, j, q);
      AccessDirty(vm.mem, i, vm.sizes[i], va, b, j, q);
      hide Inv, ReadByte, WriteByte, View;
    }
  }

  /** A write marks its page dirty; nothing else changes residency or dirty bits. */
  lemma AccessDirty(m: Mem, i: nat, codeSize: nat, va: Word, b: Byte, j: nat, q: nat)
    requires i < |m.tables|
    ensures Entry(ReadByte(m, i, codeSize, va).mem, j, q) == Entry(m, j, q)
    ensures var w := WriteByte(m, i, codeSize, va, b);
      if w.Done? && i == j && q == va / PAGE_SIZE then Entry(w.mem, j, q).isDirty else Entry(w.mem, j, q) == Entry(m, j, q)
  {}

  lemma {:induction false} ReleaseRangeClean(vm: Vm, i: nat, start: nat, n: nat, j: nat, q: nat)
    requires Inv(vm) && i < |vm.pids| && start + n <= HEAP_LAST + 1 && !InSharedWindow(q) && CleanAt(vm, j, q)
    ensures CleanAt(ReleaseRange(vm, i, start, n), j, q)
  {
    hide Inv, Release, View, CleanAt;
    InvShape(vm);
    if n > 0 {
      ReleaseRangeClean(vm, i, start, n - 1, j, q);
      ReleaseRangeInv(vm, i, start, n - 1);
      ReleaseClean(ReleaseRange(vm, i, start, n - 1), i, start + n - 1, j, q);
    }
  }

  lemma ReleaseClean(vm: Vm, i: nat, vp: nat, j: nat, q: nat)
    requires Inv(vm) && i < |vm.pids| && !InSharedWindow(vp) && !InSharedWindow(q) && CleanAt(vm, j, q)
    ensures CleanAt(Release(vm, i, vp), j, q)
  {
    if j < |vm.pids| {
      ReleaseView(vm, i, vp, j, q);
      if vp < |vm.mem.tables[i]| {
        ReleaseEffect(vm, i, vp);
        hide Release, Inv;
      }
    }
  }

  lemma {:induction false} LoadPagesClean(vm: Vm, i: nat, vp: nat, n: nat, j: nat, q: nat)
    requires Inv(vm) && i < |vm.pids| && vp + n <= |vm.mem.tables[i]| && !InSharedWindow(q)
    requires forall x: nat :: PageFree(vm, i, x)
    requires CleanAt(vm, j, q)
    ensures CleanAt(LoadPages(vm, i, vp, n).0, j, q)
  {
    hide Inv, Grab, CleanAt, PageIn;
    InvShape(vm);
    if n > 0 {
      LoadPagesClean(vm, i, vp, n - 1, j, q);
      LoadPagesInv(vm, i, vp, n - 1);
      LoadPagesEffect(vm, i, vp, n - 1);
      var (v, ok) := LoadPages(vm, i, vp, n - 1);
      if ok && HasFree(v.mem) {
        assert PageFree(vm, i, vp + n - 1);
        FreeMeansRoom(v);
        LoadStepIsGrab(vm, i, vp, n);
        GrabIsPageIn(v, i, vp + n - 1);
        PageInClean(v, i, vp + n - 1, j, q);
      }
    }
  }

  lemma {:induction false} WriteCodeClean(vm: Vm, i: nat, code: seq<Byte>, n: nat, j: nat, q: nat)
    requires Inv(vm) && i < |vm.pids| && n <= |code| <= 0xE000 && vm.sizes[i] == |code| && !InSharedWindow(q) && CleanAt(vm, j, q)
    ensures CleanAt(vm.(mem := WriteCode(vm.mem, i, |code|, code, n).mem), j, q)
  {
    hide Inv, WriteByte, ReadByte, CleanAt;
    InvShape(vm);
    if n == 0 {
      assert vm.(mem := vm.mem) == vm;
    } else {
      WriteCodeClean(vm, i, code, n - 1, j, q);
      WriteCodeInv(vm, i, code, n - 1);
      AccessClean(vm.(mem := WriteCode(vm.mem, i, |code|, code, n - 1).mem), i, CODE_BASE + n - 1, code[n - 1], j, q);
    }
  }

  lemma CreateClean(vm: Vm, code: seq<Byte>, j: nat, q: nat)
    requires Inv(vm) && |code| <= 0xE000 && !InSharedWindow(q) && CleanAt(vm, j, q)
    ensures CleanAt(Create(vm, code).0, j, q)
  {
    hide Inv, LoadPages, WriteCode;
    InvShape(vm);
    var i, vm1 := |vm.pids|, AddProcess(vm, |code|);
    AddProcessInv(vm, |code|);
    assert PageFree(vm1, i, q);
    assert CleanAt(vm1, j, q);
    if |code| != 0 {
      var n := (CODE_BASE + |code| - 1) / PAGE_SIZE - CODE_PAGE + 1;
      LoadPagesInv(vm1, i, CODE_PAGE, n);
      LoadPagesEffect(vm1, i, CODE_PAGE, n);
      LoadPagesClean(vm1, i, CODE_PAGE, n, j, q);
      var (vm2, ok) := LoadPages(vm1, i, CODE_PAGE, n);
      if ok {
        WriteCodeClean(vm2, i, code, |code|, j, q);
      }
    }
  }

  // ---- Every run ---------------------------------------------------------------------------------------------

  lemma FaultRepaired(vm: Vm, i: nat, vp: nat)
    requires Inv(vm) && Roomy(vm) && CleanIsZero(vm) && Enabled(vm, PageFault(i, vp))
    ensures var r := PageInDirty(vm, i, vp);
      && Inv(r) && Roomy(r) && CleanIsZero(r)
      && forall j: nat, q: nat | !InSharedWindow(q) :: View(r, j, q) == View(vm, j, q)
  {
    hide Inv, PageIn, CanTake, SafeTake, View, Entry, MarkDirty;
    InvShape(vm);
    var p, r := PageIn(vm, i, vp), PageInDirty(vm, i, vp);
    StepInv(vm, PageFault(i, vp));
    CleanIsSafe(vm);
    MarkDirtyKeeps(p, i, vp);
    PageInReaches(vm, i, vp);
    forall j: nat, q: nat | !InSharedWindow(q)
      ensures View(r, j, q) == View(vm, j, q) && CleanAt(r, j, q)
    {
      SafeStepIsFlat(vm, PageFault(i, vp), j, q);
      assert CleanAt(vm, j, q);
      if !(i == j && q == vp && KeyOf(vm, i, vp) in vm.disk) {
        PageInClean(vm, i, vp, j, q);
      }
    }
  }

  lemma PageInReaches(vm: Vm, i: nat, vp: nat)
    requires Shape(vm) && i < |vm.pids| && CanTake(vm)
    ensures i < |PageIn(vm, i, vp).mem.tables| && vp < |PageIn(vm, i, vp).mem.tables[i]|
  {}

  lemma StepClean(vm: Vm, op: Op)
    requires Inv(vm) && Roomy(vm) && CleanIsZero(vm) && !op.PageFault?
    ensures SafeOp(vm, op) && CleanIsZero(Step(vm, op))
  {
    hide Inv, Alloc, ReleaseRange, Create, ReadByte, WriteByte, Roomy, CanTake, SafeAlloc, MapShared, HeapOk;
    InvShape(vm);
    if Enabled(vm, op) {
      if op.AllocHeap? {
        AllocClean(vm, op.proc, op.bytes);
      } else {
        forall j: nat, q: nat | !InSharedWindow(q) ensures CleanAt(Step(vm, op), j, q) {
          assert CleanAt(vm, j, q);
          OneStepClean(vm, op, j, q);
        }
      }
    }
  }

  lemma OneStepClean(vm: Vm, op: Op, j: nat, q: nat)
    requires Inv(vm) && Roomy(vm) && Enabled(vm, op) && !InSharedWindow(q) && CleanAt(vm, j, q)
    requires !op.PageFault? && !op.AllocHeap?
    ensures CleanAt(Step(vm, op), j, q)
  {
    match op
    case Read(i, va) => AccessClean(vm, i, va, 0, j, q);
    case Write(i, va, b) => AccessClean(vm, i, va, b, j, q);
    case FreeHeap(i, a) =>
      if a in vm.heaps[i] {
        assert HeapOk(vm.heaps[i]);
        ReleaseRangeClean(vm, i, a / PAGE_SIZE, vm.heaps[i][a], j, q);
      }
    case MapRegion(i, r) =>
      MapSharedEffect(vm, i, r);
      if j < |vm.pids| { MapSharedView(vm, i, r, j, q); }
    case Exit(i) => if j < |vm.pids| { CleanupView(vm, i, j, q); }
    case Spawn(code) => CreateClean(vm, code, j, q);
  }

  /** Repaired, every private page of every process reads as the flat specification says, after every run:
      no eviction ever loses a byte. */
  lemma {:induction false} RepairedIsAlwaysFlat(numFrames: nat, ops: seq<Op>, j: nat, q: nat)
    requires NUM_SHARED <= numFrames <= MAX_FRAMES && !InSharedWindow(q)
    ensures View(RepairedRun(Boot(numFrames), ops), j, q) == RepairedFlat(Boot(numFrames), ops, j, q)
  {
    hide Inv, RepairedStep, View, Boot, CleanIsZero, FlatStep, Roomy;
    if ops != [] {
      var before, op := ops[..|ops| - 1], ops[|ops| - 1];
      RepairedIsAlwaysFlat(numFrames, before, j, q);
      RepairedInv(numFrames, before);
      RepairedStepIsFlat(RepairedRun(Boot(numFrames), before), op, j, q);
    }
  }

  lemma RepairedStepIsFlat(vm: Vm, op: Op, j: nat, q: nat)
    requires Inv(vm) && Roomy(vm) && CleanIsZero(vm) && !InSharedWindow(q)
    ensures View(RepairedStep(vm, op), j, q) == FlatStep(vm, op, j, q, View(vm, j, q))
    ensures Inv(RepairedStep(vm, op)) && Roomy(RepairedStep(vm, op)) && CleanIsZero(RepairedStep(vm, op))
  {
    hide Inv, View, Step, PageInDirty, CleanIsZero, SafeOp, Roomy;
    InvShape(vm);
    if op.PageFault? {
      if Enabled(vm, op) { FaultRepaired(vm, op.proc, op.vpage); } else { IdleStep(vm, op); }
    } else {
      StepClean(vm, op);
      StepInv(vm, op);
      SafeStepIsFlat(vm, op, j, q);
    }
  }

  lemma IdleStep(vm: Vm, op: Op)
    requires Shape(vm) && !Enabled(vm, op)
    ensures Step(vm, op) == vm
  {}

  lemma {:induction false} RepairedInv(numFrames: nat, ops: seq<Op>)
    requires NUM_SHARED <= numFrames <= MAX_FRAMES
    ensures var vm := RepairedRun(Boot(numFrames), ops); Inv(vm) && Roomy(vm) && CleanIsZero(vm)
  {
    hide Inv, RepairedStep, View, Boot, Roomy, CleanAt;
    if ops == [] {
      BootInv(numFrames);
      BootClean(numFrames);
    } else {
      RepairedInv(numFrames, ops[..|ops| - 1]);
      RepairedStepIsFlat(RepairedRun(Boot(numFrames), ops[..|ops| - 1]), ops[|ops| - 1], 0, 0);
    }
  }

  lemma BootClean(numFrames: nat)
    requires NUM_SHARED <= numFrames <= MAX_FRAMES
    ensures CleanIsZero(Boot(numFrames))
  {}
}
