/** Exactly when what one process makes the OS do leaves the bytes of another alone. */
module Isolation {
  import opened Basics
  import opened Memory
  import opened Paging
  import opened FrameInvariant
  import opened PagingRuns
  import opened FlatMemory
  import opened Kernel
  import opened KernelRuns
  import Cpu = Processor
  import Flat = FlatInstructions
  import Restart

  /** A private page of the 32-bit address space. */
  predicate PrivatePage(q: nat) {
    IsPage(q) && !InSharedWindow(q)
  }

  ghost predicate SameViews(vm: Vm, r: Vm, j: nat)
    requires Shape(vm) && Shape(r)
  {
    forall q: nat | PrivatePage(q) :: View(r, j, q) == View(vm, j, q)
  }

  /** Taking a frame here does not take a private page of process j that is clean and not zero. */
  ghost predicate TakeSpares(vm: Vm, j: nat)
    requires Shape(vm) && CanTake(vm) && j < |vm.pids|
  {
    HasFree(vm.mem) || forall q: nat | PrivatePage(q) && Holds(vm, TakenFrame(vm), j, q) :: DirtyOrZero(vm, j, q)
  }

  ghost predicate GrabsSpare(vm: Vm, i: nat, start: nat, n: nat, j: nat)
    requires Shape(vm) && i < |vm.pids| && start + n <= |vm.mem.tables[i]| && CanTake(vm) && j < |vm.pids|
  {
    n == 0 || (GrabsSpare(vm, i, start, n - 1, j) && TakeSpares(GrabRange(vm, i, start, n - 1), j))
  }

  /** No eviction of this operation takes such a page of process j. */
  ghost predicate Spares(vm: Vm, op: Op, j: nat)
    requires Shape(vm) && j < |vm.pids|
  {
    Enabled(vm, op) ==>
      match op
      case PageFault(_, _) => TakeSpares(vm, j)
      case AllocHeap(i, bytes) =>
        var (vm1, start, n) := AllocPlan(vm, i, bytes);
        i < |vm1.pids| && start + n <= |vm1.mem.tables[i]| && CanTake(vm1) && j < |vm1.pids| ==> GrabsSpare(vm1, i, start, n, j)
      case _ => true
  }

  lemma SameViewsIsSameBytes(vm: Vm, r: Vm, j: nat)
    requires Shape(vm) && Shape(r)
    ensures SameViews(vm, r, j) <==> Flat.SameBytes(vm, r, j)
  {
    hide View;
    if SameViews(vm, r, j) {
      forall x: Word | Flat.Private(x) ensures Flat.ByteAt(r, j, x) == Flat.ByteAt(vm, j, x) { assert PrivatePage(x / PAGE_SIZE); }
    }
    if Flat.SameBytes(vm, r, j) {
      forall q: nat | PrivatePage(q) ensures View(r, j, q) == View(vm, j, q) {
        forall o: nat | o < 256 ensures View(r, j, q)[o] == View(vm, j, q)[o] {
          var x: Word := q * PAGE_SIZE + o;
          assert x / PAGE_SIZE == q && x % PAGE_SIZE == o && Flat.Private(x);
          assert Flat.ByteAt(r, j, x) == Flat.ByteAt(vm, j, x);
        }
      }
    }
  }

  lemma PageInSpares(vm: Vm, i: nat, vp: nat, j: nat)
    requires Inv(vm) && i < |vm.pids| && j < |vm.pids| && Live(vm, i) && CanTake(vm) && !Entry(vm.mem, i, vp).isValid
    ensures SameViews(vm, PageIn(vm, i, vp), j) <==> TakeSpares(vm, j)
  {
    hide Inv, PageIn, CanTake, View, Holds, DirtyOrZero, PrivatePage;
    InvShape(vm);
    forall q: nat | PrivatePage(q)
      ensures View(PageIn(vm, i, vp), j, q) == View(vm, j, q) <==>
              !(!HasFree(vm.mem) && Holds(vm, TakenFrame(vm), j, q)) || DirtyOrZero(vm, j, q)
    {
      PrivateMeans(q);
      PageInView(vm, i, vp, j, q);
    }
  }

  lemma PrivateMeans(q: nat)
    requires PrivatePage(q)
    ensures !InSharedWindow(q)
  {}

  lemma {:induction false} GrabRangeSpares(vm: Vm, i: nat, start: nat, n: nat, j: nat)
    requires Inv(vm) && i < |vm.pids| && start + n <= |vm.mem.tables[i]| && CanTake(vm) && RunFree(vm, i, start, n)
    requires j < |vm.pids|
    ensures SameViews(vm, GrabRange(vm, i, start, n), j) <==> GrabsSpare(vm, i, start, n, j)
  {
    hide Inv, Grab, PageIn, View, CanTake, PageFree, RunFree, TakeSpares, PrivatePage;
    InvShape(vm);
    if n > 0 {
      GrabNext(vm, i, start, n);
      var v, vp := GrabRange(vm, i, start, n - 1), start + n - 1;
      GrabRangeSpares(vm, i, start, n - 1, j);
      FreeIsUnmapped(v, i, vp);
      GrabIsPageIn(v, i, vp);
      PageInSpares(v, i, vp, j);
      if !SameViews(vm, v, j) {
        var q: nat :| PrivatePage(q) && View(v, j, q) != View(vm, j, q);
        PrivateMeans(q);
        GrabRangeView(vm, i, start, n - 1, j, q);
        GrabView(v, i, vp, j, q);
        assert View(Grab(v, i, vp), j, q) != View(vm, j, q);
      } else {
        ViewsChain(vm, v, Grab(v, i, vp), j);
      }
    }
  }

  lemma ViewsChain(vm: Vm, v: Vm, r: Vm, j: nat)
    requires Shape(vm) && Shape(v) && Shape(r) && SameViews(vm, v, j)
    ensures SameViews(vm, r, j) <==> SameViews(v, r, j)
  {
    hide View;
    forall q: nat | PrivatePage(q) ensures View(v, j, q) == View(vm, j, q) {}
  }

  lemma AllocSpares(vm: Vm, i: nat, bytes: int, j: nat)
    requires Inv(vm) && i < |vm.pids| && Live(vm, i) && CanTake(vm) && j < |vm.pids|
    ensures SameViews(vm, Alloc(vm, i, bytes).0, j) <==> Spares(vm, AllocHeap(i, bytes), j)
  {
    hide Inv, Alloc, GrabRange, CanTake, GrowTable, RunFree, View, PrivatePage, GrabsSpare;
    InvShape(vm);
    AllocForm(vm, i, bytes);
    var (vm1, start, n) := AllocPlan(vm, i, bytes);
    forall q: nat | PrivatePage(q) ensures View(vm1, j, q) == View(vm, j, q) { PlanView(vm, i, bytes, j, q); }
    GrabRangeSpares(vm1, i, start, n, j);
    var g := GrabRange(vm1, i, start, n);
    forall q: nat | PrivatePage(q) ensures View(Alloc(vm, i, bytes).0, j, q) == View(g, j, q) { HeapsView(g, Alloc(vm, i, bytes).0, j, q); }
    ViewsChain(vm, vm1, Alloc(vm, i, bytes).0, j);
  }

  lemma PlanView(vm: Vm, i: nat, bytes: int, j: nat, q: nat)
    requires Shape(vm) && i < |vm.pids| && CanTake(vm) && j < |vm.pids|
    ensures View(AllocPlan(vm, i, bytes).0, j, q) == View(vm, j, q)
  {
    hide FirstFit, CanTake, View;
    GrowView(vm, i, HEAP_LAST + 1, j, q);
  }

  lemma HeapsView(vm: Vm, r: Vm, j: nat, q: nat)
    requires Shape(vm) && Shape(r) && r == vm.(heaps := r.heaps)
    ensures View(r, j, q) == View(vm, j, q)
  {}

  /** One operation of a process leaves all private bytes of another as they are iff none of its evictions takes a
      page of that other process that is clean and not zero. */
  lemma SparesIff(vm: Vm, op: Op, j: nat)
    requires Inv(vm) && Roomy(vm) && Shape(vm) && !op.Spawn? && j < |vm.pids| && op.proc != j
    ensures SameViews(vm, Step(vm, op), j) <==> Spares(vm, op, j)
  {
    hide Inv, Roomy, View, PageIn, Alloc, Free, MapShared, Cleanup, ReadByte, WriteByte, PrivatePage, TakeSpares,
         GrabsSpare;
    if Enabled(vm, op) {
      if op.PageFault? {
        PageInSpares(vm, op.proc, op.vpage, j);
      } else if op.AllocHeap? {
        AllocSpares(vm, op.proc, op.bytes, j);
      } else {
        forall q: nat | PrivatePage(q) ensures View(Step(vm, op), j, q) == View(vm, j, q) {
          PrivateMeans(q);
          OthersKeep(vm, op, j, q);
        }
      }
    }
  }

  lemma OthersKeep(vm: Vm, op: Op, j: nat, q: nat)
    requires Inv(vm) && Shape(vm) && j < |vm.pids| && !InSharedWindow(q)
    requires !op.Spawn? && !op.PageFault? && !op.AllocHeap? && op.proc != j && Enabled(vm, op)
    ensures View(Step(vm, op), j, q) == View(vm, j, q)
  {
    hide Inv, View, Free, MapShared, Cleanup, ReadByte, WriteByte;
    match op
    case Read(i, va) => ReadView(vm, i, vm.sizes[i], va, j, q);
    case Write(i, va, b) => WriteView(vm, i, vm.sizes[i], va, b, j, q);
    case FreeHeap(i, a) => FreeView(vm, i, a, j, q);
    case MapRegion(i, r) => MapSharedView(vm, i, r, j, q);
    case Exit(i) => CleanupView(vm, i, j, q);
  }

  // ---- A dispatch ---------------------------------------------------------------------------------------------

  /** The operation served after the quantum of process i spares process j. */
  ghost predicate ServiceSpares(vm: Vm, i: nat, c: Cpu.Ctx, j: nat)
    requires Shape(vm) && i < |vm.pids| && Cpu.CtxOk(c)
  {
    var op, v := ServiceOf(vm, i, c), StoppedAt(vm, i, c).0;
    op.Some? ==> j < |v.pids| && Spares(v, op.value, j)
  }

  /** What a dispatch of process i does to the bytes of process j. */
  lemma DispatchSpares(vm: Vm, i: nat, c: Cpu.Ctx, j: nat)
    requires Inv(vm) && Roomy(vm) && Shape(vm) && i < |vm.pids| && Cpu.CtxOk(c) && Live(vm, i) && j < |vm.pids| && i != j
    ensures SameViews(vm, Run(vm, DispatchTrace(vm, i, c)), j) <==> ServiceSpares(vm, i, c, j)
  {
    hide Inv, Roomy, Live, Run, Step, StepsTrace, Cpu.RunSteps, AllPages, SafeRun, OpOf, SameViews, Flat.SameBytes,
         Spares;
    QuantumRuns(vm, i, c);
    RanKeepsInv(vm, i, c);
    var ops, op := StepsTrace(c, SpaceOf(vm, i), QUANTUM), ServiceOf(vm, i, c);
    var v := StoppedAt(vm, i, c).0;
    ReachMeans(vm, i, ops, Cpu.RunSteps(c, SpaceOf(vm, i), QUANTUM).mem, AllPages());
    AccessesSafe(vm, ops, i, AllPages());
    Restart.QuietKeepsBytes(vm, ops, j);
    SameViewsIsSameBytes(vm, v, j);
    RunConcat(vm, ops, OneOp(op));
    RunShort(v, op);
    if op.Some? {
      ServiceIsHis(vm, i, c);
      SparesIff(v, op.value, j);
      ViewsChain(vm, v, Step(v, op.value), j);
    }
  }

  lemma RunShort(vm: Vm, op: Option<Op>)
    requires Shape(vm)
    ensures Run(vm, OneOp(op)) == if op.Some? then Step(vm, op.value) else vm
  {
    hide Step, Run;
    if op.Some? { OneStep(vm, op.value); } else { EmptyRun(vm); }
  }

  lemma ServiceIsHis(vm: Vm, i: nat, c: Cpu.Ctx)
    requires Shape(vm) && i < |vm.pids| && Cpu.CtxOk(c) && ServiceOf(vm, i, c).Some?
    ensures var op := ServiceOf(vm, i, c).value; !op.Spawn? && op.proc == i
  {
    hide StoppedAt;
  }
}
