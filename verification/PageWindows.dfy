/** In every reachable state a process has frames and saved pages only for pages that meet its windows. */
module PageWindows {
  import opened Basics
  import opened Memory
  import opened Paging
  import opened FrameInvariant
  import opened PagingRuns
  import opened FlatMemory
  import opened HeapDisjointness
  import opened Windows
  import opened KernelRuns
  import opened System
  import HR = HeapRecords
  import Cpu = Processor
  import Flat = FlatInstructions
  import Isa = Instructions
  import K = Kernel
  import Restart

  /** Some byte of page q is in a window of a process with that much code. */
  ghost predicate Meets(codeSize: nat, q: nat) {
    exists x: Word :: x / PAGE_SIZE == q && Inside(codeSize, x)
  }

  /** Whatever page a process has a frame or a place on disk for meets its windows. */
  ghost predicate PagesInside(vm: Vm)
    requires Shape(vm)
  {
    forall i: nat, q: nat | i < |vm.pids| && !PageFree(vm, i, q) :: Meets(vm.sizes[i], q)
  }

  /** A fault is on a page that meets the windows. */
  ghost predicate FaultsInside(vm: Vm, op: Op)
    requires Shape(vm)
  {
    op.PageFault? && op.proc < |vm.pids| ==> Meets(vm.sizes[op.proc], op.vpage)
  }

  // ---- One operation -------------------------------------------------------------------------------------------------

  lemma MeetsAt(codeSize: nat, x: Word)
    requires Inside(codeSize, x)
    ensures Meets(codeSize, x / PAGE_SIZE)
  {}

  /** The pages of a new process are its code pages. */
  lemma CreatedPages(vm: Vm, code: seq<Byte>, q: nat)
    requires Inv(vm) && Shape(vm) && |code| <= 0xE000
    ensures var r, i := Create(vm, code).0, |vm.pids|;
      && (|r.pids| == i || (|r.pids| == i + 1 && r.sizes[i] == |code| && |code| > 0))
      && (|r.pids| == i + 1 ==> PageFree(r, i, q) || CODE_PAGE <= q <= (CODE_BASE + |code| - 1) / PAGE_SIZE)
  {
    hide Inv, LoadPages, WriteCode;
    var i, vm1 := |vm.pids|, AddProcess(vm, |code|);
    AddProcessInv(vm, |code|);
    if |code| != 0 {
      var n := (CODE_BASE + |code| - 1) / PAGE_SIZE - CODE_PAGE + 1;
      LoadPagesInv(vm1, i, CODE_PAGE, n);
      LoadPagesEffect(vm1, i, CODE_PAGE, n);
      var (vm2, ok) := LoadPages(vm1, i, CODE_PAGE, n);
      if ok {
        ValidInRange(vm2, i);
        WriteCodeEffect(vm2.mem, i, code, |code|);
        assert PageFree(vm1, i, q);
      }
    }
  }

  lemma CodeMeets(size: nat, q: nat)
    requires 0 < size <= 0xE000 && CODE_PAGE <= q <= (CODE_BASE + size - 1) / PAGE_SIZE
    ensures Meets(size, q)
  {
    MeetsAt(size, q * PAGE_SIZE);
  }

  lemma SpawnInside(vm: Vm, code: seq<Byte>, j: nat, q: nat)
    requires Inv(vm) && Shape(vm) && |code| <= 0xE000 && PagesInside(vm)
    requires j < |Create(vm, code).0.pids| && !PageFree(Create(vm, code).0, j, q)
    ensures Meets(Create(vm, code).0.sizes[j], q)
  {
    hide Inv, Create, PageFree, Meets;
    CreatedPages(vm, code, q);
    if j < |vm.pids| {
      CreateFree(vm, code, j, q);
      assert Enabled(vm, Spawn(code));
      Restart.StepSizes(vm, Spawn(code), j);
    } else {
      CodeMeets(|code|, q);
    }
  }

  /** The pages an operation adds. */
  lemma AllocPages(vm: Vm, i: nat, bytes: int, j: nat, q: nat)
    requires Inv(vm) && Shape(vm) && i < |vm.pids| && Live(vm, i) && CanTake(vm) && j < |vm.pids| && PageFree(vm, j, q)
    ensures Shape(Alloc(vm, i, bytes).0) && j < |Alloc(vm, i, bytes).0.pids|
    ensures PageFree(Alloc(vm, i, bytes).0, j, q) || HEAP_FIRST <= q <= HEAP_LAST
  {
    hide Inv, Alloc, CanTake, GrabRange, RunFree, PageFree, FirstFit;
    AllocForm(vm, i, bytes);
    var (vm1, start, n) := AllocPlan(vm, i, bytes);
    FirstFitInHeap(vm.(mem := GrowTable(vm.mem, i, HEAP_LAST + 1)), i, PagesNeeded(bytes), HEAP_FIRST);
    PlanFree(vm, i, bytes, j, q);
    if !(j == i && start <= q < start + n) {
      GrabRangeKeepsFree(vm1, i, start, n, j, q);
      FreeIgnoresHeaps(GrabRange(vm1, i, start, n), Alloc(vm, i, bytes).0.heaps, j, q);
    }
  }

  lemma HeapMeets(size: nat, q: nat)
    requires HEAP_FIRST <= q <= HEAP_LAST
    ensures Meets(size, q)
  {
    MeetsAt(size, q * PAGE_SIZE);
  }

  lemma SharedMeets(size: nat, q: nat)
    requires InSharedWindow(q)
    ensures Meets(size, q)
  {
    MeetsAt(size, q * PAGE_SIZE);
  }

  lemma AccessKeepsFree(vm: Vm, m: Mem, j: nat, q: nat)
    requires Shape(vm) && j < |vm.pids|
    requires Entry(m, j, q).isValid == Entry(vm.mem, j, q).isValid && Entry(m, j, q).physPage == Entry(vm.mem, j, q).physPage
    ensures PageFree(vm.(mem := m), j, q) == PageFree(vm, j, q)
  {}

  lemma ExitFree(vm: Vm, i: nat, j: nat, q: nat)
    requires Inv(vm) && Shape(vm) && i < |vm.pids| && j < |vm.pids| && PageFree(vm, j, q)
    ensures PageFree(Cleanup(vm, i), j, q)
  {
    DistinctKeys(vm, i, q, j, q);
  }

  /** A page that is free stays so, unless the operation is about it. */
  lemma StepKeepsFree(vm: Vm, op: Op, j: nat, q: nat)
    requires Inv(vm) && Shape(vm) && FaultsInside(vm, op) && !op.Spawn? && j < |vm.pids| && PageFree(vm, j, q)
    ensures j < |Step(vm, op).pids| && (PageFree(Step(vm, op), j, q) || Meets(vm.sizes[j], q))
  {
    hide Inv, PageIn, Alloc, Free, MapShared, Cleanup, ReadByte, WriteByte, PageFree, Meets, CanTake;
    StepKeepsPids(vm, op);
    if Enabled(vm, op) {
      match op
      case Read(i, va) =>
        WriteReadEntries(vm, i, va, 0);
        AccessKeepsFree(vm, ReadByte(vm.mem, i, vm.sizes[i], va).mem, j, q);
      case Write(i, va, b) =>
        WriteReadEntries(vm, i, va, b);
        AccessKeepsFree(vm, WriteByte(vm.mem, i, vm.sizes[i], va, b).mem, j, q);
      case PageFault(i, vp) => if !(i == j && vp == q) { PageInKeepsFree(vm, i, vp, j, q); }
      case AllocHeap(i, n) =>
        AllocPages(vm, i, n, j, q);
        if HEAP_FIRST <= q <= HEAP_LAST { HeapMeets(vm.sizes[j], q); }
      case FreeHeap(i, a) => HR.FreeLaw(vm, i, a);
      case MapRegion(i, r) =>
        if InSharedWindow(q) { SharedMeets(vm.sizes[j], q); }
        MapSharedEffect(vm, i, r);
        if q != SHARED_PAGE + r { AccessKeepsFree(vm, MapShared(vm, i, r).mem, j, q); }
      case Exit(i) => ExitFree(vm, i, j, q);
    }
  }

  lemma StepInside(vm: Vm, op: Op)
    requires Inv(vm) && Shape(vm) && PagesInside(vm) && FaultsInside(vm, op)
    ensures PagesInside(Step(vm, op))
  {
    hide Inv, PageFree, Meets, Step, FaultsInside, Enabled;
    forall j: nat, q: nat | j < |Step(vm, op).pids| && !PageFree(Step(vm, op), j, q) ensures Meets(Step(vm, op).sizes[j], q) {
      if op.Spawn? {
        SpawnStep(vm, op, j, q);
      } else {
        StepKeepsPids(vm, op);
        Restart.StepSizes(vm, op, j);
        if PageFree(vm, j, q) { StepKeepsFree(vm, op, j, q); }
      }
    }
  }

  lemma SpawnStep(vm: Vm, op: Op, j: nat, q: nat)
    requires Inv(vm) && Shape(vm) && PagesInside(vm) && op.Spawn?
    requires j < |Step(vm, op).pids| && !PageFree(Step(vm, op), j, q)
    ensures Meets(Step(vm, op).sizes[j], q)
  {
    hide Inv, Create, PageFree, Meets;
    if |op.code| <= 0xE000 { SpawnInside(vm, op.code, j, q); }
  }

  // ---- Faults of the CPU ------------------------------------------------------------------------------------------------

  lemma {:induction false} VerdictMeets(vm: Vm, i: nat, bytes: seq<Word>)
    requires Shape(vm) && i < |vm.pids|
    ensures Verdict(vm, i, bytes).Faulted? ==> Meets(vm.sizes[i], Verdict(vm, i, bytes).vpage)
  {
    hide Inside, Flat.Resident, Meets;
    if bytes != [] {
      VerdictMeets(vm, i, bytes[1..]);
      if Inside(vm.sizes[i], bytes[0]) { MeetsAt(vm.sizes[i], bytes[0]); }
    }
  }

  lemma StepFaultMeets(vm: Vm, i: nat, c: Cpu.Ctx)
    requires Inv(vm) && Shape(vm) && i < |vm.pids| && Cpu.CtxOk(c)
    ensures var o := Cpu.CpuStep(c, Flat.SpaceOf(vm, i)).outcome; o.Faulted? ==> Meets(vm.sizes[i], o.vpage)
  {
    hide Inv, Cpu.CpuStep, Verdict, Meets, DataBytes, CodeBytes, Flat.WordAt;
    StepEnds(vm, i, c);
    var o := Cpu.CpuStep(c, Flat.SpaceOf(vm, i)).outcome;
    if o.Faulted? {
      var bytes := StepBytes(vm, i, c);
      VerdictMeets(vm, i, bytes);
    }
  }

  /** The bytes whose verdict a faulting step ends as. */
  lemma StepBytes(vm: Vm, i: nat, c: Cpu.Ctx) returns (bytes: seq<Word>)
    requires Shape(vm) && i < |vm.pids| && Cpu.CtxOk(c) && StepVerdict(vm, i, c).Faulted?
    ensures StepVerdict(vm, i, c) == Verdict(vm, i, bytes)
  {
    hide Verdict, DataBytes, CodeBytes, Flat.WordAt;
    if Verdict(vm, i, CodeBytes(c.ip)) != Cpu.Continue {
      bytes := CodeBytes(c.ip);
    } else {
      var a, b := Flat.WordAt(vm, i, Cpu.At(c.ip, 4)), Flat.WordAt(vm, i, Cpu.At(c.ip, 8));
      bytes := DataBytes(c, Isa.Decode(Flat.WordAt(vm, i, c.ip)).value, a, b);
    }
  }

  lemma {:induction false} QuantumFaultMeets(vm: Vm, i: nat, c: Cpu.Ctx, n: nat)
    requires Inv(vm) && Shape(vm) && i < |vm.pids| && Cpu.CtxOk(c)
    ensures var o := Cpu.RunSteps(c, Flat.SpaceOf(vm, i), n).outcome; o.Faulted? ==> Meets(vm.sizes[i], o.vpage)
    decreases n
  {
    hide Inv, Cpu.CpuStep, Meets;
    if n > 0 {
      StepFaultMeets(vm, i, c);
      Restart.StepInvOnly(vm, i, c);
      var r := Cpu.CpuStep(c, Flat.SpaceOf(vm, i));
      if r.outcome == Cpu.Continue { QuantumFaultMeets(vm.(mem := r.mem), i, r.ctx, n - 1); }
    }
  }

  // ---- Runs ------------------------------------------------------------------------------------------------------------------

  /** Every fault of this run, by process i alone, meets its windows. */
  ghost predicate RunFaultsInside(vm: Vm, ops: seq<Op>, i: nat)
    requires Shape(vm) && i < |vm.pids|
  {
    forall op | op in ops :: !op.Spawn? && op.proc == i && (op.PageFault? ==> Meets(vm.sizes[i], op.vpage))
  }

  lemma {:induction false} RunInside(vm: Vm, ops: seq<Op>, i: nat)
    requires Inv(vm) && Roomy(vm) && Shape(vm) && PagesInside(vm) && i < |vm.pids| && RunFaultsInside(vm, ops, i)
    ensures PagesInside(Run(vm, ops)) && i < |Run(vm, ops).pids| && Run(vm, ops).sizes[i] == vm.sizes[i]
  {
    hide Inv, Roomy, Step, PagesInside, Meets;
    if ops != [] {
      var before, op := ops[..|ops| - 1], ops[|ops| - 1];
      assert op in ops && forall o | o in before :: o in ops;
      RunInside(vm, before, i);
      RunKeepsInv(vm, before);
      StepInside(Run(vm, before), op);
      Restart.StepSizes(Run(vm, before), op, i);
    }
  }

  /** What a dispatch does faults in its windows. */
  lemma DispatchInside(vm: Vm, i: nat, c: Cpu.Ctx)
    requires Inv(vm) && Roomy(vm) && Shape(vm) && i < |vm.pids| && Cpu.CtxOk(c) && Live(vm, i)
    ensures RunFaultsInside(vm, DispatchTrace(vm, i, c), i)
  {
    hide Inv, Cpu.RunSteps, StepsTrace, Meets, Live, AllPages;
    QuantumFaultMeets(vm, i, c, K.QUANTUM);
    QuantumRuns(vm, i, c);
    var ops, op := StepsTrace(c, K.SpaceOf(vm, i), K.QUANTUM), ServiceOf(vm, i, c);
    forall o | o in ops + OneOp(op) ensures !o.Spawn? && o.proc == i && (o.PageFault? ==> Meets(vm.sizes[i], o.vpage)) {}
  }

  /** In every reachable state of the system, whatever programs were created and however long the loop turned: a process
      has a frame or a place on disk only for pages that meet its windows. */
  lemma {:induction false} PagesStayInside(numFrames: nat, events: seq<Event>)
    requires NUM_SHARED <= numFrames <= MAX_FRAMES && Loadable(events)
    ensures Shape(After(numFrames, events).vm) && PagesInside(After(numFrames, events).vm)
  {
    hide K.OsInv, K.Turn, CreateProcess, PagesInside, Step;
    if events == [] {
      NoPages(numFrames);
    } else {
      LoadablePrefix(events);
      var os := After(numFrames, events[..|events| - 1]);
      PagesStayInside(numFrames, events[..|events| - 1]);
      match events[|events| - 1]
      case Creation(code, priority) =>
        CreateProcessInv(os, code, priority);
        OsInside(os);
        StepInside(os.vm, Spawn(code));
      case LoopTurn =>
        TurnKeepsInv(os);
        TurnInside(os);
    }
  }

  lemma OsInside(os: K.Os)
    requires K.OsInv(os)
    ensures Inv(os.vm) && Roomy(os.vm) && Shape(os.vm)
  {}

  lemma NoPages(numFrames: nat)
    requires NUM_SHARED <= numFrames <= MAX_FRAMES
    ensures Shape(Boot(numFrames)) && PagesInside(Boot(numFrames))
  {}

  lemma TurnInside(os: K.Os)
    requires K.OsInv(os) && Shape(os.vm) && PagesInside(os.vm)
    ensures PagesInside(Run(os.vm, TurnTrace(os)))
  {
    hide Inv, Roomy, SI.SchedInv, K.Picked, Live, DispatchTrace, PagesInside, RunFaultsInside;
    var (s, next) := K.Picked(os.sched);
    if next.Some? {
      assert K.Aligned(os, next.value);
      PickedStatus(os.sched, next.value);
      DispatchInside(os.vm, next.value, os.ctxs[next.value]);
      RunInside(os.vm, TurnTrace(os), next.value);
    } else {
      EmptyRun(os.vm);
    }
  }
}
