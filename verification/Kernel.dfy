/** The whole system: processes, CPU, paging and scheduler put together as in OS::run. */
module Kernel {
  import opened Basics
  import opened Memory
  import opened Paging
  import opened FrameInvariant
  import opened PagingRuns
  import opened FlatMemory
  import Cpu = Processor
  import Flat = FlatInstructions
  import Isa = Instructions
  import Sched = Scheduling
  import SI = SchedulerInvariant
  import SR = SchedulerRuns

  /** Process i is pids[i] and tables[i] of vm, tasks[i] of sched and the saved context ctxs[i]. */
  datatype Os = Os(vm: Vm, sched: Sched.Sched, ctxs: seq<Cpu.Ctx>)

  /** How a turn of the loop ends: on to the next, run() returns, or an exception leaves run(). */
  datatype Turned = Next(os: Os) | Returned(os: Os) | Escaped

  const QUANTUM: nat := 50

  ghost predicate Aligned(os: Os, i: nat)
    requires i < |os.vm.pids| && |os.vm.pids| == |os.sched.tasks| == |os.ctxs|
  {
    && Cpu.CtxOk(os.ctxs[i])
    && os.sched.tasks[i].pid == os.vm.pids[i]
    && (os.sched.tasks[i].state == Sched.Terminated <==> !Live(os.vm, i))
  }

  ghost predicate OsInv(os: Os) {
    && Inv(os.vm) && Roomy(os.vm) && SI.SchedInv(os.sched)
    && |os.vm.pids| == |os.sched.tasks| == |os.ctxs|
    && forall i: nat | i < |os.vm.pids| :: Aligned(os, i)
  }

  // ---- Serving what stopped the CPU (OS.cpp:94-227) ------------------------------------------------------

  /** The registers a trap names are registers. */
  predicate TrapOk(c: Cpu.Ctx, outcome: Cpu.Outcome) {
    && Cpu.CtxOk(c)
    && (outcome == Cpu.Trapped(Cpu.Trap.Alloc) ==> Cpu.IsReg(c.trapRegA) && Cpu.IsReg(c.trapRegB))
    && (outcome == Cpu.Trapped(Cpu.Trap.FreeMemory) ==> Cpu.IsReg(c.trapRegA))
    && (outcome == Cpu.Trapped(Cpu.Trap.MapSharedMem) ==> 1 <= ToInt32(c.regs[15]) <= 10)
  }

  /** An Alloc that needs a frame where none can be had throws into the catch-all of run(). */
  predicate Throws(vm: Vm, i: nat, c: Cpu.Ctx, outcome: Cpu.Outcome)
    requires Shape(vm) && i < |vm.pids| && TrapOk(c, outcome)
  {
    outcome == Cpu.Trapped(Cpu.Trap.Alloc) && !CanTake(vm) && AllocPlan(vm, i, c.regs[c.trapRegA]).2 > 0
  }

  /** What the scheduler is asked to do. */
  function StopOf(c: Cpu.Ctx, outcome: Cpu.Outcome): Sched.Stop
    requires Cpu.CtxOk(c)
  {
    match outcome
    case Continue => Sched.Yield
    case Faulted(_) => Sched.Yield
    case Crashed => Sched.Stop.Exit
    case Trapped(t) =>
      match t
      case Exit => Sched.Stop.Exit
      case Sleep => Sched.Stop.Sleep(c.regs[1])
      case AcquireLock => Sched.Stop.AcquireLock(c.regs[1])
      case ReleaseLock => Sched.Stop.ReleaseLock(c.regs[1])
      case WaitEvent => Sched.Stop.WaitEvent(c.regs[1])
      case SignalEvent => Sched.Stop.SignalEvent(c.regs[1])
      case QuantumExpired | Input | Inputc | MapSharedMem | Alloc | FreeMemory => Sched.Yield
  }

  /** The paging operation served, if any. */
  function OpOf(vm: Vm, i: nat, c: Cpu.Ctx, outcome: Cpu.Outcome): Option<Op>
    requires TrapOk(c, outcome)
  {
    match outcome
    case Continue => None
    case Faulted(vp) => Some(PageFault(i, vp))
    case Crashed => Some(Op.Exit(i))
    case Trapped(t) =>
      match t
      case Exit => Some(Op.Exit(i))
      case Alloc => Some(AllocHeap(i, c.regs[c.trapRegA]))
      case FreeMemory => Some(FreeHeap(i, ToWord(c.regs[c.trapRegA])))
      case MapSharedMem =>
        var region := ToInt32(c.regs[1]);
        if 0 <= region < |vm.shared| then Some(MapRegion(i, region)) else None
      case _ => None
  }

  /** The paging half of serving a trap or fault. */
  function Served(vm: Vm, i: nat, c: Cpu.Ctx, outcome: Cpu.Outcome): (r: Vm)
    requires Shape(vm) && i < |vm.pids| && TrapOk(c, outcome)
    requires outcome.Faulted? ==> CanTake(vm)
    ensures Shape(r)
  {
    match outcome
    case Continue => vm
    case Faulted(vp) => PageIn(vm, i, vp)
    case Crashed => Cleanup(vm, i)
    case Trapped(t) =>
      match t
      case Exit => Cleanup(vm, i)
      case Alloc => if CanTake(vm) then Alloc(vm, i, c.regs[c.trapRegA]).0 else AllocPlan(vm, i, c.regs[c.trapRegA]).0
      case FreeMemory => Free(vm, i, ToWord(c.regs[c.trapRegA]))
      case MapSharedMem =>
        var region := ToInt32(c.regs[1]);
        if 0 <= region < |vm.shared| then MapShared(vm, i, region) else vm
      case _ => vm
  }

  /** The saved context with the results of the call in it. */
  function Answered(vm: Vm, i: nat, c: Cpu.Ctx, outcome: Cpu.Outcome): (d: Cpu.Ctx)
    requires Shape(vm) && i < |vm.pids| && TrapOk(c, outcome)
    ensures Cpu.CtxOk(d)
  {
    if outcome == Cpu.Trapped(Cpu.Trap.Alloc) then
      Cpu.SetReg(c, c.trapRegB, if CanTake(vm) then Alloc(vm, i, c.regs[c.trapRegA]).1 else 0)
    else if outcome == Cpu.Trapped(Cpu.Trap.MapSharedMem) && 0 <= ToInt32(c.regs[1]) < |vm.shared| then
      Cpu.SetReg(c, ToInt32(c.regs[15]), (SHARED_PAGE + ToInt32(c.regs[1])) * PAGE_SIZE)
    else c
  }

  function SpaceOf(vm: Vm, i: nat): Cpu.Space
    requires Shape(vm) && i < |vm.pids|
  {
    Cpu.Space(vm.mem, i, vm.sizes[i])
  }

  /** Runs process i for a quantum and serves what stopped it. */
  function Dispatch(os: Os, i: nat): Turned
    requires Shape(os.vm) && Sched.Sized(os.sched) && Sched.QueuesOk(os.sched)
    requires i < |os.vm.pids| == |os.sched.tasks| == |os.ctxs| && Cpu.CtxOk(os.ctxs[i])
  {
    hide Cpu.RunSteps, Alloc, PageIn, Cleanup, Free, MapShared, CanTake;
    var r := Cpu.RunSteps(os.ctxs[i], SpaceOf(os.vm, i), QUANTUM);
    var vm1 := os.vm.(mem := r.mem);
    RunTraps(os.ctxs[i], SpaceOf(os.vm, i), QUANTUM);
    var outcome := if Throws(vm1, i, r.ctx, r.outcome) then Cpu.Crashed else r.outcome;
    if outcome.Faulted? && !CanTake(vm1) then Escaped
    else
      Next(Os(Served(vm1, i, r.ctx, outcome),
              Sched.Handle(os.sched, i, StopOf(r.ctx, outcome)),
              os.ctxs[i := Answered(vm1, i, r.ctx, outcome)]))
  }

  /** Only an instruction that checked its registers traps. */
  lemma StepTraps(c: Cpu.Ctx, sp: Cpu.Space)
    requires Cpu.CtxOk(c) && Cpu.SpaceOk(sp)
    ensures TrapOk(Cpu.CpuStep(c, sp).ctx, Cpu.CpuStep(c, sp).outcome)
  {
    hide Cpu.Fetch, Cpu.Read32, Cpu.Write32, Isa.Decode;
  }

  lemma {:induction false} RunTraps(c: Cpu.Ctx, sp: Cpu.Space, n: nat)
    requires Cpu.CtxOk(c) && Cpu.SpaceOk(sp)
    ensures TrapOk(Cpu.RunSteps(c, sp, n).ctx, Cpu.RunSteps(c, sp, n).outcome)
    decreases n
  {
    hide Cpu.CpuStep;
    if n > 0 {
      StepTraps(c, sp);
      var r := Cpu.CpuStep(c, sp);
      if r.outcome == Cpu.Continue { RunTraps(r.ctx, sp.(mem := r.mem), n - 1); }
    }
  }

  /** One turn of the loop of run() (OS.cpp:83-228). */
  function Turn(os: Os): Turned
    requires OsInv(os)
  {
    hide Inv, Sched.Tick, Dispatch;
    InvShape(os.vm);
    var s := Picked(os.sched);
    match s.1
    case None => if s.0.sleeping == [] then Returned(os.(sched := s.0)) else Next(os.(sched := s.0))
    case Some(i) =>
      assert Aligned(os, i);
      if s.0.tasks[i].state == Sched.Terminated then Next(os.(sched := s.0))
      else Dispatch(os.(sched := Sched.SetState(s.0, i, Sched.Running)), i)
  }

  /** tickSleepers_, then pickNextReady_. */
  function Picked(s: Sched.Sched): (r: (Sched.Sched, Option<nat>))
    requires SI.SchedInv(s)
    ensures Sched.Sized(r.0) && |r.0.tasks| == |s.tasks|
    ensures r.1.Some? ==> r.1.value < |s.tasks| && Sched.QueuesOk(Sched.SetState(r.0, r.1.value, Sched.Running))
    ensures r.1.Some? ==> SI.Serving(Sched.SetState(r.0, r.1.value, Sched.Running), {r.1.value}, {})
    ensures r.1.None? ==> SI.SchedInv(r.0)
  {
    PickedServes(s);
    SI.ServingQueues(s, {}, {});
    Sched.PickNext(Sched.Tick(s))
  }

  lemma PickedServes(s: Sched.Sched)
    requires SI.SchedInv(s)
    ensures Sched.Below(s.sleeping, |s.tasks|)
    ensures var (r, next) := Sched.PickNext(Sched.Tick(s));
      && |r.tasks| == |s.tasks|
      && (next.Some? ==> next.value < |s.tasks|)
      && (next.Some? ==> SI.Serving(Sched.SetState(r, next.value, Sched.Running), {next.value}, {}))
      && (next.Some? ==> Sched.QueuesOk(Sched.SetState(r, next.value, Sched.Running)))
      && (next.None? ==> SI.SchedInv(r))
  {
    SI.ServingQueues(s, {}, {});
    SI.TickServes(s, |s.sleeping|);
    var (r, next) := Sched.PickNext(Sched.Tick(s));
    if next.Some? {
      SI.PickServes(Sched.Tick(s));
      var i := next.value;
      SI.BusyRecord(r, {i}, {}, i, r.tasks[i].(state := Sched.Running));
      SI.ServingQueues(Sched.SetState(r, i, Sched.Running), {i}, {});
    }
  }
}
