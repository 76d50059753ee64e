/** How a dispatch ends: which service each system call, fault and exception of a process reaches, and with what. */
module Dispatches {
  import opened Basics
  import opened Memory
  import opened Paging
  import opened FrameInvariant
  import opened PagingRuns
  import opened FlatMemory
  import opened Instructions
  import opened Processor
  import opened FlatInstructions
  import opened Windows
  import opened InstructionLaws
  import opened KernelRuns
  import K = Kernel
  import Sched = Scheduling
  import LockLaws
  import LP = LoadedProgram
  import SI = SchedulerInvariant
  import SP = StackProperty

  // ---- The end of a quantum -------------------------------------------------------------------------------------------

  /** What run() has when it dispatches process i. */
  ghost predicate Dispatched(os: K.Os, i: nat) {
    && Inv(os.vm) && Roomy(os.vm) && Shape(os.vm) && SI.Serving(os.sched, {i}, {}) && Sched.QueuesOk(os.sched)
    && i < |os.vm.pids| == |os.sched.tasks| == |os.ctxs| && CtxOk(os.ctxs[i]) && Live(os.vm, i)
  }

  /** After k instructions of its quantum of fifty, none of which stopped it, process i is at v and d. */
  ghost predicate GetsTo(os: K.Os, i: nat, k: nat, v: Vm, d: Ctx)
    requires Dispatched(os, i)
  {
    && k < 50 && FullRun(os.ctxs[i], K.SpaceOf(os.vm, i), k)
    && var r := RunSteps(os.ctxs[i], K.SpaceOf(os.vm, i), k); v == os.vm.(mem := r.mem) && d == r.ctx
  }

  /** The invariant holds there. */
  lemma RanThere(os: K.Os, i: nat, k: nat, v: Vm, d: Ctx)
    requires Dispatched(os, i) && GetsTo(os, i, k, v, d)
    ensures Inv(v) && Shape(v) && i < |v.pids| && CtxOk(d) && Live(v, i)
  {
    hide Inv, Roomy, Live, RunSteps, FullRun, Reaches, StepsTrace, AllPages, SI.Serving;
    var vm, c := os.vm, os.ctxs[i];
    ReachStart(vm, i, AllPages());
    ReachSteps(vm, i, [], vm.mem, c, k);
    var ops := StepsTrace(c, K.SpaceOf(vm, i), k);
    assert [] + ops == ops;
    ReachMeans(vm, i, ops, v.mem, AllPages());
    RunKeepsInv(vm, ops);
  }

  /** A quantum ends where its first instruction that does not complete does. */
  lemma {:induction false} StopsThere(c: Ctx, sp: Space, k: nat, n: nat)
    requires CtxOk(c) && SpaceOk(sp) && FullRun(c, sp, k) && k < n
    ensures var r := RunSteps(c, sp, k); var t := CpuStep(r.ctx, sp.(mem := r.mem));
      t.outcome != Continue ==> RunSteps(c, sp, n) == t
    decreases k
  {
    hide CpuStep;
    if k > 0 {
      var r := CpuStep(c, sp);
      StopsThere(r.ctx, sp.(mem := r.mem), k - 1, n - 1);
    }
  }

  /** The dispatch, from the instruction that stopped the process. */
  lemma ServedThere(os: K.Os, i: nat, k: nat, v: Vm, d: Ctx)
    requires Dispatched(os, i) && GetsTo(os, i, k, v, d)
    ensures Inv(v) && Shape(v) && i < |v.pids| && CtxOk(d)
    ensures var t := CpuStep(d, SpaceOf(v, i)); var w := v.(mem := t.mem);
      t.outcome != Continue ==>
        && Inv(w) && Shape(w) && Live(w, i) && CanTake(w) && K.TrapOk(t.ctx, t.outcome)
        && var r := K.Dispatch(os, i);
           && r.Next? && r.os.sched == Sched.Handle(os.sched, i, K.StopOf(t.ctx, t.outcome))
           && r.os.vm == K.Served(w, i, t.ctx, t.outcome)
           && r.os.ctxs == os.ctxs[i := K.Answered(w, i, t.ctx, t.outcome)]
  {
    hide Inv, Roomy, Live, CpuStep, RunSteps, FullRun, Sched.Handle, K.Served, K.Answered, K.StopOf, CanTake, K.TrapOk,
         SI.Serving;
    RanThere(os, i, k, v, d);
    StopsThere(os.ctxs[i], K.SpaceOf(os.vm, i), k, K.QUANTUM);
    RanKeepsInv(os.vm, i, os.ctxs[i]);
  }

  /** A quantum in which nothing stops the process ends after exactly fifty instructions; it goes to the back of its
      ready queue with the context it has then. */
  lemma QuantumIsFifty(os: K.Os, i: nat)
    requires Dispatched(os, i) && FullRun(os.ctxs[i], K.SpaceOf(os.vm, i), 50)
    ensures var r, s := K.Dispatch(os, i), RunSteps(os.ctxs[i], K.SpaceOf(os.vm, i), 50);
      && r.Next? && LockLaws.Readied(os.sched, r.os.sched, [i]) && r.os.vm == os.vm.(mem := s.mem)
      && r.os.ctxs == os.ctxs[i := s.ctx]
  {
    hide Inv, Roomy, Live, CpuStep, FullRun, RunSteps;
    OneMoreStep(os.ctxs[i], K.SpaceOf(os.vm, i), 50);
    LockLaws.ReadiedOne(os.sched, i);
  }

  // ---- Exceptions -------------------------------------------------------------------------------------------------------

  /** Of a dispatch that gets to this context: an access outside the windows, an unknown opcode or a bad register ends
      the process; a byte in a window that is not resident has its page brought in, and the process is ready to try
      again. */
  lemma ExceptionsReach(os: K.Os, i: nat, k: nat, v: Vm, d: Ctx)
    requires Dispatched(os, i) && GetsTo(os, i, k, v, d)
    ensures Inv(v) && Shape(v) && i < |v.pids| && CtxOk(d)
    ensures var r, verdict := K.Dispatch(os, i), StepVerdict(v, i, d);
      && (verdict == Crashed ==>
            r.Next? && |r.os.sched.tasks| == |os.sched.tasks| && r.os.sched.tasks[i].state == Sched.Terminated
            && Shape(r.os.vm) && !Live(r.os.vm, i))
      && (verdict.Faulted? ==>
            && r.Next? && LockLaws.Readied(os.sched, r.os.sched, [i]) && Shape(r.os.vm)
            && Entry(r.os.vm.mem, i, verdict.vpage).isValid
            && |r.os.ctxs| == |os.ctxs| && CtxOk(r.os.ctxs[i]) && r.os.ctxs[i].ip == d.ip && r.os.ctxs[i].regs == d.regs)
  {
    hide Inv, Roomy, Live, RunSteps, FullRun, CanTake, StepVerdict, CpuStep, SI.Serving, Sched.Handle, PageIn, Cleanup,
         LockLaws.Readied;
    RanThere(os, i, k, v, d);
    StepEnds(v, i, d);
    ServedThere(os, i, k, v, d);
    var verdict := StepVerdict(v, i, d);
    if verdict == Crashed {
      ExitEnds(os, i, v.(mem := CpuStep(d, SpaceOf(v, i)).mem));
    } else if verdict.Faulted? {
      FaultCtx(v, i, d);
      var t := CpuStep(d, SpaceOf(v, i));
      var w := v.(mem := t.mem);
      StepFault(d, SpaceOf(v, i));
      InMaps(w, i, verdict.vpage);
      Yields(os, i);
    }
  }

  lemma Yields(os: K.Os, i: nat)
    requires Dispatched(os, i)
    ensures LockLaws.Readied(os.sched, Sched.Handle(os.sched, i, Sched.Yield), [i])
  {
    hide LockLaws.Readied;
    LockLaws.ReadiedOne(os.sched, i);
  }

  lemma InMaps(w: Vm, i: nat, vp: nat)
    requires Inv(w) && Shape(w) && i < |w.pids| && Live(w, i) && CanTake(w) && !Entry(w.mem, i, vp).isValid
    ensures Entry(PageIn(w, i, vp).mem, i, vp).isValid
  {
    hide Inv, PageIn, CanTake;
    SP.PageInMaps(w, i, vp);
  }

  lemma ExitEnds(os: K.Os, i: nat, w: Vm)
    requires Dispatched(os, i) && Shape(w) && i < |w.pids|
    ensures var r := Sched.Handle(os.sched, i, Sched.Stop.Exit);
      |r.tasks| == |os.sched.tasks| && r.tasks[i].state == Sched.Terminated
    ensures Shape(Cleanup(w, i)) && !Live(Cleanup(w, i), i)
  {
    hide SI.Serving, Sched.Handle, Inv;
    HandleStatus(os.sched, i, Sched.Stop.Exit, i);
  }

  lemma FaultCtx(v: Vm, i: nat, d: Ctx)
    requires Inv(v) && Shape(v) && i < |v.pids| && CtxOk(d) && CpuStep(d, SpaceOf(v, i)).outcome.Faulted?
    ensures var t := CpuStep(d, SpaceOf(v, i)); t.ctx.ip == d.ip && t.ctx.regs == d.regs
  {
    hide Inv, Fetch, Decode, Read32, Write32, ReadByte;
  }

  // ---- System calls --------------------------------------------------------------------------------------------------

  /** What the scheduler is asked for by a system call. Sleep, AcquireLock, ReleaseLock, WaitEvent and SignalEvent look
      at register 1, whichever register the line names; their immediate forms put their operand there first. */
  function Asked(line: Line, regs: seq<int>): Sched.Stop
    requires |regs| == 16 && (line.op in {AcquireLockI, ReleaseLockI, WaitEventI, SignalEventI} ==>
                                |line.args| > 0 && line.args[0].Imm?)
  {
    match line.op
    case Exit => Sched.Stop.Exit
    case Sleep => Sched.Stop.Sleep(regs[1])
    case AcquireLock => Sched.Stop.AcquireLock(regs[1])
    case ReleaseLock => Sched.Stop.ReleaseLock(regs[1])
    case WaitEvent => Sched.Stop.WaitEvent(regs[1])
    case SignalEvent => Sched.Stop.SignalEvent(regs[1])
    case AcquireLockI => Sched.Stop.AcquireLock(line.args[0].w)
    case ReleaseLockI => Sched.Stop.ReleaseLock(line.args[0].w)
    case WaitEventI => Sched.Stop.WaitEvent(line.args[0].w)
    case SignalEventI => Sched.Stop.SignalEvent(line.args[0].w)
    case _ => Sched.Yield
  }

  /** A line that leads to the scheduler alone. */
  predicate SchedulerCall(line: Line) {
    || (line.op in {Opcode.Sleep, Opcode.AcquireLock, Opcode.ReleaseLock, Opcode.WaitEvent, Opcode.SignalEvent, Opcode.Input,
                   Opcode.Inputc}
        && |line.args| == 1 && line.args[0].Reg? && 1 <= line.args[0].n <= 10)
    || (line.op in {AcquireLockI, ReleaseLockI, WaitEventI, SignalEventI} && |line.args| == 1 && line.args[0].Imm?)
  }

  /** The context a trapping line leaves. */
  function TrapCtx(line: Line, d: Ctx): (e: Ctx)
    requires CtxOk(d) && SchedulerCall(line)
    ensures CtxOk(e)
  {
    var next := d.(ip := ToWord(d.ip + 12));
    if line.args[0].Imm? then next.(regs := d.regs[1 := line.args[0].w]) else next
  }

  /** A dispatch of process i gets, with its memory at v and its context d, to this line. */
  ghost predicate Calling(os: K.Os, i: nat, k: nat, v: Vm, d: Ctx, line: Line) {
    Dispatched(os, i) && GetsTo(os, i, k, v, d) && AtLine(v, i, d, line)
  }

  /** Then w is v after the fetch, the same bytes in the same pages; and these are what is asked of the paging system and
      of the scheduler, and the context saved. */
  ghost predicate Answers(os: K.Os, i: nat, v: Vm, w: Vm, after: Vm, stop: Sched.Stop, saved: Ctx)
    requires i < |os.ctxs| && Sched.Sized(os.sched) && Sched.QueuesOk(os.sched) && i < |os.sched.tasks|
    requires Shape(os.vm) && i < |os.vm.pids| && |os.vm.pids| == |os.sched.tasks| == |os.ctxs| && CtxOk(os.ctxs[i])
  {
    hide K.Dispatch, Sched.Handle;
    && w == v.(mem := w.mem) && Unchanged(v, i, w.mem)
    && K.Dispatch(os, i) == K.Next(K.Os(after, Sched.Handle(os.sched, i, stop), os.ctxs[i := saved]))
  }

  lemma CallingMeans(os: K.Os, i: nat, k: nat, v: Vm, d: Ctx, line: Line)
    requires Calling(os, i, k, v, d, line)
    ensures Dispatched(os, i) && GetsTo(os, i, k, v, d) && AtLine(v, i, d, line)
    ensures Shape(os.vm) && Sched.Sized(os.sched) && Sched.QueuesOk(os.sched)
    ensures i < |os.vm.pids| == |os.sched.tasks| == |os.ctxs| && CtxOk(os.ctxs[i])
    ensures CtxOk(d) && Inv(v) && Shape(v) && i < |v.pids|
  {}

  /** The trap of a line that leads to the scheduler alone. */
  function TrapOf(line: Line): Trap
    requires SchedulerCall(line)
  {
    match line.op
    case Sleep => Trap.Sleep
    case Input => Trap.Input
    case Inputc => Trap.Inputc
    case AcquireLock | AcquireLockI => Trap.AcquireLock
    case ReleaseLock | ReleaseLockI => Trap.ReleaseLock
    case WaitEvent | WaitEventI => Trap.WaitEvent
    case _ => Trap.SignalEvent
  }

  lemma TrapEffect(d: Ctx, line: Line)
    requires CtxOk(d) && SchedulerCall(line)
    ensures Operands(line.op, line.args).Some?
    ensures var (a, b) := Operands(line.op, line.args).value;
      RegsOk(line.op, a, b) && EffectOf(d.(ip := At(d.ip, 12)), line.op, a, b) == Plain(TrapCtx(line, d), Trapped(TrapOf(line)))
  {
    hide ToWord;
  }

  lemma TrapStop(d: Ctx, line: Line)
    requires CtxOk(d) && SchedulerCall(line)
    ensures K.StopOf(TrapCtx(line, d), Trapped(TrapOf(line))) == Asked(line, d.regs)
    ensures TrapOf(line) !in {Trap.Exit, Trap.Alloc, Trap.FreeMemory, Trap.MapSharedMem}
  {
    hide ToWord;
  }

  /** What a trap comes to that asks nothing of the paging system. */
  lemma OtherTraps(w: Vm, i: nat, e: Ctx, t: Trap)
    requires Shape(w) && i < |w.pids| && CtxOk(e) && t !in {Trap.Exit, Trap.Alloc, Trap.FreeMemory, Trap.MapSharedMem}
    ensures K.TrapOk(e, Trapped(t)) && K.Served(w, i, e, Trapped(t)) == w && K.Answered(w, i, e, Trapped(t)) == e
  {
    hide Paging.Alloc, CanTake, PageIn;
  }

  /** A dispatch that gets to one of these lines: the scheduler serves exactly that call, memory is as the process left
      it, and the process goes on after the line. */
  lemma SchedulerCallsReach(os: K.Os, i: nat, k: nat, v: Vm, d: Ctx, line: Line) returns (w: Vm)
    requires Calling(os, i, k, v, d, line) && SchedulerCall(line)
    ensures Answers(os, i, v, w, w, Asked(line, d.regs), TrapCtx(line, d))
  {
    hide Inv, Roomy, Live, CanTake, CpuStep, SI.Serving, AtLine, Unchanged, GetsTo, Dispatched, Calling, Shape, EffectOf,
         TrapCtx, TrapOf, Asked, K.Served, K.Answered, K.StopOf, K.TrapOk, Operands, RegsOk, Sched.Sized, Sched.QueuesOk;
    CallingMeans(os, i, k, v, d, line);
    TrapEffect(d, line);
    TrapStop(d, line);
    PlainStep(v, i, d, line, TrapCtx(line, d), Trapped(TrapOf(line)));
    ServedThere(os, i, k, v, d);
    w := v.(mem := CpuStep(d, SpaceOf(v, i)).mem);
    OtherTraps(w, i, TrapCtx(line, d), TrapOf(line));
  }

  /** Exit ends the process. */
  lemma ExitReaches(os: K.Os, i: nat, k: nat, v: Vm, d: Ctx) returns (w: Vm)
    requires Calling(os, i, k, v, d, Line(Opcode.Exit, []))
    ensures Shape(w) && i < |w.pids|
    ensures Answers(os, i, v, w, Cleanup(w, i), Sched.Stop.Exit, d.(ip := ToWord(d.ip + 12)))
    ensures !Live(Cleanup(w, i), i)
  {
    hide Inv, Roomy, Live, CanTake, CpuStep, SI.Serving, AtLine, Unchanged, GetsTo, Dispatched, Calling, Cleanup,
         Sched.Sized, Sched.QueuesOk;
    var line, e := Line(Opcode.Exit, []), d.(ip := ToWord(d.ip + 12));
    CallingMeans(os, i, k, v, d, line);
    PlainStep(v, i, d, line, e, Trapped(Trap.Exit));
    ServedThere(os, i, k, v, d);
    w := v.(mem := CpuStep(d, SpaceOf(v, i)).mem);
    ExitEnds(os, i, w);
  }

  /** Alloc is asked for the bytes its first register holds, and answers in its second. */
  lemma AllocReaches(os: K.Os, i: nat, k: nat, v: Vm, d: Ctx, a: nat, b: nat) returns (w: Vm)
    requires 1 <= a <= 10 && 1 <= b <= 10 && Calling(os, i, k, v, d, Line(Opcode.Alloc, [Reg(a), Reg(b)]))
    ensures Shape(w) && i < |w.pids| && CanTake(w)
    ensures Answers(os, i, v, w, Paging.Alloc(w, i, d.regs[a]).0, Sched.Yield,
                    d.(ip := ToWord(d.ip + 12), trapRegA := a, trapRegB := b,
                       regs := d.regs[b := Paging.Alloc(w, i, d.regs[a]).1]))
  {
    hide Inv, Roomy, Live, CanTake, CpuStep, SI.Serving, AtLine, Unchanged, GetsTo, Dispatched, Calling, Paging.Alloc,
         EffectOf, RegsOk, Operands, K.Served, K.Answered, K.StopOf, K.TrapOk, Sched.Sized, Sched.QueuesOk, Shape;
    var line, e := Line(Opcode.Alloc, [Reg(a), Reg(b)]), d.(ip := ToWord(d.ip + 12), trapRegA := a, trapRegB := b);
    CallingMeans(os, i, k, v, d, line);
    AllocEffect(d, a, b);
    PlainStep(v, i, d, line, e, Trapped(Trap.Alloc));
    ServedThere(os, i, k, v, d);
    w := v.(mem := CpuStep(d, SpaceOf(v, i)).mem);
    AllocAnswer(w, i, e, a, b);
  }

  lemma AllocEffect(d: Ctx, a: nat, b: nat)
    requires CtxOk(d) && 1 <= a <= 10 && 1 <= b <= 10
    ensures Operands(Opcode.Alloc, [Reg(a), Reg(b)]) == Some((a, b)) && RegsOk(Opcode.Alloc, a, b)
    ensures EffectOf(d.(ip := At(d.ip, 12)), Opcode.Alloc, a, b) ==
            Plain(d.(ip := ToWord(d.ip + 12), trapRegA := a, trapRegB := b), Trapped(Trap.Alloc))
  {}

  lemma AllocAnswer(w: Vm, i: nat, e: Ctx, a: nat, b: nat)
    requires Shape(w) && i < |w.pids| && CanTake(w) && CtxOk(e) && 1 <= a <= 10 && 1 <= b <= 10
    requires e.trapRegA == a && e.trapRegB == b
    ensures var o := Trapped(Trap.Alloc);
      && K.TrapOk(e, o) && K.StopOf(e, o) == Sched.Yield && K.Served(w, i, e, o) == Paging.Alloc(w, i, e.regs[a]).0
      && K.Answered(w, i, e, o) == e.(regs := e.regs[b := Paging.Alloc(w, i, e.regs[a]).1])
  {
    hide Paging.Alloc, CanTake, PageIn;
  }

  /** FreeMemory frees the address its register holds, cut to 32 bits. */
  lemma FreeReaches(os: K.Os, i: nat, k: nat, v: Vm, d: Ctx, a: nat) returns (w: Vm)
    requires 1 <= a <= 10 && Calling(os, i, k, v, d, Line(Opcode.FreeMemory, [Reg(a)]))
    ensures Shape(w) && i < |w.pids|
    ensures Answers(os, i, v, w, Free(w, i, ToWord(d.regs[a])), Sched.Yield, d.(ip := ToWord(d.ip + 12), trapRegA := a))
  {
    hide Inv, Roomy, Live, CanTake, CpuStep, SI.Serving, AtLine, Unchanged, GetsTo, Dispatched, Calling, Free,
         EffectOf, RegsOk, Operands, K.Served, K.Answered, K.StopOf, K.TrapOk, Sched.Sized, Sched.QueuesOk, Shape;
    var line, e := Line(Opcode.FreeMemory, [Reg(a)]), d.(ip := ToWord(d.ip + 12), trapRegA := a);
    CallingMeans(os, i, k, v, d, line);
    FreeEffect(d, a);
    PlainStep(v, i, d, line, e, Trapped(Trap.FreeMemory));
    ServedThere(os, i, k, v, d);
    w := v.(mem := CpuStep(d, SpaceOf(v, i)).mem);
    FreeAnswer(w, i, e, a);
  }

  lemma FreeEffect(d: Ctx, a: nat)
    requires CtxOk(d) && 1 <= a <= 10
    ensures Operands(Opcode.FreeMemory, [Reg(a)]) == Some((a, 0)) && RegsOk(Opcode.FreeMemory, a, 0)
    ensures EffectOf(d.(ip := At(d.ip, 12)), Opcode.FreeMemory, a, 0) ==
            Plain(d.(ip := ToWord(d.ip + 12), trapRegA := a), Trapped(Trap.FreeMemory))
  {}

  lemma FreeAnswer(w: Vm, i: nat, e: Ctx, a: nat)
    requires Shape(w) && i < |w.pids| && CtxOk(e) && 1 <= a <= 10 && e.trapRegA == a
    ensures var o := Trapped(Trap.FreeMemory);
      && K.TrapOk(e, o) && K.StopOf(e, o) == Sched.Yield && K.Served(w, i, e, o) == Free(w, i, ToWord(e.regs[a]))
      && K.Answered(w, i, e, o) == e
  {
    hide Free, CanTake, PageIn, Paging.Alloc;
  }

  /** The context MapSharedMem leaves in its second register b. */
  function MapCtx(d: Ctx, b: nat): (e: Ctx)
    requires CtxOk(d) && 1 <= b <= 10
    ensures CtxOk(e)
  {
    var e, region := d.(ip := ToWord(d.ip + 12), regs := d.regs[15 := b]), ToInt32(d.regs[1]);
    if region == 0 then e.(regs := e.regs[b := 0xE000])
    else if region == 1 then e.(regs := e.regs[b := 0xE100])
    else e
  }

  /** MapSharedMem maps the region register 1 holds, whichever register the line names first, and answers in its second
      register; a number that names no region is ignored. */
  lemma MapReaches(os: K.Os, i: nat, k: nat, v: Vm, d: Ctx, a: nat, b: nat) returns (w: Vm)
    requires 1 <= a <= 10 && 1 <= b <= 10 && Calling(os, i, k, v, d, Line(Opcode.MapSharedMem, [Reg(a), Reg(b)]))
    ensures Shape(w) && i < |w.pids|
    ensures var region := ToInt32(d.regs[1]);
      Answers(os, i, v, w, if 0 <= region < 2 then MapShared(w, i, region) else w, Sched.Yield, MapCtx(d, b))
  {
    hide Inv, Roomy, Live, CanTake, CpuStep, SI.Serving, AtLine, Unchanged, GetsTo, Dispatched, Calling, MapShared, MapCtx,
         EffectOf, RegsOk, Operands, Sched.Sized, Sched.QueuesOk, K.Served, K.Answered, K.StopOf, K.TrapOk;
    var line := Line(Opcode.MapSharedMem, [Reg(a), Reg(b)]);
    CallingMeans(os, i, k, v, d, line);
    var e := d.(ip := ToWord(d.ip + 12), regs := d.regs[15 := b]);
    MapEffect(d, a, b);
    PlainStep(v, i, d, line, e, Trapped(Trap.MapSharedMem));
    ServedThere(os, i, k, v, d);
    w := v.(mem := CpuStep(d, SpaceOf(v, i)).mem);
    MapAnswer(w, i, d, b);
  }

  lemma MapAnswer(w: Vm, i: nat, d: Ctx, b: nat)
    requires Shape(w) && i < |w.pids| && CtxOk(d) && 1 <= b <= 10
    ensures var e, o, region := d.(ip := ToWord(d.ip + 12), regs := d.regs[15 := b]), Trapped(Trap.MapSharedMem), ToInt32(d.regs[1]);
      && K.TrapOk(e, o) && K.Answered(w, i, e, o) == MapCtx(d, b) && K.StopOf(e, o) == Sched.Yield
      && K.Served(w, i, e, o) == if 0 <= region < 2 then MapShared(w, i, region) else w
  {
    hide MapShared, PageIn, CanTake, Paging.Alloc;
    assert ToInt32(b) == b;
  }

  lemma MapEffect(d: Ctx, a: nat, b: nat)
    requires CtxOk(d) && 1 <= a <= 10 && 1 <= b <= 10
    ensures Operands(Opcode.MapSharedMem, [Reg(a), Reg(b)]) == Some((a, b)) && RegsOk(Opcode.MapSharedMem, a, b)
    ensures EffectOf(d.(ip := At(d.ip, 12)), Opcode.MapSharedMem, a, b) ==
            Plain(d.(ip := ToWord(d.ip + 12), regs := d.regs[15 := b]), Trapped(Trap.MapSharedMem))
  {}
}
