/** Every run of the whole system is a run of the paging system and a run of the scheduler, so what
    holds of those holds of the whole; no exception leaves run(); processes are isolated. */
module KernelRuns {
  import opened Basics
  import opened Memory
  import opened Paging
  import opened FrameInvariant
  import opened PagingRuns
  import opened FlatMemory
  import opened Kernel
  import opened Restart
  import opened Leaks
  import Cpu = Processor
  import Isa = Instructions
  import Sched = Scheduling
  import SI = SchedulerInvariant
  import SR = SchedulerRuns

  // ---- The CPU's memory accesses as paging operations --------------------------------------------------

  /** All these operations are byte accesses of process i to these pages. */
  ghost predicate Accesses(ops: seq<Op>, i: nat, pages: iset<nat>) {
    forall op | op in ops :: (op.Read? || op.Write?) && op.proc == i && op.vaddr / PAGE_SIZE in pages
  }

  /** Such accesses `ops` take vm to memory m. */
  ghost predicate Reaches(vm: Vm, i: nat, ops: seq<Op>, m: Mem, pages: iset<nat>)
    requires Shape(vm) && i < |vm.pids|
  {
    Accesses(ops, i, pages) && Run(vm, ops) == vm.(mem := m) && Live(vm.(mem := m), i) && |m.tables| == |vm.mem.tables|
  }

  /** The byte accesses of a word read, in order, up to one that faults or fails. */
  function ReadTrace(sp: Cpu.Space, va: Word): seq<Op>
    requires Cpu.SpaceOk(sp)
  {
    var i, n := sp.proc, sp.codeSize;
    var r0 := ReadByte(sp.mem, i, n, va);
    if !r0.Done? then [Read(i, va)] else
    var r1 := ReadByte(r0.mem, i, n, Cpu.At(va, 1));
    if !r1.Done? then [Read(i, va), Read(i, Cpu.At(va, 1))] else
    var r2 := ReadByte(r1.mem, i, n, Cpu.At(va, 2));
    if !r2.Done? then [Read(i, va), Read(i, Cpu.At(va, 1)), Read(i, Cpu.At(va, 2))] else
    [Read(i, va), Read(i, Cpu.At(va, 1)), Read(i, Cpu.At(va, 2)), Read(i, Cpu.At(va, 3))]
  }

  /** The byte accesses of the first n bytes of a word write, up to one that faults or fails. */
  function WriteTrace(sp: Cpu.Space, va: Word, w: Word, n: nat): seq<Op>
    requires Cpu.SpaceOk(sp) && n <= 4
  {
    if n == 0 then []
    else
      WriteTrace(sp, va, w, n - 1) +
      if Cpu.WriteBytes(sp, va, w, n - 1).Done? then [Write(sp.proc, Cpu.At(va, n - 1), Isa.WordByte(w, n - 1))] else []
  }

  function FetchTrace(sp: Cpu.Space, ip: Word): seq<Op>
    requires Cpu.SpaceOk(sp)
  {
    var r0 := Cpu.Read32(sp, ip);
    if !r0.Done? then ReadTrace(sp, ip) else
    var r1 := Cpu.Read32(sp.(mem := r0.mem), Cpu.At(ip, 4));
    if !r1.Done? then ReadTrace(sp, ip) + ReadTrace(sp.(mem := r0.mem), Cpu.At(ip, 4)) else
    ReadTrace(sp, ip) + ReadTrace(sp.(mem := r0.mem), Cpu.At(ip, 4)) + ReadTrace(sp.(mem := r1.mem), Cpu.At(ip, 8))
  }

  /** The byte accesses of an effect. */
  function PerformTrace(e: Cpu.Effect, sp: Cpu.Space): seq<Op>
    requires Cpu.SpaceOk(sp)
  {
    match e
    case Plain(_, _) => []
    case Load(addr, _) => ReadTrace(sp, addr)
    case LoadByte(addr) => [Read(sp.proc, addr)]
    case Store(addr, val, _, _) => WriteTrace(sp, addr, val, 4)
    case Move(src, dst, _) =>
      var r := Cpu.Read32(sp, src);
      ReadTrace(sp, src) + if r.Done? then WriteTrace(sp.(mem := r.mem), dst, r.val, 4) else []
    case StoreThenJump(addr, val, _, target) =>
      var w := Cpu.Write32(sp, addr, val);
      WriteTrace(sp, addr, val, 4) + if w.Done? then ReadTrace(sp.(mem := w.mem), target) else []
  }

  /** The byte accesses of one CPU step: the fetch, then what the instruction does. */
  function StepTrace(c: Cpu.Ctx, sp: Cpu.Space): seq<Op>
    requires Cpu.SpaceOk(sp) && Cpu.CtxOk(c)
  {
    var f, d := Cpu.Fetch(sp, c.ip), c.(ip := Cpu.At(c.ip, 12));
    FetchTrace(sp, c.ip) +
    if f.Done? && Isa.Decode(f.val.0).Some? && Cpu.RegsOk(Isa.Decode(f.val.0).value, f.val.1, f.val.2)
    then PerformTrace(Cpu.EffectOf(d, Isa.Decode(f.val.0).value, f.val.1, f.val.2), sp.(mem := f.mem)) else []
  }

  /** The byte accesses of at most n steps. */
  function StepsTrace(c: Cpu.Ctx, sp: Cpu.Space, n: nat): seq<Op>
    requires Cpu.SpaceOk(sp) && Cpu.CtxOk(c)
    decreases n
  {
    hide Cpu.CpuStep;
    if n == 0 then []
    else
      var r := Cpu.CpuStep(c, sp);
      StepTrace(c, sp) + if r.outcome == Cpu.Continue then StepsTrace(r.ctx, sp.(mem := r.mem), n - 1) else []
  }

  lemma Join(a: seq<Op>, b: seq<Op>, c: seq<Op>)
    ensures a + b + c == a + (b + c)
  {}

  ghost predicate WordIn(va: Word, pages: iset<nat>) {
    forall k | 0 <= k < 4 :: Cpu.At(va, k) / PAGE_SIZE in pages
  }

  lemma ReachStart(vm: Vm, i: nat, pages: iset<nat>)
    requires Shape(vm) && i < |vm.pids| && Live(vm, i)
    ensures Reaches(vm, i, [], vm.mem, pages)
  {}

  lemma ReachOne(vm: Vm, i: nat, ops: seq<Op>, m: Mem, op: Op, pages: iset<nat>)
    requires Shape(vm) && i < |vm.pids| && Reaches(vm, i, ops, m, pages)
    requires (op.Read? || op.Write?) && op.proc == i && op.vaddr / PAGE_SIZE in pages
    ensures var r := if op.Read? then ReadByte(m, i, vm.sizes[i], op.vaddr).mem
                     else WriteByte(m, i, vm.sizes[i], op.vaddr, op.val).mem;
            Reaches(vm, i, ops + [op], r, pages)
    ensures ReadByte(m, i, vm.sizes[i], op.vaddr).Fault? ==> ReadByte(m, i, vm.sizes[i], op.vaddr).vpage in pages
    ensures op.Write? && WriteByte(m, i, vm.sizes[i], op.vaddr, op.val).Fault? ==>
              WriteByte(m, i, vm.sizes[i], op.vaddr, op.val).vpage in pages
  {
    hide Step;
    assert (ops + [op])[..|ops|] == ops;
    var v := vm.(mem := m);
    AccessStep(v, i, op);
    hide ReadByte, WriteByte;
    assert Run(vm, ops + [op]) == Step(v, op);
  }

  lemma AccessStep(vm: Vm, i: nat, op: Op)
    requires Shape(vm) && i < |vm.pids| && Live(vm, i) && (op.Read? || op.Write?) && op.proc == i
    ensures var r := if op.Read? then ReadByte(vm.mem, i, vm.sizes[i], op.vaddr).mem
                     else WriteByte(vm.mem, i, vm.sizes[i], op.vaddr, op.val).mem;
            Step(vm, op) == vm.(mem := r) && Live(vm.(mem := r), i) && |r.tables| == |vm.mem.tables|
    ensures var r := ReadByte(vm.mem, i, vm.sizes[i], op.vaddr); r.Fault? ==> r.vpage == op.vaddr / PAGE_SIZE
    ensures op.Write? ==>
              var r := WriteByte(vm.mem, i, vm.sizes[i], op.vaddr, op.val); r.Fault? ==> r.vpage == op.vaddr / PAGE_SIZE
  {}

  lemma ReachRead32(vm: Vm, i: nat, ops: seq<Op>, m: Mem, va: Word, pages: iset<nat>)
    requires Shape(vm) && i < |vm.pids| && Reaches(vm, i, ops, m, pages) && WordIn(va, pages)
    ensures |m.tables| == |vm.mem.tables|
    ensures var sp := Cpu.Space(m, i, vm.sizes[i]); var r := Cpu.Read32(sp, va);
      Reaches(vm, i, ops + ReadTrace(sp, va), r.mem, pages) && (r.Fault? ==> r.vpage in pages)
  {
    hide Reaches, ReadByte, WriteByte, Live, Cpu.At;
    ReachShape(vm, i, ops, m, pages);
    Restart.AtAt(va, 0, 0);
    assert Cpu.At(va, 0) / PAGE_SIZE in pages;
    var n := vm.sizes[i];
    var a0, a1, a2, a3 := Read(i, va), Read(i, Cpu.At(va, 1)), Read(i, Cpu.At(va, 2)), Read(i, Cpu.At(va, 3));
    var r0 := ReadByte(m, i, n, va);
    ReachOne(vm, i, ops, m, a0, pages);
    if r0.Done? {
      var r1 := ReadByte(r0.mem, i, n, Cpu.At(va, 1));
      ReachOne(vm, i, ops + [a0], r0.mem, a1, pages);
      assert ops + [a0] + [a1] == ops + [a0, a1];
      if r1.Done? {
        var r2 := ReadByte(r1.mem, i, n, Cpu.At(va, 2));
        ReachOne(vm, i, ops + [a0, a1], r1.mem, a2, pages);
        assert ops + [a0, a1] + [a2] == ops + [a0, a1, a2];
        if r2.Done? {
          ReachOne(vm, i, ops + [a0, a1, a2], r2.mem, a3, pages);
          assert ops + [a0, a1, a2] + [a3] == ops + [a0, a1, a2, a3];
        }
      }
    }
  }

  lemma ReachShape(vm: Vm, i: nat, ops: seq<Op>, m: Mem, pages: iset<nat>)
    requires Shape(vm) && i < |vm.pids| && Reaches(vm, i, ops, m, pages)
    ensures |m.tables| == |vm.mem.tables| && Shape(vm.(mem := m))
  {
    var r := Run(vm, ops);
  }

  lemma {:induction false} ReachWrite(vm: Vm, i: nat, ops: seq<Op>, m: Mem, va: Word, w: Word, n: nat, pages: iset<nat>)
    requires Shape(vm) && i < |vm.pids| && Reaches(vm, i, ops, m, pages) && n <= 4 && WordIn(va, pages)
    ensures |m.tables| == |vm.mem.tables|
    ensures var sp := Cpu.Space(m, i, vm.sizes[i]); var r := Cpu.WriteBytes(sp, va, w, n);
      Reaches(vm, i, ops + WriteTrace(sp, va, w, n), r.mem, pages) && (r.Fault? ==> r.vpage in pages)
  {
    hide Reaches, ReadByte, WriteByte, Live;
    ReachShape(vm, i, ops, m, pages);
    if n == 0 {
      assert ops + [] == ops;
    } else {
      ReachWrite(vm, i, ops, m, va, w, n - 1, pages);
      var sp := Cpu.Space(m, i, vm.sizes[i]);
      var r, t := Cpu.WriteBytes(sp, va, w, n - 1), WriteTrace(sp, va, w, n - 1);
      if r.Done? {
        var op := Write(i, Cpu.At(va, n - 1), Isa.WordByte(w, n - 1));
        ReachOne(vm, i, ops + t, r.mem, op, pages);
        Join(ops, t, [op]);
      } else {
        assert t + [] == t;
      }
    }
  }

  /** The instruction at ip lies in these pages. */
  ghost predicate CodeIn(ip: Word, pages: iset<nat>) {
    WordIn(ip, pages) && WordIn(Cpu.At(ip, 4), pages) && WordIn(Cpu.At(ip, 8), pages)
  }

  lemma ReachFetch(vm: Vm, i: nat, ops: seq<Op>, m: Mem, ip: Word, pages: iset<nat>)
    requires Shape(vm) && i < |vm.pids| && Reaches(vm, i, ops, m, pages) && CodeIn(ip, pages)
    ensures |m.tables| == |vm.mem.tables|
    ensures var sp := Cpu.Space(m, i, vm.sizes[i]); var r := Cpu.Fetch(sp, ip);
      Reaches(vm, i, ops + FetchTrace(sp, ip), r.mem, pages) && (r.Fault? ==> r.vpage in pages)
  {
    hide Reaches, Cpu.Read32, WordIn, ReadTrace;
    ReachShape(vm, i, ops, m, pages);
    var sp := Cpu.Space(m, i, vm.sizes[i]);
    var t0 := ReadTrace(sp, ip);
    ReachRead32(vm, i, ops, m, ip, pages);
    var r0 := Cpu.Read32(sp, ip);
    if r0.Done? {
      var t1 := ReadTrace(sp.(mem := r0.mem), Cpu.At(ip, 4));
      ReachRead32(vm, i, ops + t0, r0.mem, Cpu.At(ip, 4), pages);
      Join(ops, t0, t1);
      var r1 := Cpu.Read32(sp.(mem := r0.mem), Cpu.At(ip, 4));
      if r1.Done? {
        ReachRead32(vm, i, ops + (t0 + t1), r1.mem, Cpu.At(ip, 8), pages);
        Join(ops, t0 + t1, ReadTrace(sp.(mem := r1.mem), Cpu.At(ip, 8)));
      }
    }
  }

  /** The data an effect touches lies in these pages. */
  ghost predicate EffectIn(e: Cpu.Effect, pages: iset<nat>) {
    match e
    case Plain(_, _) => true
    case Load(addr, _) => WordIn(addr, pages)
    case LoadByte(addr) => addr / PAGE_SIZE in pages
    case Store(addr, _, _, _) => WordIn(addr, pages)
    case Move(src, dst, _) => WordIn(src, pages) && WordIn(dst, pages)
    case StoreThenJump(addr, _, _, target) => WordIn(addr, pages) && WordIn(target, pages)
  }

  lemma ReachPerform(vm: Vm, i: nat, ops: seq<Op>, m: Mem, e: Cpu.Effect, c: Cpu.Ctx, pages: iset<nat>)
    requires Shape(vm) && i < |vm.pids| && Reaches(vm, i, ops, m, pages) && Cpu.CtxOk(c) && Cpu.EffectOk(e)
    requires EffectIn(e, pages)
    ensures |m.tables| == |vm.mem.tables|
    ensures var sp := Cpu.Space(m, i, vm.sizes[i]); var r := Cpu.Perform(e, c, sp);
      Reaches(vm, i, ops + PerformTrace(e, sp), r.mem, pages) && (r.outcome.Faulted? ==> r.outcome.vpage in pages)
  {
    hide Reaches, Cpu.Read32, Cpu.WriteBytes, ReadByte, Cpu.Used, WordIn, ReadTrace, WriteTrace;
    ReachShape(vm, i, ops, m, pages);
    var sp := Cpu.Space(m, i, vm.sizes[i]);
    match e
    case Plain(_, _) => assert ops + [] == ops;
    case Load(addr, _) => ReachRead32(vm, i, ops, m, addr, pages);
    case LoadByte(addr) => ReachOne(vm, i, ops, m, Read(i, addr), pages);
    case Store(addr, val, _, _) => ReachWrite(vm, i, ops, m, addr, val, 4, pages);
    case Move(src, dst, _) =>
      ReachRead32(vm, i, ops, m, src, pages);
      var r, t := Cpu.Read32(sp, src), ReadTrace(sp, src);
      if r.Done? {
        ReachWrite(vm, i, ops + t, r.mem, dst, r.val, 4, pages);
        Join(ops, t, WriteTrace(sp.(mem := r.mem), dst, r.val, 4));
      } else {
        assert t + [] == t;
      }
    case StoreThenJump(addr, val, _, target) =>
      ReachWrite(vm, i, ops, m, addr, val, 4, pages);
      var w, t := Cpu.Write32(sp, addr, val), WriteTrace(sp, addr, val, 4);
      if w.Done? {
        ReachRead32(vm, i, ops + t, w.mem, target, pages);
        Join(ops, t, ReadTrace(sp.(mem := w.mem), target));
      } else {
        assert t + [] == t;
      }
  }

  /** The instruction at ip, as fetched from m, and its data lie in these pages. */
  ghost predicate InstrIn(sp: Cpu.Space, c: Cpu.Ctx, pages: iset<nat>)
    requires Cpu.SpaceOk(sp) && Cpu.CtxOk(c)
  {
    && CodeIn(c.ip, pages)
    && var f := Cpu.Fetch(sp, c.ip);
       (f.Done? && Isa.Decode(f.val.0).Some? && Cpu.RegsOk(Isa.Decode(f.val.0).value, f.val.1, f.val.2) ==>
          EffectIn(Cpu.EffectOf(c.(ip := Cpu.At(c.ip, 12)), Isa.Decode(f.val.0).value, f.val.1, f.val.2), pages))
  }

  lemma ReachStep(vm: Vm, i: nat, ops: seq<Op>, m: Mem, c: Cpu.Ctx, pages: iset<nat>)
    requires Shape(vm) && i < |vm.pids| && Reaches(vm, i, ops, m, pages) && Cpu.CtxOk(c)
    requires |m.tables| == |vm.mem.tables| && InstrIn(Cpu.Space(m, i, vm.sizes[i]), c, pages)
    ensures var sp := Cpu.Space(m, i, vm.sizes[i]); var r := Cpu.CpuStep(c, sp);
      Reaches(vm, i, ops + StepTrace(c, sp), r.mem, pages) && (r.outcome.Faulted? ==> r.outcome.vpage in pages)
  {
    hide Reaches, Cpu.Fetch, Cpu.Perform, Cpu.EffectOf, Isa.Decode, Cpu.RegsOk, CodeIn, EffectIn, FetchTrace,
         PerformTrace;
    var sp := Cpu.Space(m, i, vm.sizes[i]);
    ReachFetch(vm, i, ops, m, c.ip, pages);
    var f, t := Cpu.Fetch(sp, c.ip), FetchTrace(sp, c.ip);
    assert t + [] == t;
    if f.Done? && Isa.Decode(f.val.0).Some? {
      var op, d := Isa.Decode(f.val.0).value, c.(ip := Cpu.At(c.ip, 12));
      if Cpu.RegsOk(op, f.val.1, f.val.2) {
        var e := Cpu.EffectOf(d, op, f.val.1, f.val.2);
        ReachPerform(vm, i, ops + t, f.mem, e, d, pages);
        Join(ops, t, PerformTrace(e, sp.(mem := f.mem)));
      }
    }
  }

  /** A page of the 32-bit address space. */
  predicate IsPage(q: nat) {
    q < WORD_RANGE / PAGE_SIZE
  }

  ghost function AllPages(): iset<nat> {
    iset q: nat | IsPage(q)
  }

  lemma InAllPages(sp: Cpu.Space, c: Cpu.Ctx)
    requires Cpu.SpaceOk(sp) && Cpu.CtxOk(c)
    ensures InstrIn(sp, c, AllPages())
  {
    hide Cpu.Fetch, Isa.Decode, Cpu.EffectOf, Cpu.At;
  }

  /** A quantum of instructions is the run of its byte accesses. */
  lemma {:induction false} ReachSteps(vm: Vm, i: nat, ops: seq<Op>, m: Mem, c: Cpu.Ctx, n: nat)
    requires Shape(vm) && i < |vm.pids| && Reaches(vm, i, ops, m, AllPages()) && Cpu.CtxOk(c)
    ensures |m.tables| == |vm.mem.tables|
    ensures var sp := Cpu.Space(m, i, vm.sizes[i]);
      Reaches(vm, i, ops + StepsTrace(c, sp, n), Cpu.RunSteps(c, sp, n).mem, AllPages())
    decreases n
  {
    hide Reaches, Cpu.CpuStep, InstrIn, AllPages, StepTrace;
    ReachShape(vm, i, ops, m, AllPages());
    var sp := Cpu.Space(m, i, vm.sizes[i]);
    if n == 0 {
      assert ops + [] == ops;
    } else {
      InAllPages(sp, c);
      ReachStep(vm, i, ops, m, c, AllPages());
      var r, t := Cpu.CpuStep(c, sp), StepTrace(c, sp);
      if r.outcome == Cpu.Continue {
        ReachSteps(vm, i, ops + t, r.mem, r.ctx, n - 1);
        Join(ops, t, StepsTrace(r.ctx, sp.(mem := r.mem), n - 1));
      } else {
        assert t + [] == t;
      }
    }
  }

  // ---- One turn is a run of the paging system ------------------------------------------------------------

  /** All these operations are done by process i, and only the last may end it. */
  predicate DoneBy(ops: seq<Op>, i: nat) {
    && (forall op | op in ops :: !op.Spawn? && op.proc == i)
    && (forall k | 0 <= k < |ops| - 1 :: !ops[k].Exit?)
  }

  lemma {:induction false} RunConcat(vm: Vm, a: seq<Op>, b: seq<Op>)
    requires Shape(vm)
    ensures Run(vm, a + b) == Run(Run(vm, a), b)
  {
    hide Step;
    if b == [] {
      assert a + b == a;
    } else {
      var n := |b| - 1;
      RunConcat(vm, a, b[..n]);
      assert (a + b)[..|a + b| - 1] == a + b[..n];
    }
  }

  lemma {:induction false} RunKeepsInv(vm: Vm, ops: seq<Op>)
    requires Inv(vm) && Roomy(vm) && Shape(vm)
    ensures Inv(Run(vm, ops)) && Roomy(Run(vm, ops))
  {
    hide Inv, Step, Roomy;
    if ops != [] {
      RunKeepsInv(vm, ops[..|ops| - 1]);
      StepInv(Run(vm, ops[..|ops| - 1]), ops[|ops| - 1]);
    }
  }

  /** Where process i stops when it is given the CPU: memory after its quantum, its context and why. */
  function StoppedAt(vm: Vm, i: nat, c: Cpu.Ctx): (r: (Vm, Cpu.Ctx, Cpu.Outcome))
    requires Shape(vm) && i < |vm.pids| && Cpu.CtxOk(c)
    ensures Shape(r.0) && TrapOk(r.1, r.2)
  {
    hide Cpu.RunSteps;
    RunTraps(c, SpaceOf(vm, i), QUANTUM);
    var r := Cpu.RunSteps(c, SpaceOf(vm, i), QUANTUM);
    (vm.(mem := r.mem), r.ctx, r.outcome)
  }

  /** The operation the OS then performs for it, if any. */
  function ServiceOf(vm: Vm, i: nat, c: Cpu.Ctx): Option<Op>
    requires Shape(vm) && i < |vm.pids| && Cpu.CtxOk(c)
  {
    var (vm1, d, outcome) := StoppedAt(vm, i, c);
    OpOf(vm1, i, d, outcome)
  }

  function OneOp(op: Option<Op>): seq<Op> {
    if op.Some? then [op.value] else []
  }

  /** What a dispatch does to paging: the CPU's accesses, then at most one operation of the OS. */
  function DispatchTrace(vm: Vm, i: nat, c: Cpu.Ctx): seq<Op>
    requires Shape(vm) && i < |vm.pids| && Cpu.CtxOk(c)
  {
    StepsTrace(c, SpaceOf(vm, i), QUANTUM) + OneOp(ServiceOf(vm, i, c))
  }

  lemma DispatchIsRun(os: Os, i: nat)
    requires Inv(os.vm) && Roomy(os.vm) && Shape(os.vm) && Sched.Sized(os.sched) && Sched.QueuesOk(os.sched)
    requires i < |os.vm.pids| == |os.sched.tasks| == |os.ctxs| && Cpu.CtxOk(os.ctxs[i]) && Live(os.vm, i)
    ensures DoneBy(DispatchTrace(os.vm, i, os.ctxs[i]), i)
    ensures var t, ops := Dispatch(os, i), DispatchTrace(os.vm, i, os.ctxs[i]);
      var (_, d, outcome) := StoppedAt(os.vm, i, os.ctxs[i]);
      && t.Next? && t.os.vm == Run(os.vm, ops)
      && |t.os.ctxs| == |os.ctxs| && (forall j | 0 <= j < |os.ctxs| && j != i :: t.os.ctxs[j] == os.ctxs[j])
      && Cpu.CtxOk(t.os.ctxs[i])
      && t.os.sched == Sched.Handle(os.sched, i, StopOf(d, outcome))
      && ((ops != [] && ops[|ops| - 1].Exit?) <==> StopOf(d, outcome).Exit?)
  {
    hide Inv, Cpu.RunSteps, Alloc, PageIn, Cleanup, Free, MapShared, CanTake, Reaches, Sched.Handle, Answered,
         Roomy, StepsTrace;
    var c := os.ctxs[i];
    QuantumRuns(os.vm, i, c);
    RanKeepsInv(os.vm, i, c);
    var ops, r := StepsTrace(c, SpaceOf(os.vm, i), QUANTUM), Cpu.RunSteps(c, SpaceOf(os.vm, i), QUANTUM);
    var vm1 := os.vm.(mem := r.mem);
    ReachMeans(os.vm, i, ops, r.mem, AllPages());
    var op := OpOf(vm1, i, r.ctx, r.outcome);
    assert ServiceOf(os.vm, i, c) == op;
    if op.Some? {
      ServedIsStep(vm1, i, r.ctx, r.outcome);
      AppendOp(os.vm, ops, op.value, i);
    } else {
      assert ops + [] == ops;
    }
  }

  lemma QuantumRuns(vm: Vm, i: nat, c: Cpu.Ctx)
    requires Shape(vm) && i < |vm.pids| && Cpu.CtxOk(c) && Live(vm, i)
    ensures Reaches(vm, i, StepsTrace(c, SpaceOf(vm, i), QUANTUM), Cpu.RunSteps(c, SpaceOf(vm, i), QUANTUM).mem, AllPages())
  {
    hide Reaches, StepsTrace, Cpu.RunSteps;
    ReachStart(vm, i, AllPages());
    ReachSteps(vm, i, [], vm.mem, c, QUANTUM);
    var ops := StepsTrace(c, SpaceOf(vm, i), QUANTUM);
    assert [] + ops == ops;
  }

  /** The operation served after the quantum takes no private page that is clean and not zero. */
  ghost predicate SafeService(vm: Vm, i: nat, c: Cpu.Ctx)
    requires Shape(vm) && i < |vm.pids| && Cpu.CtxOk(c)
  {
    var op := ServiceOf(vm, i, c);
    op.Some? ==> SafeOp(StoppedAt(vm, i, c).0, op.value)
  }

  lemma {:induction false} SafeConcat(vm: Vm, a: seq<Op>, b: seq<Op>)
    requires Shape(vm)
    ensures SafeRun(vm, a + b) <==> SafeRun(vm, a) && SafeRun(Run(vm, a), b)
  {
    hide Step, SafeOp;
    if b == [] {
      assert a + b == a;
    } else {
      var n := |b| - 1;
      SafeConcat(vm, a, b[..n]);
      RunConcat(vm, a, b[..n]);
      assert (a + b)[..|a + b| - 1] == a + b[..n];
    }
  }

  /** Byte accesses evict nothing. */
  lemma {:induction false} AccessesSafe(vm: Vm, ops: seq<Op>, i: nat, pages: iset<nat>)
    requires Shape(vm) && Accesses(ops, i, pages)
    ensures SafeRun(vm, ops)
  {
    hide Step;
    if ops != [] {
      assert ops[|ops| - 1] in ops && forall op | op in ops[..|ops| - 1] :: op in ops;
      AccessesSafe(vm, ops[..|ops| - 1], i, pages);
    }
  }

  /** So a dispatch is safe iff the one operation served in it is. */
  lemma DispatchIsSafe(vm: Vm, i: nat, c: Cpu.Ctx)
    requires Shape(vm) && i < |vm.pids| && Cpu.CtxOk(c) && Live(vm, i)
    ensures SafeRun(vm, DispatchTrace(vm, i, c)) <==> SafeService(vm, i, c)
  {
    hide Step, SafeOp, StepsTrace, Cpu.RunSteps, OpOf, Live, AllPages;
    QuantumRuns(vm, i, c);
    var ops, op := StepsTrace(c, SpaceOf(vm, i), QUANTUM), ServiceOf(vm, i, c);
    AccessesSafe(vm, ops, i, AllPages());
    SafeConcat(vm, ops, OneOp(op));
    if op.Some? {
      assert OneOp(op)[..0] == [];
      assert SafeRun(Run(vm, ops), []);
    }
  }

  /** After a quantum the invariant holds, a frame can be had, and a fault is on a page that is not resident. */
  lemma RanKeepsInv(vm: Vm, i: nat, c: Cpu.Ctx)
    requires Inv(vm) && Roomy(vm) && Shape(vm) && i < |vm.pids| && Cpu.CtxOk(c) && Live(vm, i)
    ensures var r := Cpu.RunSteps(c, SpaceOf(vm, i), QUANTUM); var v := vm.(mem := r.mem);
      && Inv(v) && Roomy(v) && CanTake(v) && Live(v, i) && TrapOk(r.ctx, r.outcome)
      && (r.outcome.Faulted? ==> !Entry(v.mem, i, r.outcome.vpage).isValid)
  {
    hide Inv, Roomy, Reaches, Cpu.RunSteps, CanTake, StepsTrace;
    QuantumRuns(vm, i, c);
    var ops, r := StepsTrace(c, SpaceOf(vm, i), QUANTUM), Cpu.RunSteps(c, SpaceOf(vm, i), QUANTUM);
    RunTraps(c, SpaceOf(vm, i), QUANTUM);
    ReachMeans(vm, i, ops, r.mem, AllPages());
    RunKeepsInv(vm, ops);
    CanAlwaysTake(vm.(mem := r.mem));
    FaultIsUnmapped(vm, i, c, QUANTUM);
  }

  lemma ReachMeans(vm: Vm, i: nat, ops: seq<Op>, m: Mem, pages: iset<nat>)
    requires Shape(vm) && i < |vm.pids| && Reaches(vm, i, ops, m, pages)
    ensures Run(vm, ops) == vm.(mem := m) && Live(vm.(mem := m), i) && DoneBy(ops, i)
    ensures ops == [] || !ops[|ops| - 1].Exit?
  {}

  lemma AppendOp(vm: Vm, ops: seq<Op>, op: Op, i: nat)
    requires Shape(vm) && DoneBy(ops, i) && (ops == [] || !ops[|ops| - 1].Exit?) && !op.Spawn? && op.proc == i
    ensures DoneBy(ops + [op], i) && Run(vm, ops + [op]) == Step(Run(vm, ops), op)
    ensures (ops + [op])[|ops + [op]| - 1] == op
  {
    hide Step;
    assert (ops + [op])[..|ops|] == ops;
  }

  lemma CanAlwaysTake(vm: Vm)
    requires Inv(vm) && Roomy(vm) && Shape(vm) && |vm.pids| > 0
    ensures CanTake(vm)
  {
    AlwaysAFrame(vm);
  }

  lemma ServedIsStep(vm: Vm, i: nat, c: Cpu.Ctx, outcome: Cpu.Outcome)
    requires Inv(vm) && Shape(vm) && i < |vm.pids| && Live(vm, i) && TrapOk(c, outcome) && CanTake(vm)
    requires outcome.Faulted? ==> !Entry(vm.mem, i, outcome.vpage).isValid
    ensures Served(vm, i, c, outcome) == if OpOf(vm, i, c, outcome).Some? then Step(vm, OpOf(vm, i, c, outcome).value) else vm
  {
    hide Alloc, PageIn, Cleanup, Free, MapShared, CanTake, Inv;
  }

  // ---- A fault names a page that is not resident --------------------------------------------------------

  lemma ByteFault(m: Mem, i: nat, n: nat, va: Word, b: Byte)
    requires i < |m.tables|
    ensures var r := ReadByte(m, i, n, va); r.Fault? ==> !Entry(r.mem, i, r.vpage).isValid
    ensures var r := WriteByte(m, i, n, va, b); r.Fault? ==> !Entry(r.mem, i, r.vpage).isValid
  {}

  lemma Read32Fault(sp: Cpu.Space, va: Word)
    requires Cpu.SpaceOk(sp)
    ensures var r := Cpu.Read32(sp, va); r.Fault? ==> !Entry(r.mem, sp.proc, r.vpage).isValid
  {
    hide ReadByte, Entry;
    var i, n := sp.proc, sp.codeSize;
    ByteFault(sp.mem, i, n, va, 0);
    var r0 := ReadByte(sp.mem, i, n, va);
    ByteFault(r0.mem, i, n, Cpu.At(va, 1), 0);
    var r1 := ReadByte(r0.mem, i, n, Cpu.At(va, 1));
    ByteFault(r1.mem, i, n, Cpu.At(va, 2), 0);
    var r2 := ReadByte(r1.mem, i, n, Cpu.At(va, 2));
    ByteFault(r2.mem, i, n, Cpu.At(va, 3), 0);
  }

  lemma {:induction false} WriteFault(sp: Cpu.Space, va: Word, w: Word, n: nat)
    requires Cpu.SpaceOk(sp) && n <= 4
    ensures var r := Cpu.WriteBytes(sp, va, w, n); r.Fault? ==> !Entry(r.mem, sp.proc, r.vpage).isValid
  {
    hide WriteByte, Entry;
    if n > 0 {
      WriteFault(sp, va, w, n - 1);
      ByteFault(Cpu.WriteBytes(sp, va, w, n - 1).mem, sp.proc, sp.codeSize, Cpu.At(va, n - 1), Isa.WordByte(w, n - 1));
    }
  }

  lemma StepFault(c: Cpu.Ctx, sp: Cpu.Space)
    requires Cpu.CtxOk(c) && Cpu.SpaceOk(sp)
    ensures var r := Cpu.CpuStep(c, sp); r.outcome.Faulted? ==> !Entry(r.mem, sp.proc, r.outcome.vpage).isValid
  {
    hide Cpu.Read32, Entry, Isa.Decode, Cpu.EffectOf, Cpu.RegsOk, Cpu.Perform;
    Read32Fault(sp, c.ip);
    var r0 := Cpu.Read32(sp, c.ip);
    if r0.Done? {
      var s0 := sp.(mem := r0.mem);
      Read32Fault(s0, Cpu.At(c.ip, 4));
      var r1 := Cpu.Read32(s0, Cpu.At(c.ip, 4));
      if r1.Done? { Read32Fault(s0.(mem := r1.mem), Cpu.At(c.ip, 8)); }
    }
    var f := Cpu.Fetch(sp, c.ip);
    if f.Done? && Isa.Decode(f.val.0).Some? && Cpu.RegsOk(Isa.Decode(f.val.0).value, f.val.1, f.val.2) {
      var d := c.(ip := Cpu.At(c.ip, 12));
      PerformFault(Cpu.EffectOf(d, Isa.Decode(f.val.0).value, f.val.1, f.val.2), d, sp.(mem := f.mem));
    }
  }

  lemma PerformFault(e: Cpu.Effect, c: Cpu.Ctx, sp: Cpu.Space)
    requires Cpu.CtxOk(c) && Cpu.SpaceOk(sp) && Cpu.EffectOk(e)
    ensures var r := Cpu.Perform(e, c, sp); r.outcome.Faulted? ==> !Entry(r.mem, sp.proc, r.outcome.vpage).isValid
  {
    hide Cpu.Read32, Cpu.WriteBytes, ReadByte, Entry, Cpu.Used;
    match e
    case Plain(_, _) =>
    case Load(addr, _) => Read32Fault(sp, addr);
    case LoadByte(addr) => ByteFault(sp.mem, sp.proc, sp.codeSize, addr, 0);
    case Store(addr, val, _, _) => WriteFault(sp, addr, val, 4);
    case Move(src, dst, _) =>
      Read32Fault(sp, src);
      var r := Cpu.Read32(sp, src);
      if r.Done? { WriteFault(sp.(mem := r.mem), dst, r.val, 4); }
    case StoreThenJump(addr, val, _, target) =>
      WriteFault(sp, addr, val, 4);
      var w := Cpu.Write32(sp, addr, val);
      if w.Done? { Read32Fault(sp.(mem := w.mem), target); }
  }

  lemma {:induction false} FaultIsUnmapped(vm: Vm, i: nat, c: Cpu.Ctx, n: nat)
    requires Shape(vm) && i < |vm.pids| && Cpu.CtxOk(c)
    ensures var r := Cpu.RunSteps(c, SpaceOf(vm, i), n); r.outcome.Faulted? ==> !Entry(r.mem, i, r.outcome.vpage).isValid
    decreases n
  {
    hide Cpu.CpuStep, Entry;
    if n > 0 {
      StepFault(c, SpaceOf(vm, i));
      var r := Cpu.CpuStep(c, SpaceOf(vm, i));
      if r.outcome == Cpu.Continue {
        FaultIsUnmapped(vm.(mem := r.mem), i, r.ctx, n - 1);
      }
    }
  }

  // ---- Who lives ---------------------------------------------------------------------------------------

  lemma {:induction false} GrabRangeTables(vm: Vm, i: nat, start: nat, n: nat, j: nat)
    requires Shape(vm) && i < |vm.pids| && start + n <= |vm.mem.tables[i]| && CanTake(vm) && j < |vm.pids|
    ensures |GrabRange(vm, i, start, n).mem.tables[j]| == |vm.mem.tables[j]|
    ensures GrabRange(vm, i, start, n).heaps == vm.heaps
  {
    hide Grab, CanTake;
    if n > 0 {
      GrabRangeTables(vm, i, start, n - 1, j);
      GrabTables(GrabRange(vm, i, start, n - 1), i, start + n - 1, j);
    }
  }

  lemma GrabTables(vm: Vm, i: nat, vp: nat, j: nat)
    requires Shape(vm) && i < |vm.pids| && vp < |vm.mem.tables[i]| && CanTake(vm) && j < |vm.pids|
    ensures |Grab(vm, i, vp).mem.tables[j]| == |vm.mem.tables[j]|
  {
    hide TakeFrame, CanTake;
  }

  /** Which processes are live and which allocations the others have change only as the operation says. */
  lemma StepLive(vm: Vm, op: Op, j: nat)
    requires Inv(vm) && Roomy(vm) && Shape(vm) && !op.Spawn? && j < |vm.pids| && Live(vm, op.proc)
    ensures Step(vm, op).pids == vm.pids
    ensures Live(Step(vm, op), j) <==> Live(vm, j) && op != Op.Exit(j)
    ensures j != op.proc ==> Step(vm, op).heaps[j] == vm.heaps[j]
  {
    StepKeepsPids(vm, op);
    if Enabled(vm, op) {
      match op
      case AllocHeap(i, bytes) => AllocLive(vm, i, bytes, j);
      case FreeHeap(i, a) => FreeLive(vm, i, a, j);
      case PageFault(i, vp) => PageInLive(vm, i, vp, j);
      case _ =>
    }
  }

  lemma PageInLive(vm: Vm, i: nat, vp: nat, j: nat)
    requires Inv(vm) && Shape(vm) && i < |vm.pids| && Live(vm, i) && CanTake(vm) && j < |vm.pids|
    requires !Entry(vm.mem, i, vp).isValid
    ensures (Live(PageIn(vm, i, vp), j) <==> Live(vm, j)) && PageIn(vm, i, vp).heaps == vm.heaps
  {
    hide Inv, TakeFrame, CanTake;
    PageInForm(vm, i, vp);
    var vm1 := vm.(mem := GrowTable(vm.mem, i, vp + 1));
    GrowView(vm, i, vp + 1, i, vp);
  }

  lemma AllocLive(vm: Vm, i: nat, bytes: int, j: nat)
    requires Inv(vm) && Shape(vm) && i < |vm.pids| && Live(vm, i) && CanTake(vm) && j < |vm.pids|
    ensures Live(Alloc(vm, i, bytes).0, j) <==> Live(vm, j)
    ensures j != i ==> Alloc(vm, i, bytes).0.heaps[j] == vm.heaps[j]
  {
    hide Inv, GrabRange, FirstFit, CanTake;
    var vm1, n := vm.(mem := GrowTable(vm.mem, i, HEAP_LAST + 1)), PagesNeeded(bytes);
    GrowView(vm, i, HEAP_LAST + 1, i, 0);
    FirstFitInHeap(vm1, i, n, HEAP_FIRST);
    var s := FirstFit(vm1, i, n, HEAP_FIRST);
    if s.Some? && bytes > 0 && n <= HEAP_PAGES {
      GrabRangeTables(vm1, i, s.value, n, j);
    }
  }

  lemma FreeLive(vm: Vm, i: nat, a: nat, j: nat)
    requires Inv(vm) && Shape(vm) && i < |vm.pids| && j < |vm.pids|
    ensures Live(Free(vm, i, a), j) <==> Live(vm, j)
    ensures j != i ==> Free(vm, i, a).heaps[j] == vm.heaps[j]
  {
    if a in vm.heaps[i] {
      assert HeapOk(vm.heaps[i]);
      ReleaseRangeInv(vm, i, a / PAGE_SIZE, vm.heaps[i][a]);
    }
  }

  /** A run of process i keeps everyone else live and their allocations. */
  lemma {:induction false} RunLive(vm: Vm, ops: seq<Op>, i: nat, j: nat)
    requires Inv(vm) && Roomy(vm) && Shape(vm) && DoneBy(ops, i) && i < |vm.pids| && j < |vm.pids| && Live(vm, i)
    ensures Run(vm, ops).pids == vm.pids
    ensures Live(Run(vm, ops), j) <==> Live(vm, j) && !(i == j && ops != [] && ops[|ops| - 1].Exit?)
    ensures j != i ==> Run(vm, ops).heaps[j] == vm.heaps[j]
  {
    hide Inv, Step, Roomy, Live;
    if ops != [] {
      var before, op := ops[..|ops| - 1], ops[|ops| - 1];
      assert op in ops && forall o | o in before :: o in ops;
      RunLive(vm, before, i, j);
      RunLive(vm, before, i, i);
      RunKeepsInv(vm, before);
      StepLive(Run(vm, before), op, j);
    }
  }

  /** Task j keeps its pid, and is terminated in both or in neither. */
  predicate SameStatus(s: Sched.Sched, r: Sched.Sched, j: nat) {
    && j < |s.tasks| == |r.tasks| && r.tasks[j].pid == s.tasks[j].pid
    && (r.tasks[j].state == Sched.Terminated <==> s.tasks[j].state == Sched.Terminated)
  }

  lemma PickedStatus(s: Sched.Sched, j: nat)
    requires SI.SchedInv(s) && j < |s.tasks|
    ensures SameStatus(s, Picked(s).0, j)
    ensures Picked(s).1.Some? ==> Picked(s).0.tasks[Picked(s).1.value].state != Sched.Terminated
  {
    PickedServes(s);
    SR.TickManyTasks(s, |s.sleeping|, j);
    assert s.sleeping[..|s.sleeping|] == s.sleeping;
    SI.TickServes(s, |s.sleeping|);
    if Picked(s).1.Some? {
      var t, p := Sched.Tick(s), Sched.FirstReady(Sched.Tick(s).ready, 1);
      assert SI.InReady(t, p, t.ready[p][0]);
    }
  }

  lemma HandleStatus(s: Sched.Sched, i: nat, stop: Sched.Stop, j: nat)
    requires SI.Serving(s, {i}, {}) && Sched.QueuesOk(s) && j < |s.tasks|
    ensures var r := Sched.Handle(s, i, stop);
      && |r.tasks| == |s.tasks| && r.tasks[j].pid == s.tasks[j].pid
      && (r.tasks[j].state == Sched.Terminated <==> if j == i then stop.Exit? else s.tasks[j].state == Sched.Terminated)
  {
    match stop
    case ReleaseLock(id) =>
      var l := ToInt32(id);
      if 0 <= l < Sched.NUM_LOCKS && s.locks[l].waitQueue != [] { assert SI.InLock(s, l, s.locks[l].waitQueue[0]); }
    case SignalEvent(id) =>
      var e := ToInt32(id);
      if 0 <= e < Sched.NUM_EVENTS { WakeAllStatus(s, {i}, e, j); }
    case Exit =>
      SI.TerminatingServes(s, i);
      ReleaseHeldStatus(Sched.SetState(s, i, Sched.Terminated), i, Sched.NUM_LOCKS, j);
    case _ =>
  }

  lemma {:induction false} WakeAllStatus(s: Sched.Sched, busy: set<nat>, e: nat, j: nat)
    requires SI.Serving(s, busy, {}) && Sched.QueuesOk(s) && e < Sched.NUM_EVENTS && j < |s.tasks|
    ensures SameStatus(s, Sched.WakeAll(s, e), j)
    decreases |s.events[e].waitQueue|
  {
    var q := s.events[e].waitQueue;
    if q != [] {
      assert SI.InEvent(s, e, s.events[e].waitQueue[0]);
      var s1 := s.(events := s.events[e := s.events[e].(waitQueue := q[1..])]);
      SI.WakeOneServes(s, busy, e);
      SI.ServingQueues(Sched.Enqueue(s1, q[0]), busy, {});
      WakeAllStatus(Sched.Enqueue(s1, q[0]), busy, e, j);
    }
  }

  lemma HandOverStatus(s: Sched.Sched, dying: set<nat>, l: nat, j: nat)
    requires SI.Serving(s, {}, dying) && Sched.QueuesOk(s) && l < Sched.NUM_LOCKS && j < |s.tasks|
    ensures SameStatus(s, Sched.HandOver(s, l), j)
  {
    assert s.locks[l].waitQueue != [] ==> SI.InLock(s, l, s.locks[l].waitQueue[0]);
  }

  lemma {:induction false} ReleaseHeldStatus(s: Sched.Sched, i: nat, n: nat, j: nat)
    requires SI.Serving(s, {}, {i}) && Sched.QueuesOk(s) && i < |s.tasks| && s.tasks[i].state == Sched.Terminated
    requires n <= Sched.NUM_LOCKS && j < |s.tasks|
    ensures SameStatus(s, Sched.ReleaseHeld(s, s.tasks[i].pid, n), j)
  {
    hide Sched.HandOver, SI.Serving, Sched.QueuesOk;
    assert Sched.Sized(s) by { SI.ServingSized(s, {}, {i}); }
    if n > 0 {
      ReleaseHeldStatus(s, i, n - 1, j);
      SI.ReleaseHeldServes(s, i, n - 1);
      HandOverStatus(Sched.ReleaseHeld(s, s.tasks[i].pid, n - 1), {i}, n - 1, j);
    }
  }
}
