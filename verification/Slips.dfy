/** Runs of the real system in which a retried instruction does not act as one: a push and a Popm that move
    the stack pointer twice, and an overlapping copy that reads what it wrote. */
module Slips {
  import opened Basics
  import opened Memory
  import opened Paging
  import opened FrameInvariant
  import opened PagingRuns
  import opened FlatMemory
  import opened StackProperty
  import opened FlatInstructions
  import opened KernelRuns
  import opened Execution
  import opened Restart
  import Cpu = Processor
  import Isa = Instructions
  import K = Kernel
  import LP = LoadedProgram
  import System

  // ---- Instructions as first met ------------------------------------------------------------------------

  /** The words of line k are in memory, so the instruction at ip is that line. */
  lemma LineIsInstr(vm: Vm, lines: seq<Isa.Line>, k: nat, c: Cpu.Ctx)
    requires OnLine(vm, lines, k, c) && |lines| <= 21
    ensures Args(lines, k).Some?
    ensures var (a, b) := Args(lines, k).value;
      && Cpu.RegsOk(lines[k].op, a, b) && InstrAt(c, vm, 0) == Some(Cpu.EffectOf(Past(c, k), lines[k].op, a, b))
      && WordAt(vm, 0, c.ip) == Isa.Code(lines[k].op) && WordAt(vm, 0, Cpu.At(c.ip, 4)) == a
      && Isa.Decode(Isa.Code(lines[k].op)) == Some(lines[k].op)
  {
    hide Inv, Roomy, Live, View, Isa.Assemble, Isa.Code, Isa.Operands, Cpu.EffectOf, Cpu.RegsOk, Isa.Decode, WordAt,
         CodePage, Cpu.Fetch, Here, AfterTouch;
    FetchHits(vm, lines, k, c);
    FetchIsFlat(vm, 0, c.ip);
    Isa.DecodeCode(lines[k].op);
    LP.OperandsPass(lines[k].op, lines[k].args);
  }

  lemma LinePrivate(k: nat)
    requires k < 21
    ensures var ip: Word := CODE_BASE + 12 * k;
      PrivateWord(ip) && PrivateWord(Cpu.At(ip, 4)) && PrivateWord(Cpu.At(ip, 8)) && PrivateCode(ip)
  {
    var ip: Word := CODE_BASE + 12 * k;
    forall n: nat | n < 16 ensures Private(Cpu.At(ip, n)) {}
    forall j: nat, n: nat | n < 4 && j <= 8 ensures Private(Cpu.At(Cpu.At(ip, j), n)) { AtAt(ip, j, n); }
    AtAt(ip, 0, 0);
  }

  /** Addresses from 0x4000 on lie outside the code page. */
  lemma FarFromCode(k: nat, dst: Word)
    requires k < 21 && 0x4000 <= dst < 0x1_0000
    ensures Clear(CODE_BASE + 12 * k, dst)
  {}

  /** One fault served at once, and the retry. */
  lemma OneRetry(vm: Vm, c: Cpu.Ctx, v: Vm, d: Cpu.Ctx, q: nat)
    requires Lone(v) && Shape(vm) && |vm.pids| == 1 && Cpu.CtxOk(c) && v == vm.(mem := v.mem) && Cpu.CtxOk(d)
    requires Cpu.CpuStep(c, SpaceOf(vm, 0)) == Cpu.Result(d, v.mem, Cpu.Faulted(q)) && !Here(v, q) && HasFree(v.mem)
    requires CanTake(v) && Lone(PageIn(v, 0, q)) && Cpu.CpuStep(d, SpaceOf(PageIn(v, 0, q), 0)).outcome == Cpu.Continue
    ensures var gap, w := [PageFault(0, q)], PageIn(v, 0, q);
      && Completes(vm, 0, c, [gap])
      && Last(vm, 0, c, [gap]) == (w.(mem := Cpu.CpuStep(d, SpaceOf(w, 0)).mem), Cpu.CpuStep(d, SpaceOf(w, 0)))
  {
    hide Inv, Roomy, Live, Cpu.CpuStep, PageIn, CanTake, Step;
    FaultIn(v, q);
    var op := PageFault(0, q);
    OneStep(v, op);
    OneSafe(v, op);
    assert SafeOp(v, op);
    var gap := [op];
    assert [gap][1..] == [];
    assert Quiet(gap, 0);
    assert Completes(PageIn(v, 0, q), 0, d, []);
  }

  // ---- A push ------------------------------------------------------------------------------------------------

  const PUSH: seq<Isa.Line> := [
    Isa.Line(Isa.Pushi, [Isa.Imm(7)]),
    Isa.Line(Isa.Input, [Isa.Reg(1)])]

  /** Right after its creation. */
  lemma PushFaults()
    ensures Short(PUSH) && LoneOs(At(8, PUSH, 0)) && Runs(At(8, PUSH, 0).vm, PUSH)
    ensures var os := At(8, PUSH, 0); var c := os.ctxs[0]; var v := AfterTouch(os.vm, CODE_PAGE); var d := c.(sp := 0xEFFC);
      && OnLine(os.vm, PUSH, 0, c) && c == System.InitialCtx()
      && Cpu.CpuStep(c, SpaceOf(os.vm, 0)) == Cpu.Result(d, v.mem, Cpu.Faulted(0xEF))
      && Lone(v) && v == os.vm.(mem := v.mem) && HasFree(v.mem) && !Here(v, 0xEF) && CanTake(v)
      && var w := PageIn(v, 0, 0xEF); OnLine(w, PUSH, 0, d) && Here(w, 0xEF)
  {
    hide Inv, Roomy, Live, Stack, CanTake, PageIn, View, K.OsInv, CodePage, Isa.Assemble, Cpu.CpuStep, AfterTouch,
         Entry, Here, PageFree, At, SafeSoFar, Stored, Cpu.Write32;
    AssemblesUpTo(PUSH, 2);
    Settled(8, PUSH);
    var vm, c := At(8, PUSH, 0).vm, System.InitialCtx();
    var v := AfterTouch(vm, CODE_PAGE);
    StoreLine(vm, PUSH, 0, c, 0xEFFC, 7, c.(sp := 0xEFFC));
    FirstFault(v, PUSH, 0xEF);
  }

  /** A turn of a program that stops at a fault in the context d. */
  lemma FaultTurn(lines: seq<Isa.Line>, n: nat, v: Vm, d: Cpu.Ctx, q: nat)
    requires Short(lines) && LoneOs(At(8, lines, n)) && Lone(v) && Cpu.CtxOk(d) && !Here(v, q)
    requires var os := At(8, lines, n); StoppedAt(os.vm, 0, os.ctxs[0]) == (v, d, Cpu.Faulted(q))
    ensures CanTake(v)
    ensures var os := At(8, lines, n + 1); LoneOs(os) && os.vm == PageIn(v, 0, q) && os.ctxs == [d]
  {
    hide Inv, Roomy, Live, CanTake, PageIn, K.OsInv, At, SafeSoFar, Here, Step, K.OpOf, K.Answered, StoppedAt;
    ServedFault(v, d, q);
    FaultIn(v, q);
    NextTurn(8, lines, n, v, d, Cpu.Faulted(q));
  }

  /** A turn that stops at an Input, which the OS answers with nothing. */
  lemma InputTurn(lines: seq<Isa.Line>, n: nat, v: Vm, d: Cpu.Ctx)
    requires Short(lines) && LoneOs(At(8, lines, n)) && Lone(v) && Cpu.CtxOk(d)
    requires var os := At(8, lines, n); StoppedAt(os.vm, 0, os.ctxs[0]) == (v, d, Cpu.Trapped(Cpu.Trap.Input))
    ensures var os := At(8, lines, n + 1); LoneOs(os) && os.vm == v && os.ctxs == [d]
  {
    hide Inv, Roomy, Live, K.OsInv, At, SafeSoFar, Step, StoppedAt;
    NextTurn(8, lines, n, v, d, Cpu.Trapped(Cpu.Trap.Input));
  }

  /** In the system this takes two turns: after the second, past the push, sp is two words down. */
  lemma PushTurns()
    ensures Short(PUSH) && LoneOs(At(8, PUSH, 2))
    ensures var c := At(8, PUSH, 2).ctxs[0]; c.ip == CODE_BASE + 24 && c.sp == 0xEFF8
  {
    hide Inv, Roomy, Live, Stack, CanTake, PageIn, View, K.OsInv, CodePage, Isa.Assemble, Cpu.CpuStep, AfterTouch,
         Entry, Here, At, Cpu.Write32, PageFree, StoppedAt;
    PushFaults();
    var vm, c := At(8, PUSH, 0).vm, At(8, PUSH, 0).ctxs[0];
    var v, d := AfterTouch(vm, CODE_PAGE), c.(sp := 0xEFFC);
    var w := PageIn(v, 0, 0xEF);
    Begin(vm, c);
    Stop(vm, c, vm, c, K.QUANTUM, v, d, Cpu.Faulted(0xEF));
    FaultTurn(PUSH, 0, v, d, 0xEF);
    var e := d.(sp := 0xEFF8);
    StoreLine(w, PUSH, 0, d, 0xEFF8, 7, e);
    var u := w.(mem := Cpu.CpuStep(d, SpaceOf(w, 0)).mem);
    Begin(w, d);
    Advance(w, d, w, d, K.QUANTUM, u, Past(e, 0));
    AfterStore(w, u, 0xEF, PUSH);
    InputLine(u, PUSH, 1, Past(e, 0), 1);
    TouchFacts(u, CODE_PAGE);
    Stop(w, d, u, Past(e, 0), K.QUANTUM - 1, AfterTouch(u, CODE_PAGE), Past(Past(e, 0), 1), Cpu.Trapped(Cpu.Trap.Input));
    InputTurn(PUSH, 1, AfterTouch(u, CODE_PAGE), Past(Past(e, 0), 1));
  }

  /** The fetch's touch and a store to page q, together. */
  lemma AfterStore(vm: Vm, r: Vm, q: nat, lines: seq<Isa.Line>)
    requires Runs(vm, lines) && Here(vm, CODE_PAGE) && q != CODE_PAGE && !InSharedWindow(q)
    requires Stored(AfterTouch(vm, CODE_PAGE), r, q)
    ensures Runs(r, lines) && Here(r, CODE_PAGE) && Here(r, q) && forall x: nat :: Here(r, x) == Here(vm, x)
  {
    hide Inv, Roomy, Live, Stack, View, CodePage, AfterTouch, Entry;
    TouchFacts(vm, CODE_PAGE);
    StoredRuns(AfterTouch(vm, CODE_PAGE), r, q, lines);
    forall x: nat ensures Here(r, x) == Here(vm, x) { HereSame(vm, AfterTouch(vm, CODE_PAGE), x); }
  }

  /** The retry completes, two words below the start. */
  lemma PushRetries(w: Vm, d: Cpu.Ctx)
    requires OnLine(w, PUSH, 0, d) && Here(w, 0xEF) && d.sp == 0xEFFC
    ensures var s := Cpu.CpuStep(d, SpaceOf(w, 0)); s.outcome == Cpu.Continue && s.ctx == Past(d, 0).(sp := 0xEFF8)
  {
    hide Inv, Roomy, Live, View, CodePage, Isa.Assemble, Cpu.CpuStep, AfterTouch, Entry, Here, Stored, Cpu.Write32, Patched;
    StoreLine(w, PUSH, 0, d, 0xEFF8, 7, d.(sp := 0xEFF8));
  }

  /** A first push, its stack page not resident: it faults after moving sp, and the retry moves sp again. Where one
      push would leave sp at 0xEFFC, it ends at 0xEFF8. */
  lemma FirstPushSlips()
    ensures Short(PUSH) && LoneOs(At(8, PUSH, 2))
    ensures var c := At(8, PUSH, 2).ctxs[0]; c.ip == CODE_BASE + 24 && c.sp == 0xEFF8
    ensures var os, gap := At(8, PUSH, 0), [PageFault(0, 0xEF)];
      && LoneOs(os) && Completes(os.vm, 0, os.ctxs[0], [gap]) && MovedSp(os.ctxs[0], SpaceOf(os.vm, 0))
      && FlatInstr(os.ctxs[0], os.vm, 0).ctx.sp == 0xEFFC && Last(os.vm, 0, os.ctxs[0], [gap]).1.ctx.sp == 0xEFF8
  {
    hide Inv, Roomy, Live, Stack, CanTake, PageIn, View, K.OsInv, CodePage, Isa.Assemble, Cpu.CpuStep, AfterTouch,
         Entry, Here, At, Stored, Cpu.Write32, Completes, Last, FlatInstr, Cpu.Fetch, Isa.Decode, Isa.Code, WordAt;
    PushFaults();
    var os := At(8, PUSH, 0);
    var vm, c := os.vm, os.ctxs[0];
    var v, d := AfterTouch(vm, CODE_PAGE), c.(sp := 0xEFFC);
    PushRetries(PageIn(v, 0, 0xEF), d);
    OneRetry(vm, c, v, d, 0xEF);
    FetchHits(vm, PUSH, 0, c);
    LineIsInstr(vm, PUSH, 0, c);
    LinePrivate(0);
    FarFromCode(0, 0xEFFC);
    FarFromCode(0, 0xEFF8);
    PushSlips(vm, 0, c, [PageFault(0, 0xEF)]);
    PushTurns();
  }

  // ---- A Popm ------------------------------------------------------------------------------------------------

  const POP: seq<Isa.Line> := [
    Isa.Line(Isa.Movi, [Isa.Reg(1), Isa.Imm(0x4000)]),
    Isa.Line(Isa.Pushi, [Isa.Imm(1)]),
    Isa.Line(Isa.Input, [Isa.Reg(1)]),
    Isa.Line(Isa.Popm, [Isa.Reg(1)]),
    Isa.Line(Isa.Input, [Isa.Reg(1)])]

  /** The first turn faults on the push. */
  lemma PopFirst()
    ensures Short(POP) && LoneOs(At(8, POP, 1))
    ensures var os := At(8, POP, 1); var c := os.ctxs[0];
      && OnLine(os.vm, POP, 1, c) && Here(os.vm, 0xEF) && !Here(os.vm, 0x40) && HasFree(os.vm.mem)
      && c.sp == 0xEFFC && c.regs[1] == 0x4000
  {
    hide Inv, Roomy, Live, Stack, CanTake, PageIn, View, K.OsInv, CodePage, Isa.Assemble, Cpu.CpuStep, AfterTouch,
         Entry, Here, At, Cpu.Write32, PageFree, StoppedAt, SafeSoFar;
    AssemblesUpTo(POP, 5);
    Settled(8, POP);
    var vm, c := At(8, POP, 0).vm, System.InitialCtx();
    var v, c1 := AfterTouch(vm, CODE_PAGE), Cpu.SetReg(Past(c, 0), 1, 0x4000);
    var d := c1.(sp := 0xEFFC);
    MoviLine(vm, POP, 0, c, 1, 0x4000);
    Begin(vm, c);
    Advance(vm, c, vm, c, K.QUANTUM, v, c1);
    StoreLine(v, POP, 1, c1, 0xEFFC, 1, d);
    Stop(vm, c, v, c1, K.QUANTUM - 1, v, d, Cpu.Faulted(0xEF));
    FaultTurn(POP, 0, v, d, 0xEF);
    FirstFault(v, POP, 0xEF);
  }

  /** The second completes it, one word too low, and asks for input. */
  lemma PopSecond()
    ensures Short(POP) && LoneOs(At(8, POP, 2))
    ensures var os := At(8, POP, 2); var c := os.ctxs[0];
      && OnLine(os.vm, POP, 3, c) && Here(os.vm, 0xEF) && !Here(os.vm, 0x40) && HasFree(os.vm.mem)
      && c.sp == 0xEFF8 && c.regs[1] == 0x4000
  {
    hide Inv, Roomy, Live, Stack, CanTake, PageIn, View, K.OsInv, CodePage, Isa.Assemble, Cpu.CpuStep, AfterTouch,
         Entry, Here, At, Cpu.Write32, PageFree, StoppedAt, SafeSoFar;
    PopFirst();
    var vm, c := At(8, POP, 1).vm, At(8, POP, 1).ctxs[0];
    var e := c.(sp := 0xEFF8);
    TouchFacts(vm, CODE_PAGE);
    StoreLine(vm, POP, 1, c, 0xEFF8, 1, e);
    var u := vm.(mem := Cpu.CpuStep(c, SpaceOf(vm, 0)).mem);
    Begin(vm, c);
    Advance(vm, c, vm, c, K.QUANTUM, u, Past(e, 1));
    AfterStore(vm, u, 0xEF, POP);
    InputLine(u, POP, 2, Past(e, 1), 1);
    TouchFacts(u, CODE_PAGE);
    var v := AfterTouch(u, CODE_PAGE);
    Stop(vm, c, u, Past(e, 1), K.QUANTUM - 1, v, Past(Past(e, 1), 2), Cpu.Trapped(Cpu.Trap.Input));
    InputTurn(POP, 1, v, Past(Past(e, 1), 2));
    HereSame(u, v, 0xEF);
    HereSame(u, v, 0x40);
    HereSame(u, v, CODE_PAGE);
  }

  /** The first attempt at the Popm reads its word and faults on its write, with sp moved. */
  lemma PopFaults() returns (v: Vm, d: Cpu.Ctx)
    ensures Short(POP) && LoneOs(At(8, POP, 2))
    ensures var os := At(8, POP, 2); var c := os.ctxs[0];
      && OnLine(os.vm, POP, 3, c) && c.sp == 0xEFF8 && c.regs[1] == 0x4000 && d == c.(sp := 0xEFFC)
      && Cpu.CpuStep(c, SpaceOf(os.vm, 0)) == Cpu.Result(d, v.mem, Cpu.Faulted(0x40))
      && Cpu.Read32(SpaceOf(os.vm, 0).(mem := AfterTouch(os.vm, CODE_PAGE).mem), c.sp).Done?
      && Lone(v) && v == os.vm.(mem := v.mem) && HasFree(v.mem) && !Here(v, 0x40) && CanTake(v)
    ensures OnLine(v, POP, 3, d) && Here(v, 0xEF)
  {
    hide Inv, Roomy, Live, Stack, CanTake, PageIn, View, K.OsInv, CodePage, Isa.Assemble, Cpu.CpuStep, AfterTouch,
         Entry, Here, At, Cpu.Write32, PageFree, Evicts, Stored, WordAt, Cpu.Read32;
    PopSecond();
    var vm, c := At(8, POP, 2).vm, At(8, POP, 2).ctxs[0];
    var u := AfterTouch(vm, CODE_PAGE);
    v, d := AfterTouch(u, 0xEF), c.(sp := 0xEFFC);
    TouchFacts(vm, CODE_PAGE);
    HereSame(vm, u, 0xEF);
    TouchFacts(u, 0xEF);
    HereSame(vm, v, 0x40);
    HereSame(vm, v, 0xEF);
    HereSame(vm, v, CODE_PAGE);
    SamePage(vm, u, 0xEFF8);
    WordHits(u, 0xEFF8);
    MoveLine(vm, POP, 3, c, 0xEFF8, 0x4000, Past(d, 3));
    LoneTakes(v);
  }

  /** A fault served from a free frame leaves the program and the resident pages where they are. */
  lemma FreeFault(vm: Vm, lines: seq<Isa.Line>, k: nat, c: Cpu.Ctx, q: nat, x: nat)
    requires OnLine(vm, lines, k, c) && !Here(vm, q) && HasFree(vm.mem) && Here(vm, x) && !InSharedWindow(x)
    ensures CanTake(vm) && var w := PageIn(vm, 0, q); OnLine(w, lines, k, c) && Here(w, q) && Here(w, x)
  {
    hide Inv, Roomy, Live, Stack, CanTake, PageIn, View, CodePage, Entry, PageFree, Evicts, Isa.Assemble;
    NoneEvicted(vm);
    FaultIn(vm, q);
    FaultOther(vm, q, CODE_PAGE);
    FaultOther(vm, q, x);
    FaultRuns(vm, q, lines);
  }

  /** The retry reads the word above and stores that. */
  lemma PopRetries(w: Vm, d: Cpu.Ctx)
    requires OnLine(w, POP, 3, d) && Here(w, 0xEF) && Here(w, 0x40) && d.sp == 0xEFFC && d.regs[1] == 0x4000
    ensures var s := Cpu.CpuStep(d, SpaceOf(w, 0));
      && s.outcome == Cpu.Continue && s.ctx == Past(d, 3).(sp := 0xF000)
      && Stored(AfterTouch(AfterTouch(w, CODE_PAGE), 0xEF), w.(mem := s.mem), 0x40)
  {
    hide Inv, Roomy, Live, Stack, CanTake, PageIn, View, K.OsInv, CodePage, Isa.Assemble, Cpu.CpuStep, AfterTouch,
         Entry, Here, At, Cpu.Write32, PageFree, Evicts, Stored, WordAt, Cpu.Read32;
    MoveLine(w, POP, 3, d, 0xEFFC, 0x4000, Past(d, 3).(sp := 0xF000));
    var w1 := AfterTouch(w, CODE_PAGE);
    var w2 := AfterTouch(w1, 0xEF);
    TouchFacts(w, CODE_PAGE);
    HereSame(w, w1, 0xEF);
    TouchFacts(w1, 0xEF);
    HereSame(w, w2, 0x40);
    WordStored(w2, 0x4000, WordAt(w, 0, 0xEFFC));
  }

  lemma PopAttempts() returns (v: Vm, d: Cpu.Ctx)
    ensures Short(POP) && LoneOs(At(8, POP, 2))
    ensures var os := At(8, POP, 2); var c := os.ctxs[0];
      && OnLine(os.vm, POP, 3, c) && c.sp == 0xEFF8 && c.regs[1] == 0x4000 && d == c.(sp := 0xEFFC)
      && Cpu.CpuStep(c, SpaceOf(os.vm, 0)) == Cpu.Result(d, v.mem, Cpu.Faulted(0x40))
      && Cpu.Read32(SpaceOf(os.vm, 0).(mem := AfterTouch(os.vm, CODE_PAGE).mem), c.sp).Done?
      && Lone(v) && v == os.vm.(mem := v.mem) && HasFree(v.mem) && !Here(v, 0x40) && CanTake(v)
    ensures var w := PageIn(v, 0, 0x40);
      && OnLine(w, POP, 3, d) && Here(w, 0xEF) && Here(w, 0x40)
      && var s := Cpu.CpuStep(d, SpaceOf(w, 0));
         (s.outcome == Cpu.Continue && s.ctx == Past(d, 3).(sp := 0xF000)
          && Stored(AfterTouch(AfterTouch(w, CODE_PAGE), 0xEF), w.(mem := s.mem), 0x40))
  {
    hide OnLine, Inv, Roomy, Live, CanTake, PageIn, Cpu.CpuStep, AfterTouch, Here, At, Stored, Cpu.Read32, LoneOs;
    v, d := PopFaults();
    OnLineMeans(v, POP, 3, d);
    FreeFault(v, POP, 3, d, 0x40, 0xEF);
    PopRetries(PageIn(v, 0, 0x40), d);
  }

  /** In the system: after the fourth turn, past the Popm, sp is one word too high. */
  lemma PopTurns()
    ensures Short(POP) && LoneOs(At(8, POP, 4))
    ensures var c := At(8, POP, 4).ctxs[0]; c.ip == CODE_BASE + 60 && c.sp == 0xF000
  {
    hide Inv, Roomy, Live, Stack, CanTake, PageIn, View, K.OsInv, CodePage, Isa.Assemble, Cpu.CpuStep, AfterTouch,
         Entry, Here, At, PageFree, StoppedAt, SafeSoFar, Cpu.Read32;
    var v, d := PopAttempts();
    var vm, c := At(8, POP, 2).vm, At(8, POP, 2).ctxs[0];
    var w := PageIn(v, 0, 0x40);
    var w1 := AfterTouch(w, CODE_PAGE);
    var w2 := AfterTouch(w1, 0xEF);
    Begin(vm, c);
    Stop(vm, c, vm, c, K.QUANTUM, v, d, Cpu.Faulted(0x40));
    FaultTurn(POP, 2, v, d, 0x40);
    var u, e := w.(mem := Cpu.CpuStep(d, SpaceOf(w, 0)).mem), Past(c, 3).(sp := 0xF000);
    TouchFacts(w, CODE_PAGE);
    HereSame(w, w1, 0xEF);
    HereSame(w, w1, CODE_PAGE);
    TouchFacts(w1, 0xEF);
    HereSame(w1, w2, CODE_PAGE);
    StoredRuns(w2, u, 0x40, POP);
    StoredPages(w2, u, 0x40);
    Begin(w, d);
    Advance(w, d, w, d, K.QUANTUM, u, e);
    InputLine(u, POP, 4, e, 1);
    TouchFacts(u, CODE_PAGE);
    Stop(w, d, u, e, K.QUANTUM - 1, AfterTouch(u, CODE_PAGE), Past(e, 4), Cpu.Trapped(Cpu.Trap.Input));
    InputTurn(POP, 3, AfterTouch(u, CODE_PAGE), Past(e, 4));
  }

  /** A Popm into an untouched page: where one pop of the word at 0xEFF8 would leave sp at 0xEFFC, it stores the word
      above and leaves sp at 0xF000. */
  lemma FirstPopSlips()
    ensures Short(POP) && LoneOs(At(8, POP, 4))
    ensures var c := At(8, POP, 4).ctxs[0]; c.ip == CODE_BASE + 60 && c.sp == 0xF000
    ensures var os, gap := At(8, POP, 2), [PageFault(0, 0x40)];
      && LoneOs(os) && Completes(os.vm, 0, os.ctxs[0], [gap]) && MovedSp(os.ctxs[0], SpaceOf(os.vm, 0))
      && FlatInstr(os.ctxs[0], os.vm, 0).ctx.sp == 0xEFFC && Last(os.vm, 0, os.ctxs[0], [gap]).1.ctx.sp == 0xF000
  {
    hide Inv, Roomy, Live, Stack, CanTake, PageIn, View, K.OsInv, CodePage, Isa.Assemble, Cpu.CpuStep, AfterTouch,
         Entry, Here, At, Stored, Cpu.Write32, Completes, Last, FlatInstr, Cpu.Fetch, Isa.Decode, Isa.Code, WordAt,
         Cpu.Read32;
    var v, d := PopAttempts();
    var vm, c := At(8, POP, 2).vm, At(8, POP, 2).ctxs[0];
    OneRetry(vm, c, v, d, 0x40);
    FetchHits(vm, POP, 3, c);
    LineIsInstr(vm, POP, 3, c);
    LinePrivate(3);
    FarFromCode(3, 0x4000);
    PopSlips(vm, 0, c, [PageFault(0, 0x40)]);
    PopTurns();
  }

  // ---- A copy over a page edge --------------------------------------------------------------------------------

  /** Stores 1, 2, 3, 4 at 0x40FC, the end of a page, and copies the word one byte up. */
  const COPY: seq<Isa.Line> := [
    Isa.Line(Isa.Movi, [Isa.Reg(1), Isa.Imm(0x40FD)]),
    Isa.Line(Isa.Movi, [Isa.Reg(2), Isa.Imm(0x40FC)]),
    Isa.Line(Isa.Movi, [Isa.Reg(3), Isa.Imm(0x04030201)]),
    Isa.Line(Isa.Movrm, [Isa.Reg(2), Isa.Reg(3)]),
    Isa.Line(Isa.Input, [Isa.Reg(1)]),
    Isa.Line(Isa.Movmm, [Isa.Reg(1), Isa.Reg(2)])]

  predicate CopyRegs(c: Cpu.Ctx)
    requires Cpu.CtxOk(c)
  {
    c.regs[1] == 0x40FD && c.regs[2] == 0x40FC && c.regs[3] == 0x04030201
  }

  /** The context after the first three lines. */
  function CopyCtx(c: Cpu.Ctx): (d: Cpu.Ctx)
    requires Cpu.CtxOk(c)
    ensures Cpu.CtxOk(d) && CopyRegs(d) && d.ip == CODE_BASE + 36
  {
    Cpu.SetReg(Past(Cpu.SetReg(Past(Cpu.SetReg(Past(c, 0), 1, 0x40FD), 1), 2, 0x40FC), 2), 3, 0x04030201)
  }

  lemma CopyLoads(vm: Vm, c: Cpu.Ctx)
    requires OnLine(vm, COPY, 0, c)
    ensures var v := AfterTouch(vm, CODE_PAGE); Reached(vm, c, v, CopyCtx(c), K.QUANTUM - 3) && OnLine(v, COPY, 3, CopyCtx(c))
  {
    hide Inv, Roomy, Live, Stack, View, CodePage, Isa.Assemble, Cpu.CpuStep, AfterTouch, Entry, Here, PageFree,
         Reached;
    var v, c1 := AfterTouch(vm, CODE_PAGE), Cpu.SetReg(Past(c, 0), 1, 0x40FD);
    var c2 := Cpu.SetReg(Past(c1, 1), 2, 0x40FC);
    TouchFacts(vm, CODE_PAGE);
    HereSame(vm, v, CODE_PAGE);
    Begin(vm, c);
    MoviLine(vm, COPY, 0, c, 1, 0x40FD);
    Advance(vm, c, vm, c, K.QUANTUM, v, c1);
    MoviLine(v, COPY, 1, c1, 2, 0x40FC);
    Advance(vm, c, v, c1, K.QUANTUM - 1, v, c2);
    MoviLine(v, COPY, 2, c2, 3, 0x04030201);
    Advance(vm, c, v, c2, K.QUANTUM - 2, v, CopyCtx(c));
  }

  lemma CopyStores(c: Cpu.Ctx)
    requires Cpu.CtxOk(c) && CopyRegs(c)
    ensures StoresOn(COPY, 3, c, 0x40FC, 0x04030201, c)
  {
    assert COPY[3] == Isa.Line(Isa.Movrm, [Isa.Reg(2), Isa.Reg(3)]);
  }

  /** The first turn stops at a fault on the store. */
  lemma CopyStarts() returns (v: Vm, d: Cpu.Ctx)
    ensures Short(COPY) && LoneOs(At(8, COPY, 0)) && Fresh(v, COPY) && |v.mem.frames| == 8
    ensures var os := At(8, COPY, 0); StoppedAt(os.vm, 0, os.ctxs[0]) == (v, d, Cpu.Faulted(0x40))
    ensures Cpu.CtxOk(d) && CopyRegs(d) && d.ip == CODE_BASE + 36 && forall q: nat | q != CODE_PAGE :: !Here(v, q)
  {
    hide Inv, Roomy, Live, Stack, CanTake, PageIn, View, K.OsInv, CodePage, Isa.Assemble, Cpu.CpuStep, AfterTouch,
         Entry, Here, At, Cpu.Write32, PageFree, StoppedAt, SafeSoFar, Reached, CopyCtx, Evicts, StoresOn, CopyRegs;
    AssemblesUpTo(COPY, 6);
    Settled(8, COPY);
    var vm, c := At(8, COPY, 0).vm, System.InitialCtx();
    v, d := AfterTouch(vm, CODE_PAGE), CopyCtx(c);
    CopyLoads(vm, c);
    CopyStores(d);
    StoreLine(v, COPY, 3, d, 0x40FC, 0x04030201, d);
    Stop(vm, c, v, d, K.QUANTUM - 3, v, d, Cpu.Faulted(0x40));
  }

  lemma CopyFirst()
    ensures Short(COPY) && LoneOs(At(8, COPY, 1))
    ensures var os := At(8, COPY, 1); var c := os.ctxs[0];
      && OnLine(os.vm, COPY, 3, c) && Here(os.vm, 0x40) && !Here(os.vm, 0x41) && HasFree(os.vm.mem) && CopyRegs(c)
  {
    hide Inv, Roomy, Live, Stack, CanTake, PageIn, View, K.OsInv, CodePage, Isa.Assemble, Cpu.CpuStep, AfterTouch,
         Entry, Here, At, Cpu.Write32, PageFree, StoppedAt, SafeSoFar, Reached, CopyCtx, Evicts, StoresOn, CopyRegs;
    var v, d := CopyStarts();
    FaultTurn(COPY, 0, v, d, 0x40);
    FirstFault(v, COPY, 0x40);
  }

  /** The second completes it and asks for input. */
  lemma CopySecond()
    ensures Short(COPY) && LoneOs(At(8, COPY, 2))
    ensures var os := At(8, COPY, 2); var c := os.ctxs[0];
      && OnLine(os.vm, COPY, 5, c) && Here(os.vm, 0x40) && !Here(os.vm, 0x41) && HasFree(os.vm.mem) && CopyRegs(c)
      && forall m: nat | m < 4 :: ByteAt(os.vm, 0, Cpu.At(0x40FC, m)) == m + 1
  {
    hide Inv, Roomy, Live, Stack, CanTake, PageIn, View, K.OsInv, CodePage, Isa.Assemble, Cpu.CpuStep, AfterTouch,
         Entry, Here, At, Cpu.Write32, PageFree, StoppedAt, SafeSoFar;
    CopyFirst();
    var vm, c := At(8, COPY, 1).vm, At(8, COPY, 1).ctxs[0];
    TouchFacts(vm, CODE_PAGE);
    CopyStores(c);
    StoreLine(vm, COPY, 3, c, 0x40FC, 0x04030201, c);
    var u := vm.(mem := Cpu.CpuStep(c, SpaceOf(vm, 0)).mem);
    Begin(vm, c);
    Advance(vm, c, vm, c, K.QUANTUM, u, Past(c, 3));
    AfterStore(vm, u, 0x40, COPY);
    InputLine(u, COPY, 4, Past(c, 3), 1);
    TouchFacts(u, CODE_PAGE);
    var v := AfterTouch(u, CODE_PAGE);
    Stop(vm, c, u, Past(c, 3), K.QUANTUM - 1, v, Past(Past(c, 3), 4), Cpu.Trapped(Cpu.Trap.Input));
    InputTurn(COPY, 1, v, Past(Past(c, 3), 4));
    HereSame(u, v, 0x40);
    HereSame(u, v, 0x41);
    HereSame(u, v, CODE_PAGE);
    forall m: nat | m < 4 ensures ByteAt(v, 0, Cpu.At(0x40FC, m)) == m + 1 {
      SameByte(u, v, Cpu.At(0x40FC, m));
      assert Private(Cpu.At(0x40FC, m));
      FourBytes(ByteAt(vm, 0, Cpu.At(0x40FC, m)), m);
    }
  }

  lemma FourBytes(was: Byte, m: nat)
    requires m < 4
    ensures Patched(was, Cpu.At(0x40FC, m), 0x40FC, 0x04030201, 4) == m + 1
  {}

  /** The copy reads the word, writes its first three bytes and faults at the page edge. */
  lemma CopyFaults() returns (v: Vm)
    ensures Short(COPY) && LoneOs(At(8, COPY, 2))
    ensures var os := At(8, COPY, 2); var c := os.ctxs[0];
      && OnLine(os.vm, COPY, 5, c) && CopyRegs(c) && Here(os.vm, 0x40)
      && Cpu.CpuStep(c, SpaceOf(os.vm, 0)) == Cpu.Result(c, v.mem, Cpu.Faulted(0x41))
      && Cpu.Read32(SpaceOf(os.vm, 0).(mem := AfterTouch(os.vm, CODE_PAGE).mem), 0x40FC).Done?
      && OnLine(v, COPY, 5, c) && v == os.vm.(mem := v.mem) && HasFree(v.mem) && !Here(v, 0x41) && Here(v, 0x40)
      && forall m: nat | m < 4 :: ByteAt(os.vm, 0, Cpu.At(0x40FC, m)) == m + 1
  {
    hide Inv, Roomy, Live, Stack, View, K.OsInv, CodePage, Isa.Assemble, Cpu.CpuStep, AfterTouch, Entry, Here, At,
         Cpu.Write32, PageFree, WordAt, Cpu.Read32, ByteAt;
    CopySecond();
    var vm, c := At(8, COPY, 2).vm, At(8, COPY, 2).ctxs[0];
    var u := AfterTouch(vm, CODE_PAGE);
    var w := AfterTouch(u, 0x40);
    TouchFacts(vm, CODE_PAGE);
    HereSame(vm, u, 0x40);
    TouchFacts(u, 0x40);
    HereSame(vm, w, 0x40);
    HereSame(vm, w, 0x41);
    HereSame(vm, w, CODE_PAGE);
    SamePage(vm, u, 0x40FC);
    WordHits(u, 0x40FC);
    MoveLine(vm, COPY, 5, c, 0x40FC, 0x40FD, Past(c, 5));
    EdgeFault(w, 0x40FD, WordAt(vm, 0, 0x40FC), 3);
    v := vm.(mem := Cpu.Write32(SpaceOf(w, 0), 0x40FD, WordAt(vm, 0, 0x40FC)).mem);
    StoredPages(w, v, 0x40);
    StoredRuns(w, v, 0x40, COPY);
  }

  /** With both pages resident the copy completes. */
  lemma CopyRetries(w: Vm, c: Cpu.Ctx)
    requires OnLine(w, COPY, 5, c) && Here(w, 0x40) && Here(w, 0x41) && CopyRegs(c)
    ensures Cpu.CpuStep(c, SpaceOf(w, 0)).outcome == Cpu.Continue
  {
    hide Inv, Roomy, Live, Stack, View, CodePage, Isa.Assemble, Cpu.CpuStep, AfterTouch, Entry, Here, PageFree,
         WordAt, Cpu.Read32;
    MoveLine(w, COPY, 5, c, 0x40FC, 0x40FD, Past(c, 5));
    var w1 := AfterTouch(w, CODE_PAGE);
    var w2 := AfterTouch(w1, 0x40);
    TouchFacts(w, CODE_PAGE);
    HereSame(w, w1, 0x40);
    TouchFacts(w1, 0x40);
    HereSame(w, w2, 0x40);
    HereSame(w, w2, 0x41);
    WritesWhereMapped(w2, 0x40FD, WordAt(w, 0, 0x40FC), 4);
  }

  /** A copy one byte up over a page edge whose far page is not resident: its retry reads the bytes 1, 1, 2, 3 its
      first attempt left, and stores those instead of 1, 2, 3, 4. */
  lemma FirstCopyRereads()
    ensures Short(COPY)
    ensures var os, gap := At(8, COPY, 2), [PageFault(0, 0x41)];
      && LoneOs(os) && Completes(os.vm, 0, os.ctxs[0], [gap])
      && InstrAt(os.ctxs[0], os.vm, 0) == Some(Cpu.Move(0x40FC, 0x40FD, Past(os.ctxs[0], 5)))
      && (forall m: nat | m < 4 :: ByteAt(os.vm, 0, Cpu.At(0x40FC, m)) == m + 1)
      && !AllWritten(os.vm, Last(os.vm, 0, os.ctxs[0], [gap]).0, 0, FlatInstr(os.ctxs[0], os.vm, 0).wrote)
  {
    hide Inv, Roomy, Live, Stack, CanTake, PageIn, View, K.OsInv, CodePage, Isa.Assemble, Cpu.CpuStep, AfterTouch,
         Entry, Here, At, Stored, Cpu.Write32, Completes, Last, FlatInstr, Cpu.Fetch, Isa.Decode, Isa.Code, WordAt,
         Cpu.Read32, InstrAt, ByteAt, AllWritten;
    var v := CopyFaults();
    var vm, c := At(8, COPY, 2).vm, At(8, COPY, 2).ctxs[0];
    FreeFault(v, COPY, 5, c, 0x41, 0x40);
    CopyRetries(PageIn(v, 0, 0x41), c);
    OneRetry(vm, c, v, c, 0x41);
    CopyInstr(vm, c);
    FarFromCode(5, 0x40FD);
    CopyShape();
    HereIsResident(vm, 0x40);
    RereadIffRepeats(vm, 0, c, [PageFault(0, 0x41)]);
    assert ByteAt(vm, 0, Cpu.At(0x40FC, 1)) == 2 && ByteAt(vm, 0, Cpu.At(0x40FC, 0)) == 1;
    assert !Repeats(vm, 0, 0x40FC, 1);
  }

  lemma CopyInstr(vm: Vm, c: Cpu.Ctx)
    requires OnLine(vm, COPY, 5, c) && CopyRegs(c)
    ensures InstrAt(c, vm, 0) == Some(Cpu.Move(0x40FC, 0x40FD, Past(c, 5))) && InstrPrivate(c, vm, 0)
    ensures Cpu.Fetch(SpaceOf(vm, 0), c.ip).Done? && Cpu.Fetch(SpaceOf(vm, 0), c.ip).mem == AfterTouch(vm, CODE_PAGE).mem
  {
    hide Inv, Roomy, Live, View, CodePage, Isa.Assemble, AfterTouch, Here, Cpu.Fetch, Isa.Decode, Isa.Code, WordAt,
         InstrAt, PrivateWord;
    FetchHits(vm, COPY, 5, c);
    LineIsInstr(vm, COPY, 5, c);
    LinePrivate(5);
    CopyShape();
  }

  lemma CopyShape()
    ensures Rereads(0x40FC, 0x40FD) && Off(0x40FD, 0x40FC) == 1 && PrivateWord(0x40FC) && PrivateWord(0x40FD)
  {}

  lemma HereIsResident(vm: Vm, q: nat)
    ensures Here(vm, q) == Resident(vm, 0, q)
  {}
}
