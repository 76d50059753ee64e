/** A sample program of the repository that its comments expect to work, followed turn by turn. */
module Samples {
  import opened Basics
  import opened Memory
  import opened Paging
  import opened FrameInvariant
  import opened PagingRuns
  import opened FlatMemory
  import opened FlatInstructions
  import opened KernelRuns
  import opened Execution
  import Cpu = Processor
  import Isa = Instructions
  import K = Kernel
  import Sched = Scheduling
  import System
  import Windows

  /** memory_test.asm: store 99 at address 200, load it, print it. */
  const MEMORY_TEST: seq<Isa.Line> := [
    Isa.Line(Isa.Movi, [Isa.Reg(3), Isa.Imm(200)]),
    Isa.Line(Isa.Movi, [Isa.Reg(2), Isa.Imm(99)]),
    Isa.Line(Isa.Movrm, [Isa.Reg(3), Isa.Reg(2)]),
    Isa.Line(Isa.Movmr, [Isa.Reg(1), Isa.Reg(3)]),
    Isa.Line(Isa.Printr, [Isa.Reg(1)]),
    Isa.Line(Isa.Exit, [])]

  /** Address 200 lies in no window, so the store throws, having changed nothing. */
  lemma StoreThrows(vm: Vm, c: Cpu.Ctx)
    requires OnLine(vm, MEMORY_TEST, 2, c) && c.regs[3] == 200 && c.regs[2] == 99
    ensures Cpu.CpuStep(c, SpaceOf(vm, 0)) == Cpu.Result(Past(c, 2), AfterTouch(vm, CODE_PAGE).mem, Cpu.Crashed)
  {
    hide Inv, Roomy, Live, AfterTouch, Cpu.WriteBytes, Cpu.CpuStep, Here, View, CodePage, Isa.Assemble;
    LineStep(vm, MEMORY_TEST, 2, c);
    var v := AfterTouch(vm, CODE_PAGE);
    OutsideWord(v);
    Windows.Write32Ends(v, 0, 200, 99);
    OnLineMeans(vm, MEMORY_TEST, 2, c);
    Throws(v, Past(c, 2), 200, 99);
  }

  lemma OutsideWord(v: Vm)
    requires Runs(v, MEMORY_TEST)
    ensures Shape(v) && Inv(v) && |v.pids| == 1 && Windows.Verdict(v, 0, Windows.WordBytes(200)) == Cpu.Crashed
  {}

  lemma Throws(v: Vm, d: Cpu.Ctx, va: Word, w: Word)
    requires Inv(v) && Shape(v) && |v.pids| == 1 && Cpu.CtxOk(d) && !Windows.Inside(v.sizes[0], va)
    ensures Cpu.Perform(Cpu.Store(va, w, d, d), d, SpaceOf(v, 0)) == Cpu.Result(d, v.mem, Cpu.Crashed)
  {
    hide Inv, Cpu.WriteBytes, Windows.Inside;
    FirstThrows(v, va, w, 4);
  }

  lemma {:induction false} FirstThrows(v: Vm, va: Word, w: Word, n: nat)
    requires Inv(v) && Shape(v) && |v.pids| == 1 && !Windows.Inside(v.sizes[0], va) && 0 < n <= 4
    ensures Cpu.WriteBytes(SpaceOf(v, 0), va, w, n) == Error(v.mem)
  {
    hide Inv, WriteByte, ReadByte, Windows.Inside;
    if n == 1 {
      assert Cpu.WriteBytes(SpaceOf(v, 0), va, w, 0) == Done(v.mem, ());
      Windows.AccessOutcome(v, 0, va, Isa.WordByte(w, 0));
    } else {
      FirstThrows(v, va, w, n - 1);
    }
  }

  /** However much memory there is, the program is terminated in its first turn, at its store to address 200; nothing is
      stored and nothing is printed. */
  lemma MemoryTestEnds(numFrames: nat)
    requires NUM_SHARED < numFrames <= MAX_FRAMES
    ensures Short(MEMORY_TEST) && LoneOs(At(numFrames, MEMORY_TEST, 0))
    ensures var s := At(numFrames, MEMORY_TEST, 1).sched; |s.tasks| == 1 && s.tasks[0].state == Sched.Terminated
  {
    hide Inv, Roomy, Live, StoppedAt, At, SafeSoFar, View, K.OsInv, Isa.Assemble, Cpu.CpuStep, AfterTouch, Entry, Here, CodePage,
         Reached, PageFree;
    AssemblesUpTo(MEMORY_TEST, 6);
    Settled(numFrames, MEMORY_TEST);
    var vm, c := At(numFrames, MEMORY_TEST, 0).vm, System.InitialCtx();
    var v := AfterTouch(vm, CODE_PAGE);
    Begin(vm, c);
    MoviLine(vm, MEMORY_TEST, 0, c, 3, 200);
    var c1 := Cpu.SetReg(Past(c, 0), 3, 200);
    Advance(vm, c, vm, c, K.QUANTUM, v, c1);
    MoviLine(v, MEMORY_TEST, 1, c1, 2, 99);
    var c2 := Cpu.SetReg(Past(c1, 1), 2, 99);
    Advance(vm, c, v, c1, K.QUANTUM - 1, v, c2);
    StoreThrows(v, c2);
    Stop(vm, c, v, c2, K.QUANTUM - 2, v, Past(c2, 2), Cpu.Crashed);
    LoneEnd(At(numFrames, MEMORY_TEST, 0), v, Past(c2, 2), Cpu.Crashed);
    StoryGoesOn(numFrames, MEMORY_TEST, 1);
  }
}
