/** How a process starts: its program in memory line by line, its registers clear, ready to run its first line. */
module Startup {
  import opened Basics
  import opened Memory
  import opened Paging
  import opened FrameInvariant
  import opened PagingRuns
  import opened FlatMemory
  import opened FlatInstructions
  import opened InstructionLaws
  import opened Windows
  import Cpu = Processor
  import Isa = Instructions
  import K = Kernel
  import LP = LoadedProgram
  import Sched = Scheduling
  import SI = SchedulerInvariant
  import Leaks
  import opened System

  /** Loading puts line k at address 0x1000 + 12 k, resident and in the code window. */
  lemma LoadedLine(vm: Vm, lines: seq<Isa.Line>, k: nat)
    requires Inv(vm) && Roomy(vm) && Shape(vm) && Isa.Assemble(lines).Some? && k < |lines|
    requires 12 * |lines| <= 0xE000 && Create(vm, Isa.Assemble(lines).value).1
    ensures LineAt(Create(vm, Isa.Assemble(lines).value).0, |vm.pids|, 0x1000 + 12 * k, lines[k])
  {
    hide Inv, Create, Isa.Assemble, Isa.AssembleLine, ByteAt, Resident, Verdict, Roomy, Inside, CodeBytes, Cpu.At;
    var code, ip := Isa.Assemble(lines).value, 0x1000 + 12 * k;
    var r, i := Create(vm, code).0, |vm.pids|;
    CreateInv(vm, code);
    LP.CodeResident(vm, code);
    Isa.AssembledLine(lines, k);
    forall j: nat | j < 12 ensures ByteAt(r, i, Cpu.At(ip, j)) == Isa.AssembleLine(lines[k]).value[j] {
      NoWrap(ip, j);
      LP.LoadedByte(vm, code, 12 * k + j);
      assert code[12 * k..12 * k + 12][j] == code[12 * k + j];
    }
    VerdictContinues(r, i, CodeBytes(ip));
    forall x | x in CodeBytes(ip) ensures Inside(r.sizes[i], x) && Resident(r, i, x / PAGE_SIZE) {
      AmongTwelve(ip, x);
      InCode(r, i, code, x);
    }
  }

  lemma NoWrap(ip: Word, j: nat)
    requires ip + j < WORD_RANGE
    ensures Cpu.At(ip, j) == ip + j
  {}

  lemma InCode(r: Vm, i: nat, code: seq<Byte>, x: Word)
    requires Shape(r) && i < |r.pids| && r.sizes[i] == |code| <= 0xE000 && CODE_BASE <= x < CODE_BASE + |code|
    requires Entry(r.mem, i, x / PAGE_SIZE).isValid
    ensures Inside(r.sizes[i], x) && Resident(r, i, x / PAGE_SIZE)
  {}

  lemma AmongTwelve(ip: Word, x: Word)
    requires x in CodeBytes(ip) && ip <= 0xF000
    ensures ip <= x < ip + 12
  {
    AmongFour(ip, x);
    NoWrap(ip, 4);
    AmongFour(ip + 4, x);
    NoWrap(ip, 8);
    AmongFour(ip + 8, x);
    hide Cpu.At, WordBytes;
  }

  lemma AmongFour(va: Word, x: Word)
    requires va <= 0xF010
    ensures x in WordBytes(va) ==> va <= x < va + 4
  {
    NoWrap(va, 1);
    NoWrap(va, 2);
    NoWrap(va, 3);
    hide Cpu.At;
  }

  /** A new process is at its first line, its registers and flags clear and sp at 0xF000, behind whoever is ready at its
      priority, which is cut to 1..32; nothing of any other process changes. */
  lemma StartsAtItsFirstLine(os: K.Os, lines: seq<Isa.Line>, priority: nat)
    requires K.OsInv(os) && Shape(os.vm) && Isa.Assemble(lines).Some? && 0 < |lines| && 12 * |lines| <= 0xE000
    requires Create(os.vm, Isa.Assemble(lines).value).1
    ensures var r, n := CreateProcess(os, Isa.Assemble(lines).value, priority), |os.ctxs|;
      && |r.ctxs| == n + 1 && r.ctxs[..n] == os.ctxs && AtLine(r.vm, n, r.ctxs[n], lines[0])
      && r.ctxs[n].sp == 0xF000 && !r.ctxs[n].zero && !r.ctxs[n].sign
      && (forall a | 0 <= a < 16 :: r.ctxs[n].regs[a] == 0)
      && |r.sched.tasks| == n + 1 && r.sched.tasks[..n] == os.sched.tasks && r.sched.tasks[n].state == Sched.Ready
      && var p := if priority < 1 then 1 else if priority > 32 then 32 else priority;
      && |os.sched.ready| == |r.sched.ready| == 33 && r.sched.ready[p] == os.sched.ready[p] + [n]
      && forall q | 0 <= q < 33 && q != p :: r.sched.ready[q] == os.sched.ready[q]
  {
    hide Inv, Create, Roomy, LineAt, SI.Serving, Sched.Admit, Isa.Assemble, Live;
    LoadedLine(os.vm, lines, 0);
    forall i: nat | i < |os.sched.tasks| ensures os.sched.tasks[i].pid != os.vm.nextPid {
      assert K.Aligned(os, i);
      Leaks.NextPidIsNew(os.vm);
    }
    SI.AdmitServes(os.sched, os.vm.nextPid, priority);
    SI.ServingSized(os.sched, {}, {});
  }
}
