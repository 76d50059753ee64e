/** What each line of assembly does when the CPU reaches it, told on registers, flags, ip, sp and the bytes of the
    process: the assembler, the decoder and the CPU taken together. */
module InstructionLaws {
  import opened Basics
  import opened Memory
  import opened Paging
  import opened FrameInvariant
  import opened FlatMemory
  import opened Instructions
  import opened Processor
  import opened FlatInstructions
  import opened Windows
  import LP = LoadedProgram
  import Restart

  // ---- A line at ip --------------------------------------------------------------------------------------------------

  /** The bytes at ip are those of the line, in a window and resident. */
  ghost predicate LineAt(vm: Vm, i: nat, ip: Word, line: Line) {
    && Inv(vm) && Shape(vm) && i < |vm.pids| && AssembleLine(line).Some?
    && Verdict(vm, i, CodeBytes(ip)) == Continue
    && forall k: nat | k < 12 :: ByteAt(vm, i, At(ip, k)) == AssembleLine(line).value[k]
  }

  ghost predicate AtLine(vm: Vm, i: nat, c: Ctx, line: Line) {
    CtxOk(c) && LineAt(vm, i, c.ip, line)
  }

  /** Memory m of process i has the bytes of vm, in the same resident pages. */
  ghost predicate Unchanged(vm: Vm, i: nat, m: Mem) {
    var v := vm.(mem := m);
    && Inv(vm) && Inv(v) && Shape(vm) && Shape(v) && SamePages(vm, v, i) && forall x: Word :: ByteAt(v, i, x) == ByteAt(vm, i, x)
  }

  /** It has them but for the word at va, which is w. */
  ghost predicate Stored(vm: Vm, i: nat, m: Mem, va: Word, w: Word) {
    var v := vm.(mem := m);
    && Inv(vm) && Inv(v) && Shape(vm) && Shape(v) && SamePages(vm, v, i)
    && forall x: Word :: ByteAt(v, i, x) == if Off(x, va) < 4 then WordByte(w, Off(x, va)) else ByteAt(vm, i, x)
  }

  lemma UnchangedThen(vm: Vm, i: nat, m: Mem, n: Mem)
    requires Unchanged(vm, i, m) && Unchanged(vm.(mem := m), i, n)
    ensures Unchanged(vm, i, n)
  {
    hide Inv, ByteAt, Resident;
  }

  lemma UnchangedStored(vm: Vm, i: nat, m: Mem, n: Mem, va: Word, w: Word)
    requires Unchanged(vm, i, m) && Stored(vm.(mem := m), i, n, va, w)
    ensures Stored(vm, i, n, va, w)
  {
    hide Inv, ByteAt, Resident, WordByte, Off;
  }

  lemma StoredUnchanged(vm: Vm, i: nat, m: Mem, n: Mem, va: Word, w: Word)
    requires Stored(vm, i, m, va, w) && Unchanged(vm.(mem := m), i, n)
    ensures Stored(vm, i, n, va, w)
  {
    hide Inv, ByteAt, Resident, WordByte, Off;
  }

  /** The word stored is the word read back. */
  lemma StoredWord(vm: Vm, i: nat, m: Mem, va: Word, w: Word)
    requires Stored(vm, i, m, va, w)
    ensures WordAt(vm.(mem := m), i, va) == w
  {
    hide Inv, ByteAt, Resident, WordByte, FromBytes, Off, At;
    WordRoundTrip(w);
    OffAt(va, 0);
    OffAt(va, 1);
    OffAt(va, 2);
    OffAt(va, 3);
    LP.AtZero(va);
  }

  lemma OffAt(va: Word, k: nat)
    requires k < 4
    ensures Off(At(va, k), va) == k
  {}

  lemma SameWord(vm: Vm, i: nat, m: Mem, va: Word)
    requires Unchanged(vm, i, m)
    ensures WordAt(vm.(mem := m), i, va) == WordAt(vm, i, va)
  {
    hide Inv, ByteAt, Resident;
  }

  /** The words of the line, as fetched. */
  lemma LineFetched(vm: Vm, i: nat, c: Ctx, line: Line) returns (a: Word, b: Word, m: Mem)
    requires AtLine(vm, i, c, line)
    ensures Operands(line.op, line.args) == Some((a, b)) && RegsOk(line.op, a, b)
    ensures Unchanged(vm, i, m)
    ensures var d := c.(ip := At(c.ip, 12)); var r := Perform(EffectOf(d, line.op, a, b), d, SpaceOf(vm.(mem := m), i));
      CpuStep(c, SpaceOf(vm, i)) == if r.outcome.Faulted? then r.(ctx := r.ctx.(ip := c.ip)) else r
  {
    hide Inv, Fetch, ByteAt, Emit32, Code, Decode, RegsOk, Operands, EffectOf, Perform, FromBytes, WordByte, At,
         AssembleLine, CodeBytes, Verdict, Resident;
    LP.AssembleLineForm(line);
    a, b := Operands(line.op, line.args).value.0, Operands(line.op, line.args).value.1;
    LineWord(vm, i, c, line, 0, Code(line.op), AssembleLine(line).value[0..4]);
    LineWord(vm, i, c, line, 4, a, AssembleLine(line).value[4..8]);
    LineWord(vm, i, c, line, 8, b, AssembleLine(line).value[8..12]);
    LP.LineWords(AssembleLine(line).value, 0, Code(line.op), a, b);
    LP.AtZero(c.ip);
    FetchEnds(vm, i, c.ip);
    FetchIsFlat(vm, i, c.ip);
    m := Fetch(SpaceOf(vm, i), c.ip).mem;
    DecodeCode(line.op);
    LP.OperandsPass(line.op, line.args);
  }

  lemma LineWord(vm: Vm, i: nat, c: Ctx, line: Line, j: nat, w: Word, part: seq<Byte>)
    requires AtLine(vm, i, c, line) && j <= 8 && part == AssembleLine(line).value[j..j + 4]
    ensures part == Emit32(w) ==> WordAt(vm, i, At(c.ip, j)) == w
  {
    hide Inv, ByteAt, AssembleLine, CodeBytes, Verdict, Resident, WordByte, FromBytes;
    if part == Emit32(w) {
      WordRoundTrip(w);
      hide At;
      forall k: nat | k < 4 ensures ByteAt(vm, i, At(At(c.ip, j), k)) == WordByte(w, k) {
        Restart.AtAt(c.ip, j, k);
        assert part[k] == AssembleLine(line).value[j + k];
      }
      LP.AtZero(At(c.ip, j));
    }
  }

  /** A line whose effect is on registers and flags only, or that traps. */
  lemma PlainStep(vm: Vm, i: nat, c: Ctx, line: Line, after: Ctx, outcome: Outcome)
    requires AtLine(vm, i, c, line) && CtxOk(c) && CtxOk(after) && Operands(line.op, line.args).Some?
    requires var (a, b) := Operands(line.op, line.args).value;
      RegsOk(line.op, a, b) && EffectOf(c.(ip := At(c.ip, 12)), line.op, a, b) == Plain(after, outcome)
    requires !outcome.Faulted?
    ensures Shape(vm) && i < |vm.pids|
    ensures var r := CpuStep(c, SpaceOf(vm, i)); r.outcome == outcome && r.ctx == after && Unchanged(vm, i, r.mem)
  {
    hide AtLine, Unchanged, CpuStep, EffectOf, Operands, RegsOk;
    AtLineMeans(vm, i, c, line);
    var a, b, m := LineFetched(vm, i, c, line);
  }

  lemma AtLineMeans(vm: Vm, i: nat, c: Ctx, line: Line)
    requires AtLine(vm, i, c, line)
    ensures Inv(vm) && Shape(vm) && i < |vm.pids| && CtxOk(c)
  {}

  lemma WordPlus(x: int, y: int)
    ensures ToWord(ToWord(x) + y) == ToWord(x + y)
  {}

  lemma SignedPlus(x: int, w: Word)
    ensures ToWord(x + ToInt32(w)) == ToWord(x + w)
  {}

  // ---- Registers -------------------------------------------------------------------------------------------------------

  /** x is word w taken as a signed number. */
  predicate IsSigned(x: int, w: Word) {
    x % 0x1_0000_0000 == w && -0x8000_0000 <= x < 0x8000_0000
  }

  /** x is the sum y taken as a signed 64-bit number. */
  predicate IsWrapped(x: int, y: int) {
    (x - y) % 0x1_0000_0000_0000_0000 == 0 && -0x8000_0000_0000_0000 <= x < 0x8000_0000_0000_0000
  }

  /** Exactly ip, by one line, and register a changed. */
  predicate OnlyReg(c: Ctx, d: Ctx, a: nat)
    requires CtxOk(c) && CtxOk(d) && a < 16
  {
    d == c.(ip := ToWord(c.ip + 12), regs := c.regs[a := d.regs[a]])
  }

  lemma MoveImmediate(vm: Vm, i: nat, c: Ctx, a: nat, w: Word)
    requires 1 <= a <= 10 && AtLine(vm, i, c, Line(Movi, [Reg(a), Imm(w)])) && CtxOk(c)
    ensures var r := CpuStep(c, SpaceOf(vm, i));
      r.outcome == Continue && OnlyReg(c, r.ctx, a) && IsSigned(r.ctx.regs[a], w) && Unchanged(vm, i, r.mem)
  {
    hide AtLine, Unchanged, CpuStep, ToInt32;
    PlainStep(vm, i, c, Line(Movi, [Reg(a), Imm(w)]), SetReg(c.(ip := At(c.ip, 12)), a, ToInt32(w)), Continue);
    Int32IsSigned(w);
  }

  lemma Int32IsSigned(w: Word)
    ensures IsSigned(ToInt32(w), w)
  {}

  lemma MoveRegister(vm: Vm, i: nat, c: Ctx, a: nat, b: nat)
    requires 1 <= a <= 10 && 1 <= b <= 10 && AtLine(vm, i, c, Line(Movr, [Reg(a), Reg(b)])) && CtxOk(c)
    ensures var r := CpuStep(c, SpaceOf(vm, i));
      r.outcome == Continue && OnlyReg(c, r.ctx, a) && r.ctx.regs[a] == c.regs[b] && Unchanged(vm, i, r.mem)
  {
    hide AtLine, Unchanged, CpuStep;
    PlainStep(vm, i, c, Line(Movr, [Reg(a), Reg(b)]), SetReg(c.(ip := At(c.ip, 12)), a, c.regs[b]), Continue);
  }

  /** The line adds x to register a. */
  predicate AddsTo(line: Line, c: Ctx, a: nat, x: int)
    requires CtxOk(c)
  {
    || (line == Line(Incr, [Reg(a)]) && x == 1)
    || (line.op == Addi && |line.args| == 2 && line.args[0] == Reg(a) && line.args[1].Imm? && IsSigned(x, line.args[1].w))
    || (exists b | 1 <= b <= 10 :: line == Line(Addr, [Reg(a), Reg(b)]) && x == c.regs[b])
  }

  /** Additions wrap around at 64 bits. */
  lemma Adds(vm: Vm, i: nat, c: Ctx, line: Line, a: nat, x: int)
    requires 1 <= a <= 10 && AtLine(vm, i, c, line) && CtxOk(c) && AddsTo(line, c, a, x)
    ensures var r := CpuStep(c, SpaceOf(vm, i));
      r.outcome == Continue && OnlyReg(c, r.ctx, a) && IsWrapped(r.ctx.regs[a], c.regs[a] + x) && Unchanged(vm, i, r.mem)
  {
    hide AtLine, Unchanged, CpuStep, ToInt64, ToInt32, IsSigned, IsWrapped;
    if line.op == Addi { SignedIsToInt32(x, line.args[1].w); }
    PlainStep(vm, i, c, line, SetReg(c.(ip := At(c.ip, 12)), a, ToInt64(c.regs[a] + x)), Continue);
    Wraps(c.regs[a] + x);
  }

  lemma SignedIsToInt32(x: int, w: Word)
    requires IsSigned(x, w)
    ensures ToInt32(w) == x
  {}

  lemma Wraps(y: int)
    ensures IsWrapped(ToInt64(y), y)
  {}

  // ---- Jumps -----------------------------------------------------------------------------------------------------------

  /** Where a jump at this ip goes: its operand past the next line, or the address it names. */
  function Target(line: Line, c: Ctx): Word
    requires CtxOk(c) && |line.args| == 1 && (line.args[0].Reg? ==> 1 <= line.args[0].n <= 10)
  {
    match line.args[0]
    case Reg(a) => ToWord(c.ip + 12 + c.regs[a])
    case Imm(w) => if line.op in {Jmpa, Jlta, Jgta, Jea} then w else ToWord(c.ip + 12 + w)
  }

  predicate IsJump(line: Line, ops: set<Opcode>) {
    line.op in ops && |line.args| == 1 && (line.args[0].Reg? ==> 1 <= line.args[0].n <= 10)
  }

  lemma Jumps(vm: Vm, i: nat, c: Ctx, line: Line)
    requires AtLine(vm, i, c, line) && IsJump(line, {Jmp, Jmpi, Jmpa}) && CtxOk(c)
    ensures var r := CpuStep(c, SpaceOf(vm, i));
      r.outcome == Continue && r.ctx == c.(ip := Target(line, c)) && Unchanged(vm, i, r.mem)
  {
    hide AtLine, Unchanged, CpuStep;
    LineOperands(vm, i, c, line);
    JumpTarget(c, line);
    hide ToWord, ToInt32, Target;
    PlainStep(vm, i, c, line, c.(ip := Target(line, c)), Continue);
  }

  /** As the CPU computes it, with ip past the jump already. */
  lemma JumpTarget(c: Ctx, line: Line)
    requires CtxOk(c) && |line.args| == 1 && (line.args[0].Reg? ==> 1 <= line.args[0].n <= 10)
    ensures var d := c.(ip := At(c.ip, 12));
      && (line.args[0].Reg? ==> Target(line, c) == ToWord(d.ip + c.regs[line.args[0].n]))
      && (line.args[0].Imm? && line.op !in {Jmpa, Jlta, Jgta, Jea} ==> Target(line, c) == ToWord(d.ip + ToInt32(line.args[0].w)))
      && (line.args[0].Imm? && line.op in {Jmpa, Jlta, Jgta, Jea} ==> Target(line, c) == line.args[0].w)
  {
    hide ToWord, ToInt32;
    match line.args[0]
    case Reg(a) => WordPlus(c.ip + 12, c.regs[a]);
    case Imm(w) =>
      SignedPlus(At(c.ip, 12), w);
      WordPlus(c.ip + 12, w);
  }

  /** The line compares x with y. */
  predicate Compares(line: Line, c: Ctx, x: int, y: int)
    requires CtxOk(c)
  {
    exists a | 1 <= a <= 10 ::
      x == c.regs[a] &&
      (|| (line.op == Cmpi && |line.args| == 2 && line.args[0] == Reg(a) && line.args[1].Imm? && IsSigned(y, line.args[1].w))
       || (exists b | 1 <= b <= 10 :: line == Line(Cmpr, [Reg(a), Reg(b)]) && y == c.regs[b]))
  }

  /** A comparison is remembered until the next. */
  lemma Comparing(vm: Vm, i: nat, c: Ctx, line: Line, x: int, y: int)
    requires AtLine(vm, i, c, line) && CtxOk(c) && Compares(line, c, x, y)
    ensures var r := CpuStep(c, SpaceOf(vm, i));
      r.outcome == Continue && r.ctx == c.(ip := ToWord(c.ip + 12), zero := x == y, sign := x < y) && Unchanged(vm, i, r.mem)
  {
    hide AtLine, Unchanged, CpuStep, ToInt32, IsSigned;
    if line.op == Cmpi { SignedIsToInt32(y, line.args[1].w); }
    PlainStep(vm, i, c, line, c.(ip := At(c.ip, 12), zero := x == y, sign := x < y), Continue);
  }

  lemma BranchEffect(c: Ctx, line: Line, taken: bool)
    requires CtxOk(c) && IsJump(line, {Jlt, Jlti, Jlta, Jgt, Jgti, Jgta, Je, Jei, Jea}) && Operands(line.op, line.args).Some?
    requires taken == match line.op
                      case Jlt | Jlti | Jlta => c.sign
                      case Jgt | Jgti | Jgta => !c.sign && !c.zero
                      case _ => c.zero
    ensures var (a, b) := Operands(line.op, line.args).value;
      var after := c.(ip := if taken then Target(line, c) else At(c.ip, 12));
      CtxOk(after) && EffectOf(c.(ip := At(c.ip, 12)), line.op, a, b) == Plain(after, Continue)
  {
    JumpTarget(c, line);
    hide ToWord, ToInt32, Target;
  }

  lemma Branching(vm: Vm, i: nat, c: Ctx, line: Line)
    requires AtLine(vm, i, c, line) && IsJump(line, {Jlt, Jlti, Jlta, Jgt, Jgti, Jgta, Je, Jei, Jea}) && CtxOk(c)
    ensures var r := CpuStep(c, SpaceOf(vm, i));
      var taken := match line.op
                   case Jlt | Jlti | Jlta => c.sign
                   case Jgt | Jgti | Jgta => !c.sign && !c.zero
                   case _ => c.zero;
      && r.outcome == Continue && Unchanged(vm, i, r.mem)
      && r.ctx == c.(ip := if taken then Target(line, c) else ToWord(c.ip + 12))
  {
    hide AtLine, Unchanged, CpuStep, Target, EffectOf, Operands, RegsOk;
    LineOperands(vm, i, c, line);
    var taken := match line.op
                 case Jlt | Jlti | Jlta => c.sign
                 case Jgt | Jgti | Jgta => !c.sign && !c.zero
                 case _ => c.zero;
    BranchEffect(c, line, taken);
    PlainStep(vm, i, c, line, c.(ip := if taken then Target(line, c) else At(c.ip, 12)), Continue);
  }

  /** The line after it, in memory as the first left it. */
  lemma NextLine(vm: Vm, i: nat, c: Ctx, m: Mem, d: Ctx, line: Line)
    requires Unchanged(vm, i, m) && CtxOk(d) && d.ip == c.ip && AtLine(vm, i, c, line)
    ensures AtLine(vm.(mem := m), i, d, line)
  {
    hide Inv, ByteAt, Resident, Verdict;
    VerdictSame(vm, vm.(mem := m), i, CodeBytes(c.ip));
  }

  /** Two steps of a quantum. */
  lemma TwoSteps(c: Ctx, sp: Space)
    requires CtxOk(c) && SpaceOk(sp)
    ensures var r := CpuStep(c, sp);
      r.outcome == Continue ==>
        var t := CpuStep(r.ctx, sp.(mem := r.mem));
        RunSteps(c, sp, 2) == if t.outcome == Continue then Result(t.ctx, t.mem, Trapped(QuantumExpired)) else t
  {
    hide CpuStep;
    var r := CpuStep(c, sp);
    if r.outcome == Continue {
      var s1 := sp.(mem := r.mem);
      var t := CpuStep(r.ctx, s1);
      assert RunSteps(c, sp, 2) == RunSteps(r.ctx, s1, 1);
      if t.outcome == Continue { assert RunSteps(r.ctx, s1, 1) == RunSteps(t.ctx, s1.(mem := t.mem), 0); }
    }
  }

  /** None of n steps stops. */
  ghost predicate FullRun(c: Ctx, sp: Space, n: nat)
    requires CtxOk(c) && SpaceOk(sp)
    decreases n
  {
    hide CpuStep;
    n == 0 || (CpuStep(c, sp).outcome == Continue && FullRun(CpuStep(c, sp).ctx, sp.(mem := CpuStep(c, sp).mem), n - 1))
  }

  /** Then a quantum that long ends because it is over; and it can be followed by one more step. */
  lemma {:induction false} OneMoreStep(c: Ctx, sp: Space, n: nat)
    requires CtxOk(c) && SpaceOk(sp) && FullRun(c, sp, n)
    ensures RunSteps(c, sp, n).outcome == Trapped(QuantumExpired)
    ensures var r := RunSteps(c, sp, n); var t := CpuStep(r.ctx, sp.(mem := r.mem));
      && RunSteps(c, sp, n + 1) == (if t.outcome == Continue then Result(t.ctx, t.mem, Trapped(QuantumExpired)) else t)
      && (t.outcome == Continue ==> FullRun(c, sp, n + 1))
    decreases n
  {
    hide CpuStep;
    var r := CpuStep(c, sp);
    if n > 0 {
      OneMoreStep(r.ctx, sp.(mem := r.mem), n - 1);
    } else {
      assert r.outcome == Continue ==> RunSteps(r.ctx, sp.(mem := r.mem), 0) == Result(r.ctx, r.mem, Trapped(QuantumExpired));
    }
  }

  /** Compare and branch: after comparing x with y the branch is taken exactly when x < y, x > y or x == y, as its name
      says, and else the line after it comes next. */
  lemma CompareThenBranch(vm: Vm, i: nat, c: Ctx, compare: Line, branch: Line, x: int, y: int)
    requires AtLine(vm, i, c, compare) && CtxOk(c) && Compares(compare, c, x, y)
    requires IsJump(branch, {Jlt, Jlti, Jlta, Jgt, Jgti, Jgta, Je, Jei, Jea})
    requires AtLine(vm, i, c.(ip := ToWord(c.ip + 12)), branch)
    ensures var r, d := RunSteps(c, SpaceOf(vm, i), 2), c.(ip := ToWord(c.ip + 12));
      var taken := match branch.op
                   case Jlt | Jlti | Jlta => x < y
                   case Jgt | Jgti | Jgta => x > y
                   case _ => x == y;
      && r.outcome == Trapped(QuantumExpired) && r.ctx.regs == c.regs && r.ctx.sp == c.sp && Unchanged(vm, i, r.mem)
      && r.ctx.ip == if taken then Target(branch, d) else ToWord(c.ip + 24)
  {
    hide AtLine, Unchanged, CpuStep, RunSteps, Compares;
    var d := c.(ip := ToWord(c.ip + 12));
    AtLineMeans(vm, i, c, compare);
    Comparing(vm, i, c, compare, x, y);
    hide ToWord;
    WordPlus(c.ip + 12, 12);
    var r := CpuStep(c, SpaceOf(vm, i));
    NextLine(vm, i, d, r.mem, r.ctx, branch);
    Branching(vm.(mem := r.mem), i, r.ctx, branch);
    var t := CpuStep(r.ctx, SpaceOf(vm.(mem := r.mem), i));
    UnchangedThen(vm, i, r.mem, t.mem);
    TwoSteps(c, SpaceOf(vm, i));
  }

  // ---- Memory ------------------------------------------------------------------------------------------------------------

  /** A word whose bytes are in a window and resident. */
  predicate Usable(vm: Vm, i: nat, va: Word) {
    Shape(vm) && i < |vm.pids| && Verdict(vm, i, WordBytes(va)) == Continue
  }

  lemma UsableSame(vm: Vm, i: nat, m: Mem, va: Word)
    requires Usable(vm, i, va) && Shape(vm.(mem := m)) && SamePages(vm, vm.(mem := m), i)
    ensures Usable(vm.(mem := m), i, va)
  {
    VerdictSame(vm, vm.(mem := m), i, WordBytes(va));
  }

  lemma ReadsWord(vm: Vm, i: nat, va: Word)
    requires Inv(vm) && Usable(vm, i, va)
    ensures var r := Read32(SpaceOf(vm, i), va); r.Done? && r.val == WordAt(vm, i, va) && Unchanged(vm, i, r.mem)
  {
    hide Inv, Read32, ByteAt, Resident, Verdict;
    Read32Ends(vm, i, va);
    Read32IsFlat(vm, i, va);
  }

  lemma WritesWord(vm: Vm, i: nat, va: Word, w: Word)
    requires Inv(vm) && Usable(vm, i, va)
    ensures var r := Write32(SpaceOf(vm, i), va, w); r.Done? && Stored(vm, i, r.mem, va, w)
  {
    hide Inv, WriteBytes, ByteAt, Resident, Verdict;
    Write32Ends(vm, i, va, w);
    var k := WriteBytesIsFlat(vm, i, va, w, 4);
  }

  lemma UnchangedMeans(vm: Vm, i: nat, m: Mem)
    requires Unchanged(vm, i, m)
    ensures Inv(vm) && Inv(vm.(mem := m)) && Shape(vm.(mem := m)) && SamePages(vm, vm.(mem := m), i)
  {}

  lemma StoredMeans(vm: Vm, i: nat, m: Mem, va: Word, w: Word)
    requires Stored(vm, i, m, va, w)
    ensures Inv(vm) && Inv(vm.(mem := m)) && Shape(vm.(mem := m)) && SamePages(vm, vm.(mem := m), i)
  {}

  lemma Loads(vm: Vm, i: nat, c: Ctx, a: nat, b: nat)
    requires 1 <= a <= 10 && 1 <= b <= 10 && AtLine(vm, i, c, Line(Movmr, [Reg(a), Reg(b)])) && CtxOk(c)
    requires Usable(vm, i, ToWord(c.regs[b]))
    ensures var r := CpuStep(c, SpaceOf(vm, i));
      && r.outcome == Continue && OnlyReg(c, r.ctx, a) && IsSigned(r.ctx.regs[a], WordAt(vm, i, ToWord(c.regs[b])))
      && Unchanged(vm, i, r.mem)
  {
    hide AtLine, Unchanged, CpuStep, Usable, Read32, WordAt, SamePages, Inv, Shape;
    var x, y, m := LineFetched(vm, i, c, Line(Movmr, [Reg(a), Reg(b)]));
    var va := ToWord(c.regs[b]);
    UnchangedMeans(vm, i, m);
    UsableSame(vm, i, m, va);
    ReadsWord(vm.(mem := m), i, va);
    SameWord(vm, i, m, va);
    UnchangedThen(vm, i, m, Read32(SpaceOf(vm.(mem := m), i), va).mem);
  }

  lemma Stores(vm: Vm, i: nat, c: Ctx, a: nat, b: nat)
    requires 1 <= a <= 10 && 1 <= b <= 10 && AtLine(vm, i, c, Line(Movrm, [Reg(a), Reg(b)])) && CtxOk(c)
    requires Usable(vm, i, ToWord(c.regs[a]))
    ensures var r := CpuStep(c, SpaceOf(vm, i));
      && r.outcome == Continue && r.ctx == c.(ip := ToWord(c.ip + 12))
      && Stored(vm, i, r.mem, ToWord(c.regs[a]), ToWord(c.regs[b]))
  {
    hide AtLine, Unchanged, Stored, CpuStep, Usable, Write32, SamePages, Inv, Shape;
    var x, y, m := LineFetched(vm, i, c, Line(Movrm, [Reg(a), Reg(b)]));
    var va, w := ToWord(c.regs[a]), ToWord(c.regs[b]);
    UnchangedMeans(vm, i, m);
    UsableSame(vm, i, m, va);
    WritesWord(vm.(mem := m), i, va, w);
    UnchangedStored(vm, i, m, Write32(SpaceOf(vm.(mem := m), i), va, w).mem, va, w);
  }

  /** A word moved from memory to memory. */
  lemma Copies(vm: Vm, i: nat, c: Ctx, a: nat, b: nat)
    requires 1 <= a <= 10 && 1 <= b <= 10 && AtLine(vm, i, c, Line(Movmm, [Reg(a), Reg(b)])) && CtxOk(c)
    requires Usable(vm, i, ToWord(c.regs[b])) && Usable(vm, i, ToWord(c.regs[a]))
    ensures var r := CpuStep(c, SpaceOf(vm, i));
      && r.outcome == Continue && r.ctx == c.(ip := ToWord(c.ip + 12))
      && Stored(vm, i, r.mem, ToWord(c.regs[a]), WordAt(vm, i, ToWord(c.regs[b])))
  {
    hide AtLine, CpuStep, Unchanged, Stored, Usable, WordAt, Inv, Shape, Perform, EffectOf;
    AtLineMeans(vm, i, c, Line(Movmm, [Reg(a), Reg(b)]));
    var x, y, m := LineFetched(vm, i, c, Line(Movmm, [Reg(a), Reg(b)]));
    var d := c.(ip := At(c.ip, 12));
    MovmmEffect(d, a, b);
    MovesWord(vm, i, m, ToWord(c.regs[b]), ToWord(c.regs[a]), d, d);
  }

  lemma MovmmEffect(c: Ctx, a: nat, b: nat)
    requires CtxOk(c) && 1 <= a <= 10 && 1 <= b <= 10
    ensures EffectOf(c, Movmm, a, b) == Move(ToWord(c.regs[b]), ToWord(c.regs[a]), c)
  {}

  /** The two accesses of a memory move, after the fetch. */
  lemma MovesWord(vm: Vm, i: nat, m: Mem, src: Word, dst: Word, during: Ctx, c: Ctx)
    requires Unchanged(vm, i, m) && Usable(vm, i, src) && Usable(vm, i, dst) && CtxOk(c) && CtxOk(during)
    ensures Shape(vm.(mem := m)) && i < |vm.pids|
    ensures var r := Perform(Move(src, dst, during), c, SpaceOf(vm.(mem := m), i));
      r.outcome == Continue && r.ctx == during && Stored(vm, i, r.mem, dst, WordAt(vm, i, src))
  {
    UnchangedMeans(vm, i, m);
    UsableIn(vm, i, src);
    hide Unchanged, Stored, Usable, Read32, Write32, WordAt, SamePages, Inv, Perform, Shape;
    var v := vm.(mem := m);
    UsableSame(vm, i, m, src);
    ReadsWord(v, i, src);
    SameWord(vm, i, m, src);
    var r := Read32(SpaceOf(v, i), src);
    UnchangedThen(vm, i, m, r.mem);
    UnchangedMeans(vm, i, r.mem);
    UsableSame(vm, i, r.mem, dst);
    WritesWord(vm.(mem := r.mem), i, dst, r.val);
    UnchangedStored(vm, i, r.mem, Write32(SpaceOf(vm.(mem := r.mem), i), dst, r.val).mem, dst, r.val);
    MoveDone(SpaceOf(v, i), src, dst, during, c);
  }

  lemma MoveDone(sp: Space, src: Word, dst: Word, during: Ctx, c: Ctx)
    requires SpaceOk(sp) && CtxOk(c) && CtxOk(during) && Read32(sp, src).Done?
    requires Write32(sp.(mem := Read32(sp, src).mem), dst, Read32(sp, src).val).Done?
    ensures Perform(Move(src, dst, during), c, sp) ==
            Result(during, Write32(sp.(mem := Read32(sp, src).mem), dst, Read32(sp, src).val).mem, Continue)
  {
    hide Read32, Write32;
  }

  lemma UsableIn(vm: Vm, i: nat, va: Word)
    requires Usable(vm, i, va)
    ensures Shape(vm) && i < |vm.pids|
  {}

  /** What is stored is what is loaded: the low 32 bits of the register, as a signed number. */
  lemma StoreThenLoad(vm: Vm, i: nat, c: Ctx, a: nat, b: nat, d: nat)
    requires 1 <= a <= 10 && 1 <= b <= 10 && 1 <= d <= 10 && AtLine(vm, i, c, Line(Movrm, [Reg(a), Reg(b)])) && CtxOk(c)
    requires var r := CpuStep(c, SpaceOf(vm, i)); AtLine(vm.(mem := r.mem), i, r.ctx, Line(Movmr, [Reg(d), Reg(a)]))
    requires Usable(vm, i, ToWord(c.regs[a]))
    ensures var r := RunSteps(c, SpaceOf(vm, i), 2);
      && r.outcome == Trapped(QuantumExpired) && r.ctx == c.(ip := ToWord(c.ip + 24), regs := c.regs[d := r.ctx.regs[d]])
      && IsSigned(r.ctx.regs[d], ToWord(c.regs[b]))
      && Stored(vm, i, r.mem, ToWord(c.regs[a]), ToWord(c.regs[b]))
  {
    hide AtLine, Unchanged, Stored, CpuStep, RunSteps, Usable, WordAt, SamePages, Inv, Shape;
    AtLineMeans(vm, i, c, Line(Movrm, [Reg(a), Reg(b)]));
    Stores(vm, i, c, a, b);
    var va, w := ToWord(c.regs[a]), ToWord(c.regs[b]);
    WordPlus(c.ip + 12, 12);
    hide ToWord, IsSigned;
    var r := CpuStep(c, SpaceOf(vm, i));
    var v := vm.(mem := r.mem);
    StoredMeans(vm, i, r.mem, va, w);
    UsableSame(vm, i, r.mem, va);
    StoredWord(vm, i, r.mem, va, w);
    Loads(v, i, r.ctx, d, a);
    StoredUnchanged(vm, i, r.mem, CpuStep(r.ctx, SpaceOf(v, i)).mem, va, w);
    TwoSteps(c, SpaceOf(vm, i));
  }

  /** Printing and setting a priority change nothing a process can see. */
  lemma Prints(vm: Vm, i: nat, c: Ctx, line: Line)
    requires AtLine(vm, i, c, line) && CtxOk(c) && line.op in {Printr, Printcr, Setpriority, Setpriorityi}
    ensures var r := CpuStep(c, SpaceOf(vm, i));
      r.outcome == Continue && r.ctx == c.(ip := ToWord(c.ip + 12)) && Unchanged(vm, i, r.mem)
  {
    hide AtLine, Unchanged, CpuStep, Operands, EffectOf;
    LineOperands(vm, i, c, line);
    var (a, b) := Operands(line.op, line.args).value;
    PrintEffect(c.(ip := At(c.ip, 12)), line.op, a, b);
    PlainStep(vm, i, c, line, c.(ip := At(c.ip, 12)), Continue);
  }

  lemma PrintEffect(c: Ctx, op: Opcode, a: Word, b: Word)
    requires CtxOk(c) && RegsOk(op, a, b) && op in {Printr, Printcr, Setpriority, Setpriorityi}
    ensures EffectOf(c, op, a, b) == Plain(c, Continue)
  {}

  lemma LineOperands(vm: Vm, i: nat, c: Ctx, line: Line)
    requires AtLine(vm, i, c, line)
    ensures Operands(line.op, line.args).Some?
    ensures RegsOk(line.op, Operands(line.op, line.args).value.0, Operands(line.op, line.args).value.1)
  {
    LP.AssembleLineForm(line);
    LP.OperandsPass(line.op, line.args);
  }

  /** Nor does printing from memory. */
  lemma PrintsMemory(vm: Vm, i: nat, c: Ctx, op: Opcode, a: nat)
    requires 1 <= a <= 10 && AtLine(vm, i, c, Line(op, [Reg(a)])) && CtxOk(c) && Shape(vm) && i < |vm.pids|
    requires (op == Printm && Usable(vm, i, ToWord(c.regs[a])))
             || (op == Printcm && Verdict(vm, i, [ToWord(c.regs[a])]) == Continue)
    ensures var r := CpuStep(c, SpaceOf(vm, i));
      r.outcome == Continue && r.ctx == c.(ip := ToWord(c.ip + 12)) && Unchanged(vm, i, r.mem)
  {
    hide AtLine, Unchanged, CpuStep, Usable, Read32, ReadByte, SamePages, Inv, Verdict, Shape;
    var x, y, m := LineFetched(vm, i, c, Line(op, [Reg(a)]));
    var va := ToWord(c.regs[a]);
    hide ToWord;
    UnchangedMeans(vm, i, m);
    if op == Printm {
      UsableSame(vm, i, m, va);
      ReadsWord(vm.(mem := m), i, va);
      UnchangedThen(vm, i, m, Read32(SpaceOf(vm.(mem := m), i), va).mem);
    } else {
      VerdictSame(vm, vm.(mem := m), i, [va]);
      ReadsByte(vm.(mem := m), i, va);
      UnchangedThen(vm, i, m, ReadByte(m, i, vm.sizes[i], va).mem);
    }
  }

  lemma ReadsByte(vm: Vm, i: nat, va: Word)
    requires Inv(vm) && Shape(vm) && i < |vm.pids| && Verdict(vm, i, [va]) == Continue
    ensures var r := ReadByte(vm.mem, i, vm.sizes[i], va); r.Done? && Unchanged(vm, i, r.mem)
  {
    hide Inv, ReadByte, ByteAt, Resident, Verdict;
    ReadEnds(vm, i, va);
    ReadByteIsFlat(vm, i, va);
  }
}
