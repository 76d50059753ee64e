/** The stack instructions against a stack: what is pushed comes back last in, first out, and a call comes back to the
    line after it. */
module StackLaws {
  import opened Basics
  import opened Memory
  import opened Paging
  import opened FrameInvariant
  import opened FlatMemory
  import opened Instructions
  import opened Processor
  import opened FlatInstructions
  import opened Windows
  import opened InstructionLaws
  import LP = LoadedProgram
  import Restart

  // ---- One instruction -----------------------------------------------------------------------------------------------

  /** The line pushes word w. */
  predicate Pushing(line: Line, c: Ctx, w: Word)
    requires CtxOk(c)
  {
    || line == Line(Pushi, [Imm(w)])
    || (exists a | 1 <= a <= 10 :: line == Line(Pushr, [Reg(a)]) && w == ToWord(c.regs[a]))
  }

  lemma Pushes(vm: Vm, i: nat, c: Ctx, line: Line, w: Word)
    requires AtLine(vm, i, c, line) && CtxOk(c) && Pushing(line, c, w) && Usable(vm, i, ToWord(c.sp - 4))
    ensures var r := CpuStep(c, SpaceOf(vm, i));
      && r.outcome == Continue && r.ctx == c.(ip := ToWord(c.ip + 12), sp := ToWord(c.sp - 4))
      && Stored(vm, i, r.mem, ToWord(c.sp - 4), w)
  {
    hide AtLine, Unchanged, Stored, CpuStep, Usable, Perform, EffectOf, Pushing, Inv, Shape;
    var d := c.(ip := At(c.ip, 12), sp := ToWord(c.sp - 4));
    PushEffect(c, line, w);
    StoreStep(vm, i, c, line, d.sp, w, d);
  }

  lemma PushEffect(c: Ctx, line: Line, w: Word)
    requires CtxOk(c) && Pushing(line, c, w)
    ensures Operands(line.op, line.args).Some?
    ensures var (a, b) := Operands(line.op, line.args).value; var d := c.(ip := At(c.ip, 12), sp := ToWord(c.sp - 4));
      RegsOk(line.op, a, b) && EffectOf(c.(ip := At(c.ip, 12)), line.op, a, b) == Store(d.sp, w, d, d)
  {
    hide ToWord, At;
  }

  /** A line whose one access is a store. */
  lemma StoreStep(vm: Vm, i: nat, c: Ctx, line: Line, va: Word, w: Word, after: Ctx)
    requires AtLine(vm, i, c, line) && CtxOk(c) && CtxOk(after) && Usable(vm, i, va)
    requires Operands(line.op, line.args).Some?
    requires var (a, b) := Operands(line.op, line.args).value;
      && RegsOk(line.op, a, b) && EffectOf(c.(ip := At(c.ip, 12)), line.op, a, b).Store?
      && var e := EffectOf(c.(ip := At(c.ip, 12)), line.op, a, b); e.addr == va && e.val == w && e.after == after
    ensures Shape(vm) && i < |vm.pids|
    ensures var r := CpuStep(c, SpaceOf(vm, i)); r.outcome == Continue && r.ctx == after && Stored(vm, i, r.mem, va, w)
  {
    hide AtLine, Unchanged, Stored, CpuStep, Usable, Write32, EffectOf, Operands, RegsOk, SamePages, Inv, Shape;
    AtLineMeans(vm, i, c, line);
    var a, b, m := LineFetched(vm, i, c, line);
    UnchangedMeans(vm, i, m);
    UsableSame(vm, i, m, va);
    WritesWord(vm.(mem := m), i, va, w);
    UnchangedStored(vm, i, m, Write32(SpaceOf(vm.(mem := m), i), va, w).mem, va, w);
  }

  /** A line whose one access is a load. */
  lemma LoadStep(vm: Vm, i: nat, c: Ctx, line: Line, va: Word, use: Use)
    requires AtLine(vm, i, c, line) && CtxOk(c) && Usable(vm, i, va) && (use.IntoReg? || use.PopInto? ==> use.reg < 16)
    requires Operands(line.op, line.args).Some?
    requires var (a, b) := Operands(line.op, line.args).value;
      RegsOk(line.op, a, b) && EffectOf(c.(ip := At(c.ip, 12)), line.op, a, b) == Load(va, use)
    ensures Shape(vm) && i < |vm.pids|
    ensures var r := CpuStep(c, SpaceOf(vm, i));
      r.outcome == Continue && r.ctx == Used(c.(ip := At(c.ip, 12)), use, WordAt(vm, i, va)) && Unchanged(vm, i, r.mem)
  {
    hide AtLine, Unchanged, CpuStep, Usable, Read32, WordAt, EffectOf, Operands, RegsOk, SamePages, Inv, Shape, Used;
    AtLineMeans(vm, i, c, line);
    var a, b, m := LineFetched(vm, i, c, line);
    UnchangedMeans(vm, i, m);
    UsableSame(vm, i, m, va);
    ReadsWord(vm.(mem := m), i, va);
    SameWord(vm, i, m, va);
    UnchangedThen(vm, i, m, Read32(SpaceOf(vm.(mem := m), i), va).mem);
  }

  lemma Pops(vm: Vm, i: nat, c: Ctx, a: nat)
    requires 1 <= a <= 10 && AtLine(vm, i, c, Line(Popr, [Reg(a)])) && CtxOk(c) && Usable(vm, i, c.sp)
    ensures var r := CpuStep(c, SpaceOf(vm, i));
      && r.outcome == Continue && Unchanged(vm, i, r.mem) && IsSigned(r.ctx.regs[a], WordAt(vm, i, c.sp))
      && r.ctx == c.(ip := ToWord(c.ip + 12), sp := ToWord(c.sp + 4), regs := c.regs[a := r.ctx.regs[a]])
  {
    hide AtLine, Unchanged, CpuStep, Usable, WordAt, Inv, Shape, ToInt32, IsSigned;
    LoadStep(vm, i, c, Line(Popr, [Reg(a)]), c.sp, PopInto(a));
    Int32IsSigned(WordAt(vm, i, c.sp));
  }

  /** A call pushes the address of the line after it and jumps its register past that line. */
  lemma Calls(vm: Vm, i: nat, c: Ctx, a: nat)
    requires 1 <= a <= 10 && AtLine(vm, i, c, Line(Call, [Reg(a)])) && CtxOk(c) && Usable(vm, i, ToWord(c.sp - 4))
    ensures var r := CpuStep(c, SpaceOf(vm, i));
      && r.outcome == Continue && r.ctx == c.(ip := ToWord(c.ip + 12 + c.regs[a]), sp := ToWord(c.sp - 4))
      && Stored(vm, i, r.mem, ToWord(c.sp - 4), ToWord(c.ip + 12))
  {
    hide AtLine, Unchanged, Stored, CpuStep, Usable, Perform, Inv, Shape;
    WordPlus(c.ip + 12, c.regs[a]);
    var d := c.(ip := At(c.ip, 12), sp := ToWord(c.sp - 4));
    StoreStep(vm, i, c, Line(Call, [Reg(a)]), d.sp, d.ip, Jump(d, c.regs[a]));
  }

  /** Callm takes the distance from memory, after the push. */
  lemma CallsMemory(vm: Vm, i: nat, c: Ctx, a: nat)
    requires 1 <= a <= 10 && AtLine(vm, i, c, Line(Callm, [Reg(a)])) && CtxOk(c)
    requires Usable(vm, i, ToWord(c.sp - 4)) && Usable(vm, i, ToWord(c.regs[a]))
    ensures var r := CpuStep(c, SpaceOf(vm, i));
      && r.outcome == Continue && Stored(vm, i, r.mem, ToWord(c.sp - 4), ToWord(c.ip + 12))
      && r.ctx == c.(ip := ToWord(c.ip + 12 + WordAt(vm.(mem := r.mem), i, ToWord(c.regs[a]))), sp := ToWord(c.sp - 4))
  {
    hide AtLine, Unchanged, Stored, CpuStep, Usable, Perform, EffectOf, WordAt, Inv, Shape;
    AtLineMeans(vm, i, c, Line(Callm, [Reg(a)]));
    var x, y, m := LineFetched(vm, i, c, Line(Callm, [Reg(a)]));
    var d, e := c.(ip := At(c.ip, 12)), c.(ip := At(c.ip, 12), sp := ToWord(c.sp - 4));
    CallmEffect(d, a);
    var w := CallsTarget(vm, i, m, d.ip, e, ToWord(c.regs[a]), d);
    SignedPlus(d.ip, w);
    WordPlus(c.ip + 12, w);
  }

  lemma CallmEffect(c: Ctx, a: nat)
    requires CtxOk(c) && 1 <= a <= 10
    ensures var d := c.(sp := ToWord(c.sp - 4)); EffectOf(c, Callm, a, 0) == StoreThenJump(d.sp, c.ip, d, ToWord(c.regs[a]))
  {}

  lemma CallsTarget(vm: Vm, i: nat, m: Mem, val: Word, during: Ctx, target: Word, c: Ctx) returns (w: Word)
    requires Unchanged(vm, i, m) && Usable(vm, i, during.sp) && Usable(vm, i, target) && CtxOk(c) && CtxOk(during)
    ensures Shape(vm.(mem := m)) && i < |vm.pids|
    ensures var r := Perform(StoreThenJump(during.sp, val, during, target), c, SpaceOf(vm.(mem := m), i));
      && r.outcome == Continue && r.ctx == Jump(during, ToInt32(w)) && Stored(vm, i, r.mem, during.sp, val)
      && Shape(vm.(mem := r.mem)) && w == WordAt(vm.(mem := r.mem), i, target)
  {
    hide Unchanged, Stored, Usable, Read32, Write32, WordAt, SamePages, Inv, Perform, Shape, Jump;
    UnchangedMeans(vm, i, m);
    UsableIn(vm, i, target);
    var v := vm.(mem := m);
    UsableSame(vm, i, m, during.sp);
    WritesWord(v, i, during.sp, val);
    var s := Write32(SpaceOf(v, i), during.sp, val);
    UnchangedStored(vm, i, m, s.mem, during.sp, val);
    StoredMeans(vm, i, s.mem, during.sp, val);
    UsableSame(vm, i, s.mem, target);
    var u := vm.(mem := s.mem);
    ReadsWord(u, i, target);
    var r := Read32(SpaceOf(u, i), target);
    w := r.val;
    SameWord(u, i, r.mem, target);
    StoredUnchanged(vm, i, s.mem, r.mem, during.sp, val);
    StoredMeans(vm, i, r.mem, during.sp, val);
    JumpDone(SpaceOf(v, i), val, during, target, c);
  }

  lemma JumpDone(sp: Space, val: Word, during: Ctx, target: Word, c: Ctx)
    requires SpaceOk(sp) && CtxOk(c) && CtxOk(during) && Write32(sp, during.sp, val).Done?
    requires Read32(sp.(mem := Write32(sp, during.sp, val).mem), target).Done?
    ensures var r := Read32(sp.(mem := Write32(sp, during.sp, val).mem), target);
      Perform(StoreThenJump(during.sp, val, during, target), c, sp) == Result(Jump(during, ToInt32(r.val)), r.mem, Continue)
  {
    hide Read32, Write32;
  }

  /** A return jumps to the word on top and pops it. */
  lemma Returns(vm: Vm, i: nat, c: Ctx)
    requires AtLine(vm, i, c, Line(Ret, [])) && CtxOk(c) && Usable(vm, i, c.sp)
    ensures var r := CpuStep(c, SpaceOf(vm, i));
      && r.outcome == Continue && Unchanged(vm, i, r.mem)
      && r.ctx == c.(ip := WordAt(vm, i, c.sp), sp := ToWord(c.sp + 4))
  {
    hide AtLine, Unchanged, CpuStep, Usable, WordAt, Inv, Shape;
    LoadStep(vm, i, c, Line(Ret, []), c.sp, ReturnTo);
  }

  /** Popm pops into memory. */
  lemma PopsToMemory(vm: Vm, i: nat, c: Ctx, a: nat)
    requires 1 <= a <= 10 && AtLine(vm, i, c, Line(Popm, [Reg(a)])) && CtxOk(c)
    requires Usable(vm, i, c.sp) && Usable(vm, i, ToWord(c.regs[a]))
    ensures var r := CpuStep(c, SpaceOf(vm, i));
      && r.outcome == Continue && r.ctx == c.(ip := ToWord(c.ip + 12), sp := ToWord(c.sp + 4))
      && Stored(vm, i, r.mem, ToWord(c.regs[a]), WordAt(vm, i, c.sp))
  {
    hide AtLine, CpuStep, Unchanged, Stored, Usable, WordAt, Inv, Shape, Perform, EffectOf;
    AtLineMeans(vm, i, c, Line(Popm, [Reg(a)]));
    var x, y, m := LineFetched(vm, i, c, Line(Popm, [Reg(a)]));
    var d := c.(ip := At(c.ip, 12));
    PopmEffect(d, a);
    MovesWord(vm, i, m, c.sp, ToWord(c.regs[a]), d.(sp := ToWord(c.sp + 4)), d);
  }

  lemma PopmEffect(c: Ctx, a: nat)
    requires CtxOk(c) && 1 <= a <= 10
    ensures EffectOf(c, Popm, a, 0) == Move(c.sp, ToWord(c.regs[a]), c.(sp := ToWord(c.sp + 4)))
  {}

  // ---- A stack ---------------------------------------------------------------------------------------------------------

  datatype StackOp = PushWord(w: Word) | PushReg(r: nat) | PopReg(r: nat)

  /** Registers and a stack, the top first. */
  datatype Machine = Machine(regs: seq<int>, stack: seq<Word>)

  predicate OpOk(op: StackOp) {
    op.PushWord? || 1 <= op.r <= 10
  }

  function LineOf(op: StackOp): Line {
    match op
    case PushWord(w) => Line(Pushi, [Imm(w)])
    case PushReg(r) => Line(Pushr, [Reg(r)])
    case PopReg(r) => Line(Popr, [Reg(r)])
  }

  /** A word as a signed number. */
  function Signed(w: Word): int {
    if w < 0x8000_0000 then w else w - 0x1_0000_0000
  }

  predicate CanDo(a: Machine, op: StackOp) {
    |a.regs| == 16 && OpOk(op) && (op.PopReg? ==> a.stack != [])
  }

  function Do(a: Machine, op: StackOp): (b: Machine)
    requires CanDo(a, op)
    ensures |b.regs| == 16
  {
    match op
    case PushWord(w) => a.(stack := [w] + a.stack)
    case PushReg(r) => a.(stack := [a.regs[r] % 0x1_0000_0000] + a.stack)
    case PopReg(r) => Machine(a.regs[r := Signed(a.stack[0])], a.stack[1..])
  }

  predicate CanDoAll(a: Machine, ops: seq<StackOp>)
    decreases |ops|, 0
  {
    |a.regs| == 16 &&
    (ops == [] || (CanDoAll(a, ops[..|ops| - 1]) && CanDo(DoAll(a, ops[..|ops| - 1]), ops[|ops| - 1])))
  }

  function DoAll(a: Machine, ops: seq<StackOp>): (b: Machine)
    requires CanDoAll(a, ops)
    ensures |b.regs| == 16
    decreases |ops|, 1
  {
    if ops == [] then a else Do(DoAll(a, ops[..|ops| - 1]), ops[|ops| - 1])
  }

  /** Pushes less pops. */
  function Net(ops: seq<StackOp>): (n: int)
    ensures n <= |ops|
  {
    if ops == [] then 0 else Net(ops[..|ops| - 1]) + (if ops[|ops| - 1].PopReg? then -1 else 1)
  }

  /** The most words on top of those there at first, at any time. */
  function Deepest(ops: seq<StackOp>): (n: nat)
    ensures Net(ops) <= n
  {
    if ops == [] then 0
    else if Net(ops) > Deepest(ops[..|ops| - 1]) then Net(ops) else Deepest(ops[..|ops| - 1])
  }

  lemma {:induction false} StackSizes(a: Machine, ops: seq<StackOp>)
    requires CanDoAll(a, ops)
    ensures |DoAll(a, ops).stack| == |a.stack| + Net(ops)
  {
    if ops != [] { StackSizes(a, ops[..|ops| - 1]); }
  }

  // ---- Straight-line stack code ---------------------------------------------------------------------------------------

  /** The bytes from lo up to hi are in a window and resident. */
  ghost predicate Room(vm: Vm, i: nat, lo: nat, hi: nat)
    requires Shape(vm) && i < |vm.pids|
  {
    hi <= WORD_RANGE && forall x: Word | lo <= x < hi :: Inside(vm.sizes[i], x) && Resident(vm, i, x / PAGE_SIZE)
  }

  lemma RoomForWord(vm: Vm, i: nat, lo: nat, hi: nat, va: nat)
    requires Shape(vm) && i < |vm.pids| && Room(vm, i, lo, hi) && lo <= va && va + 4 <= hi
    ensures Usable(vm, i, va)
  {
    hide Inside, Resident, Verdict;
    VerdictContinues(vm, i, WordBytes(va));
  }

  /** The words of the stack lie from sp on. */
  ghost predicate StackHas(vm: Vm, i: nat, sp: int, stack: seq<Word>)
    requires Shape(vm)
  {
    0 <= sp && sp + 4 * |stack| < WORD_RANGE && forall k: nat | k < |stack| :: WordAt(vm, i, sp + 4 * k) == stack[k]
  }

  /** The lines of these instructions lie from ip on. */
  ghost predicate CodeAt(vm: Vm, i: nat, ip: nat, ops: seq<StackOp>) {
    ip + 12 * |ops| <= WORD_RANGE && forall k: nat | k < |ops| :: LineAt(vm, i, ip + 12 * k, LineOf(ops[k]))
  }

  /** Room for the deepest stack, which does not meet the code. */
  ghost predicate StackFits(vm: Vm, i: nat, c: Ctx, ops: seq<StackOp>, stack: seq<Word>)
    requires Shape(vm) && i < |vm.pids|
  {
    && 4 * Deepest(ops) <= c.sp && c.sp + 4 * |stack| < WORD_RANGE
    && Room(vm, i, c.sp - 4 * Deepest(ops), c.sp + 4 * |stack|)
    && (c.ip + 12 * |ops| <= c.sp - 4 * Deepest(ops) || c.sp + 4 * |stack| <= c.ip)
  }

  /** The context the machine leads to. */
  ghost predicate RightCtx(c: Ctx, ops: seq<StackOp>, stack: seq<Word>, d: Ctx)
    requires CtxOk(c)
  {
    var a := Machine(c.regs, stack);
    && CanDoAll(a, ops) && 0 <= c.sp - 4 * Net(ops) < WORD_RANGE
    && d == c.(ip := ToWord(c.ip + 12 * |ops|), sp := c.sp - 4 * Net(ops), regs := DoAll(a, ops).regs)
  }

  /** Only the stack was written. */
  ghost predicate OnlyStack(vm: Vm, v: Vm, i: nat, c: Ctx, ops: seq<StackOp>, stack: seq<Word>)
    requires Shape(vm) && Shape(v)
  {
    forall x: Word | x < c.sp - 4 * Deepest(ops) || c.sp + 4 * |stack| <= x :: ByteAt(v, i, x) == ByteAt(vm, i, x)
  }

  /** What the machine says of |ops| steps from here. */
  ghost predicate Follows(vm: Vm, i: nat, c: Ctx, ops: seq<StackOp>, stack: seq<Word>)
    requires Shape(vm) && i < |vm.pids| && CtxOk(c)
  {
    var r := RunSteps(c, SpaceOf(vm, i), |ops|);
    var v := vm.(mem := r.mem);
    && Inv(v) && Shape(v) && SamePages(vm, v, i) && FullRun(c, SpaceOf(vm, i), |ops|)
    && RightCtx(c, ops, stack, r.ctx) && StackHas(v, i, r.ctx.sp, DoAll(Machine(c.regs, stack), ops).stack)
    && OnlyStack(vm, v, i, c, ops, stack)
  }

  /** Straight-line code of pushes and pops does what a stack does: every pop gets the word pushed last and not popped
      yet, and sp and memory follow. */
  lemma {:induction false} StackMachine(vm: Vm, i: nat, c: Ctx, ops: seq<StackOp>, stack: seq<Word>)
    requires Inv(vm) && Shape(vm) && i < |vm.pids| && CtxOk(c) && CanDoAll(Machine(c.regs, stack), ops)
    requires CodeAt(vm, i, c.ip, ops) && StackFits(vm, i, c, ops, stack) && StackHas(vm, i, c.sp, stack)
    ensures Follows(vm, i, c, ops, stack)
    decreases |ops|
  {
    hide Inv, RunSteps, FullRun, LineAt, Room, StackHas, Inside, Resident, DoAll, Do, SamePages, ByteAt;
    if ops == [] {
      NoSteps(vm, i, c, stack);
    } else {
      var before, op := ops[..|ops| - 1], ops[|ops| - 1];
      FitsPrefix(vm, i, c, ops, stack);
      CodePrefix(vm, i, c.ip, ops);
      StackMachine(vm, i, c, before, stack);
      FollowsOne(vm, i, c, ops, stack);
    }
  }

  lemma NoSteps(vm: Vm, i: nat, c: Ctx, stack: seq<Word>)
    requires Inv(vm) && Shape(vm) && i < |vm.pids| && CtxOk(c) && StackHas(vm, i, c.sp, stack)
    ensures Follows(vm, i, c, [], stack)
  {
    hide Inv, StackHas, Resident, ByteAt;
    assert vm.(mem := vm.mem) == vm;
  }

  lemma CodePrefix(vm: Vm, i: nat, ip: nat, ops: seq<StackOp>)
    requires CodeAt(vm, i, ip, ops) && ops != []
    ensures CodeAt(vm, i, ip, ops[..|ops| - 1])
  {
    hide LineAt;
    forall k: nat | k < |ops| - 1 ensures LineAt(vm, i, ip + 12 * k, LineOf(ops[..|ops| - 1][k])) {
      assert ops[..|ops| - 1][k] == ops[k];
    }
  }

  lemma FitsPrefix(vm: Vm, i: nat, c: Ctx, ops: seq<StackOp>, stack: seq<Word>)
    requires Shape(vm) && i < |vm.pids| && StackFits(vm, i, c, ops, stack) && ops != []
    ensures StackFits(vm, i, c, ops[..|ops| - 1], stack)
  {
    hide Inside, Resident;
  }

  /** The line is still there in memory with the same bytes there. */
  lemma LineStays(vm: Vm, v: Vm, i: nat, ip: Word, line: Line)
    requires LineAt(vm, i, ip, line) && Inv(v) && Shape(v) && i < |v.pids| && v.sizes == vm.sizes && SamePages(vm, v, i)
    requires forall k: nat | k < 12 :: ByteAt(v, i, At(ip, k)) == ByteAt(vm, i, At(ip, k))
    ensures LineAt(v, i, ip, line)
  {
    hide Inv, ByteAt, Resident, Verdict;
    VerdictSame(vm, v, i, CodeBytes(ip));
  }

  /** One instruction, against the machine. */
  ghost predicate Steps(v: Vm, i: nat, d: Ctx, op: StackOp, a: Machine)
    requires Shape(v) && i < |v.pids| && CtxOk(d) && CanDo(a, op)
  {
    var t, b := CpuStep(d, SpaceOf(v, i)), Do(a, op);
    var w := v.(mem := t.mem);
    && t.outcome == Continue && Inv(w) && Shape(w) && SamePages(v, w, i)
    && t.ctx == d.(ip := ToWord(d.ip + 12), sp := t.ctx.sp, regs := b.regs)
    && t.ctx.sp == d.sp + (if op.PopReg? then 4 else -4)
    && StackHas(w, i, t.ctx.sp, b.stack)
    && (op.PopReg? ==> forall x: Word :: ByteAt(w, i, x) == ByteAt(v, i, x))
    && forall x: Word | x < d.sp - 4 || d.sp <= x :: ByteAt(w, i, x) == ByteAt(v, i, x)
  }

  lemma PushStep(v: Vm, i: nat, d: Ctx, op: StackOp, a: Machine)
    requires Shape(v) && i < |v.pids| && CtxOk(d) && CanDo(a, op) && !op.PopReg? && a.regs == d.regs
    requires AtLine(v, i, d, LineOf(op)) && StackHas(v, i, d.sp, a.stack) && d.sp >= 4 && Usable(v, i, d.sp - 4)
    ensures Steps(v, i, d, op, a)
  {
    hide AtLine, Stored, CpuStep, Usable, Inv, Resident, ByteAt, WordAt, StackHas;
    var w := if op.PushWord? then op.w else ToWord(d.regs[op.r]);
    Pushes(v, i, d, LineOf(op), w);
    var m := CpuStep(d, SpaceOf(v, i)).mem;
    StoredMeans(v, i, m, d.sp - 4, w);
    StoredWord(v, i, m, d.sp - 4, w);
    StoredRest(v, i, m, d.sp - 4, w);
    PushedStack(v, v.(mem := m), i, d.sp, w, a.stack);
  }

  lemma StoredRest(vm: Vm, i: nat, m: Mem, va: nat, w: Word)
    requires va + 4 < WORD_RANGE && Stored(vm, i, m, va, w)
    ensures Shape(vm) && Shape(vm.(mem := m))
    ensures forall x: Word | x < va || va + 4 <= x :: ByteAt(vm.(mem := m), i, x) == ByteAt(vm, i, x)
  {
    hide Inv, ByteAt, Resident;
  }

  lemma PushedStack(v: Vm, r: Vm, i: nat, sp: nat, w: Word, stack: seq<Word>)
    requires Shape(v) && Shape(r) && sp >= 4 && StackHas(v, i, sp, stack) && WordAt(r, i, sp - 4) == w
    requires forall x: Word | x < sp - 4 || sp <= x :: ByteAt(r, i, x) == ByteAt(v, i, x)
    ensures StackHas(r, i, sp - 4, [w] + stack)
  {
    hide ByteAt, FromBytes;
    forall k: nat | k < |stack| + 1 ensures WordAt(r, i, sp - 4 + 4 * k) == ([w] + stack)[k] {
      if k > 0 {
        assert WordAt(v, i, sp + 4 * (k - 1)) == stack[k - 1];
        KeptWord(v, r, i, sp + 4 * (k - 1));
      }
    }
  }

  lemma KeptWord(v: Vm, r: Vm, i: nat, va: nat)
    requires Shape(v) && Shape(r) && va + 4 <= WORD_RANGE
    requires forall x: Word | va <= x < va + 4 :: ByteAt(r, i, x) == ByteAt(v, i, x)
    ensures WordAt(r, i, va) == WordAt(v, i, va)
  {
    hide ByteAt, FromBytes;
  }

  lemma PopStep(v: Vm, i: nat, d: Ctx, op: StackOp, a: Machine)
    requires Shape(v) && i < |v.pids| && CtxOk(d) && CanDo(a, op) && op.PopReg? && a.regs == d.regs
    requires AtLine(v, i, d, LineOf(op)) && StackHas(v, i, d.sp, a.stack) && Usable(v, i, d.sp)
    ensures Steps(v, i, d, op, a)
  {
    hide AtLine, Unchanged, CpuStep, Usable, Inv, Resident, ByteAt, WordAt, StackHas, IsSigned, Signed;
    TopWord(v, i, d.sp, a.stack);
    Pops(v, i, d, op.r);
    var r := CpuStep(d, SpaceOf(v, i));
    SignedIs(r.ctx.regs[op.r], a.stack[0]);
    UnchangedMeans(v, i, r.mem);
    UnchangedBytes(v, i, r.mem);
    PoppedStack(v, v.(mem := r.mem), i, d.sp, a.stack);
  }

  lemma TopWord(v: Vm, i: nat, sp: nat, stack: seq<Word>)
    requires Shape(v) && StackHas(v, i, sp, stack) && stack != []
    ensures sp + 4 < WORD_RANGE && WordAt(v, i, sp) == stack[0]
  {
    hide WordAt;
    assert WordAt(v, i, sp + 4 * 0) == stack[0];
  }

  lemma SignedIs(x: int, w: Word)
    requires IsSigned(x, w)
    ensures x == Signed(w)
  {}

  lemma UnchangedBytes(vm: Vm, i: nat, m: Mem)
    requires Unchanged(vm, i, m)
    ensures Shape(vm) && Shape(vm.(mem := m)) && forall x: Word :: ByteAt(vm.(mem := m), i, x) == ByteAt(vm, i, x)
  {}

  lemma PoppedStack(v: Vm, r: Vm, i: nat, sp: nat, stack: seq<Word>)
    requires Shape(v) && Shape(r) && StackHas(v, i, sp, stack) && stack != []
    requires forall x: Word :: ByteAt(r, i, x) == ByteAt(v, i, x)
    ensures StackHas(r, i, sp + 4, stack[1..])
  {
    hide ByteAt, FromBytes;
    forall k: nat | k < |stack| - 1 ensures WordAt(r, i, sp + 4 + 4 * k) == stack[1..][k] {
      assert WordAt(v, i, sp + 4 * (k + 1)) == stack[k + 1];
      KeptWord(v, r, i, sp + 4 * (k + 1));
    }
  }

  /** What room there is means for the next instruction. */
  lemma NextFits(vm: Vm, i: nat, c: Ctx, ops: seq<StackOp>, stack: seq<Word>)
    requires Shape(vm) && i < |vm.pids| && CtxOk(c) && ops != [] && CanDoAll(Machine(c.regs, stack), ops)
    requires StackFits(vm, i, c, ops, stack)
    ensures var before, op := ops[..|ops| - 1], ops[|ops| - 1]; var sp := c.sp - 4 * Net(before);
      && c.sp - 4 * Deepest(ops) <= c.sp - 4 * Deepest(before)
      && (op.PopReg? ==> 0 <= sp && sp + 4 < WORD_RANGE && Usable(vm, i, sp))
      && (!op.PopReg? ==> 4 <= sp < WORD_RANGE && Usable(vm, i, sp - 4) && c.sp - 4 * Deepest(ops) <= sp - 4)
  {
    hide Inside, Resident, Usable, Do;
    var before, op, a0 := ops[..|ops| - 1], ops[|ops| - 1], Machine(c.regs, stack);
    StackSizes(a0, before);
    var sp := c.sp - 4 * Net(before);
    RoomForWord(vm, i, c.sp - 4 * Deepest(ops), c.sp + 4 * |stack|, if op.PopReg? then sp else sp - 4);
  }

  /** The line of the next instruction, where the ones before it have left the code alone. */
  lemma NextCode(vm: Vm, v: Vm, i: nat, c: Ctx, ops: seq<StackOp>, stack: seq<Word>)
    requires Shape(vm) && i < |vm.pids| && CtxOk(c) && ops != [] && CodeAt(vm, i, c.ip, ops) && StackFits(vm, i, c, ops, stack)
    requires Inv(v) && Shape(v) && i < |v.pids| && v.sizes == vm.sizes && SamePages(vm, v, i)
    requires forall x: Word | x < c.sp - 4 * Deepest(ops[..|ops| - 1]) || c.sp + 4 * |stack| <= x ::
               ByteAt(v, i, x) == ByteAt(vm, i, x)
    ensures c.ip + 12 * |ops| <= WORD_RANGE && LineAt(v, i, c.ip + 12 * (|ops| - 1), LineOf(ops[|ops| - 1]))
  {
    hide Inv, LineAt, ByteAt, SamePages, Room;
    var n := |ops| - 1;
    var ip := c.ip + 12 * n;
    assert Deepest(ops[..n]) <= Deepest(ops);
    forall k: nat | k < 12 ensures ByteAt(v, i, At(ip, k)) == ByteAt(vm, i, At(ip, k)) {
      assert At(ip, k) == ip + k;
    }
    LineStays(vm, v, i, ip, LineOf(ops[n]));
  }

  /** The step of one more instruction. */
  lemma FollowsOne(vm: Vm, i: nat, c: Ctx, ops: seq<StackOp>, stack: seq<Word>)
    requires Inv(vm) && Shape(vm) && i < |vm.pids| && CtxOk(c) && ops != [] && CanDoAll(Machine(c.regs, stack), ops)
    requires CodeAt(vm, i, c.ip, ops) && StackFits(vm, i, c, ops, stack)
    requires Follows(vm, i, c, ops[..|ops| - 1], stack)
    ensures Follows(vm, i, c, ops, stack)
  {
    hide Inv, RunSteps, FullRun, LineAt, Room, StackHas, Resident, Do, SamePages, ByteAt, CpuStep, Usable, StackFits, CodeAt;
    var before, op, n := ops[..|ops| - 1], ops[|ops| - 1], |ops| - 1;
    var a0 := Machine(c.regs, stack);
    var r := RunSteps(c, SpaceOf(vm, i), n);
    var v, a := vm.(mem := r.mem), DoAll(a0, before);
    OneMoreStep(c, SpaceOf(vm, i), n);
    NextFits(vm, i, c, ops, stack);
    NextCode(vm, v, i, c, ops, stack);
    if op.PopReg? {
      UsableSame(vm, i, r.mem, r.ctx.sp);
      PopStep(v, i, r.ctx, op, a);
    } else {
      UsableSame(vm, i, r.mem, r.ctx.sp - 4);
      PushStep(v, i, r.ctx, op, a);
    }
    FollowsOn(vm, i, c, ops, stack);
  }

  /** The two put together. */
  lemma FollowsOn(vm: Vm, i: nat, c: Ctx, ops: seq<StackOp>, stack: seq<Word>)
    requires Inv(vm) && Shape(vm) && i < |vm.pids| && CtxOk(c) && ops != [] && CanDoAll(Machine(c.regs, stack), ops)
    requires Follows(vm, i, c, ops[..|ops| - 1], stack)
    requires var r := RunSteps(c, SpaceOf(vm, i), |ops| - 1);
      Steps(vm.(mem := r.mem), i, r.ctx, ops[|ops| - 1], DoAll(Machine(c.regs, stack), ops[..|ops| - 1]))
    ensures Follows(vm, i, c, ops, stack)
  {
    hide Inv, RunSteps, FullRun, StackHas, Do, DoAll, CanDoAll, Net, Deepest, SamePages, ByteAt, CpuStep, RightCtx, OnlyStack;
    var n := |ops| - 1;
    var r := RunSteps(c, SpaceOf(vm, i), n);
    var v := vm.(mem := r.mem);
    var t := CpuStep(r.ctx, SpaceOf(v, i));
    OneMoreStep(c, SpaceOf(vm, i), n);
    SamePagesTwice(vm, v, vm.(mem := t.mem), i);
    NetBounds(Machine(c.regs, stack), ops);
    CtxOn(c, ops, stack, r.ctx, t.ctx);
    OnlyStackOn(vm, v, vm.(mem := t.mem), i, c, ops, stack, r.ctx);
  }

  lemma CtxOn(c: Ctx, ops: seq<StackOp>, stack: seq<Word>, d: Ctx, e: Ctx)
    requires CtxOk(c) && ops != [] && CanDoAll(Machine(c.regs, stack), ops) && RightCtx(c, ops[..|ops| - 1], stack, d)
    requires e == d.(ip := ToWord(d.ip + 12), sp := e.sp, regs := DoAll(Machine(c.regs, stack), ops).regs)
    requires e.sp == d.sp + (if ops[|ops| - 1].PopReg? then 4 else -4)
    ensures RightCtx(c, ops, stack, e)
  {
    hide DoAll, CanDoAll, Deepest;
    WordPlus(c.ip + 12 * (|ops| - 1), 12);
    hide ToWord;
  }

  lemma OnlyStackOn(vm: Vm, v: Vm, w: Vm, i: nat, c: Ctx, ops: seq<StackOp>, stack: seq<Word>, d: Ctx)
    requires Shape(vm) && Shape(v) && Shape(w) && CtxOk(c) && ops != [] && CanDoAll(Machine(c.regs, stack), ops)
    requires OnlyStack(vm, v, i, c, ops[..|ops| - 1], stack) && RightCtx(c, ops[..|ops| - 1], stack, d)
    requires ops[|ops| - 1].PopReg? ==> forall x: Word :: ByteAt(w, i, x) == ByteAt(v, i, x)
    requires forall x: Word | x < d.sp - 4 || d.sp <= x :: ByteAt(w, i, x) == ByteAt(v, i, x)
    ensures OnlyStack(vm, w, i, c, ops, stack)
  {
    hide ByteAt, DoAll, CanDoAll, Net, Deepest;
    NetBounds(Machine(c.regs, stack), ops);
  }

  lemma NetBounds(a: Machine, ops: seq<StackOp>)
    requires ops != [] && CanDoAll(a, ops)
    ensures var before := ops[..|ops| - 1];
      && CanDoAll(a, before) && CanDo(DoAll(a, before), ops[|ops| - 1])
      && DoAll(a, ops) == Do(DoAll(a, before), ops[|ops| - 1])
      && Net(ops) == Net(before) + (if ops[|ops| - 1].PopReg? then -1 else 1)
      && Net(ops) <= Deepest(ops) && Deepest(before) <= Deepest(ops) && Net(before) + |a.stack| >= 0
  {
    StackSizes(a, ops[..|ops| - 1]);
  }

  // ---- Last in, first out ------------------------------------------------------------------------------------------------

  function PushAll(words: seq<Word>): (ops: seq<StackOp>)
    ensures |ops| == |words|
  {
    seq(|words|, k requires 0 <= k < |words| => PushWord(words[k]))
  }

  function PopAll(regs: seq<nat>): (ops: seq<StackOp>)
    ensures |ops| == |regs|
  {
    seq(|regs|, k requires 0 <= k < |regs| => PopReg(regs[k]))
  }

  function Backwards(words: seq<Word>): (r: seq<Word>)
    ensures |r| == |words|
    ensures forall k | 0 <= k < |words| :: r[k] == words[|words| - 1 - k]
  {
    seq(|words|, k requires 0 <= k < |words| => words[|words| - 1 - k])
  }

  lemma {:induction false} AfterPushes(a: Machine, words: seq<Word>)
    requires |a.regs| == 16
    ensures CanDoAll(a, PushAll(words)) && DoAll(a, PushAll(words)) == a.(stack := Backwards(words) + a.stack)
    ensures Net(PushAll(words)) == Deepest(PushAll(words)) == |words|
  {
    var ops, n := PushAll(words), |words| - 1;
    if words == [] {
      assert Backwards(words) + a.stack == a.stack;
    } else {
      assert ops[..n] == PushAll(words[..n]);
      AfterPushes(a, words[..n]);
      assert Backwards(words) == [words[n]] + Backwards(words[..n]);
      assert Backwards(words) + a.stack == [words[n]] + (Backwards(words[..n]) + a.stack);
    }
  }

  lemma {:induction false} AfterPops(a: Machine, words: seq<Word>, regs: seq<nat>)
    requires |a.regs| == 16 && |regs| <= |words| && forall k | 0 <= k < |regs| :: 1 <= regs[k] <= 10
    ensures var ops, left := PushAll(words) + PopAll(regs), |words| - |regs|;
      && CanDoAll(a, ops) && DoAll(a, ops).stack == Backwards(words[..left]) + a.stack
      && Net(ops) == left && Deepest(ops) == |words|
      && (regs != [] ==> DoAll(a, ops).regs[regs[|regs| - 1]] == Signed(words[left]))
  {
    hide DoAll, CanDoAll, Net, Deepest;
    var ops, n := PushAll(words) + PopAll(regs), |regs| - 1;
    AfterPushes(a, words);
    if regs == [] {
      assert ops == PushAll(words) && words[..|words|] == words;
    } else {
      AfterPops(a, words, regs[..n]);
      var before := PushAll(words) + PopAll(regs[..n]);
      DoLast(a, before, PopReg(regs[n]));
      assert ops == before + [PopReg(regs[n])];
      TopOff(words[..|words| - n], a.stack);
      assert words[..|words| - n][..|words| - n - 1] == words[..|words| - n - 1];
    }
  }

  lemma TopOff(words: seq<Word>, stack: seq<Word>)
    requires words != []
    ensures var all, n := Backwards(words) + stack, |words| - 1;
      all[0] == words[n] && all[1..] == Backwards(words[..n]) + stack
  {
    assert Backwards(words) == [words[|words| - 1]] + Backwards(words[..|words| - 1]);
  }

  lemma DoLast(a: Machine, before: seq<StackOp>, op: StackOp)
    requires CanDoAll(a, before) && CanDo(DoAll(a, before), op)
    ensures var ops := before + [op];
      && CanDoAll(a, ops) && DoAll(a, ops) == Do(DoAll(a, before), op)
      && Net(ops) == Net(before) + (if op.PopReg? then -1 else 1)
      && Deepest(ops) == if Net(ops) > Deepest(before) then Net(ops) else Deepest(before)
  {
    assert (before + [op])[..|before|] == before;
  }

  /** n pushes come back in reverse order: whatever the words pushed and the registers popped into, pop m, counted from
      0, gets word n - 1 - m, and after it sp is that many words below where it was at first. */
  lemma PushesComeBack(vm: Vm, i: nat, c: Ctx, words: seq<Word>, regs: seq<nat>)
    requires Inv(vm) && Shape(vm) && i < |vm.pids| && CtxOk(c) && 0 < |regs| <= |words|
    requires forall k | 0 <= k < |regs| :: 1 <= regs[k] <= 10
    requires CodeAt(vm, i, c.ip, PushAll(words) + PopAll(regs))
    requires 4 * |words| <= c.sp && Room(vm, i, c.sp - 4 * |words|, c.sp)
    requires c.ip + 12 * (|words| + |regs|) <= c.sp - 4 * |words| || c.sp <= c.ip
    ensures var m, r := |regs| - 1, RunSteps(c, SpaceOf(vm, i), |words| + |regs|);
      && r.outcome == Trapped(QuantumExpired)
      && r.ctx.regs[regs[m]] == Signed(words[|words| - 1 - m]) && r.ctx.sp == c.sp - 4 * (|words| - 1 - m)
  {
    hide Inv, RunSteps, LineAt, Room, ByteAt, WordAt, SamePages, FullRun, Signed, StackHas, DoAll, CanDoAll, Net, Deepest,
         CodeAt, OnlyStack, PushAll, PopAll;
    var ops := PushAll(words) + PopAll(regs);
    AfterPops(Machine(c.regs, []), words, regs);
    EmptyStack(vm, i, c.sp);
    StackMachine(vm, i, c, ops, []);
    OneMoreStep(c, SpaceOf(vm, i), |ops|);
  }

  lemma EmptyStack(vm: Vm, i: nat, sp: Word)
    requires Shape(vm)
    ensures StackHas(vm, i, sp, [])
  {}

  // ---- Calls come back --------------------------------------------------------------------------------------------------

  /** A machine with more below its stack does the same on top. */
  lemma {:induction false} Below(a: Machine, more: seq<Word>, ops: seq<StackOp>)
    requires CanDoAll(a, ops)
    ensures var b := a.(stack := a.stack + more);
      CanDoAll(b, ops) && DoAll(b, ops) == DoAll(a, ops).(stack := DoAll(a, ops).stack + more)
  {
    if ops != [] {
      var op := ops[|ops| - 1];
      Below(a, more, ops[..|ops| - 1]);
      var d := DoAll(a, ops[..|ops| - 1]);
      if op.PopReg? {
        assert (d.stack + more)[1..] == d.stack[1..] + more;
      } else {
        var w := if op.PushWord? then op.w else d.regs[op.r] % 0x1_0000_0000;
        assert [w] + (d.stack + more) == ([w] + d.stack) + more;
      }
    }
  }

  /** The step at c called the code at t, leaving the address of the line after it on the stack. */
  ghost predicate Called(vm: Vm, i: nat, c: Ctx, t: Word)
    requires Shape(vm) && i < |vm.pids| && CtxOk(c)
  {
    var r := CpuStep(c, SpaceOf(vm, i));
    && r.outcome == Continue && r.ctx == c.(ip := t, sp := ToWord(c.sp - 4))
    && Stored(vm, i, r.mem, ToWord(c.sp - 4), ToWord(c.ip + 12))
  }

  /** A balanced body of stack instructions, and a return, at t; with room for its stack, apart from its code. */
  ghost predicate Callee(vm: Vm, i: nat, c: Ctx, t: Word, body: seq<StackOp>)
    requires Shape(vm) && i < |vm.pids| && CtxOk(c)
  {
    && CanDoAll(Machine(c.regs, []), body) && Net(body) == 0
    && CodeAt(vm, i, t, body) && t + 12 * |body| + 12 <= WORD_RANGE && LineAt(vm, i, t + 12 * |body|, Line(Ret, []))
    && 4 * Deepest(body) + 4 <= c.sp && Room(vm, i, c.sp - 4 - 4 * Deepest(body), c.sp)
    && (t + 12 * |body| + 12 <= c.sp - 4 - 4 * Deepest(body) || c.sp <= t)
  }

  /** The body and the return at ip, their room, and on top of the stack the address to return to. */
  ghost predicate Entered(v: Vm, i: nat, d: Ctx, body: seq<StackOp>, ret: Word) {
    && Inv(v) && Shape(v) && i < |v.pids| && CtxOk(d) && CanDoAll(Machine(d.regs, []), body) && Net(body) == 0
    && CodeAt(v, i, d.ip, body) && d.ip + 12 * |body| + 12 <= WORD_RANGE && LineAt(v, i, d.ip + 12 * |body|, Line(Ret, []))
    && 4 * Deepest(body) <= d.sp && d.sp + 4 < WORD_RANGE && Room(v, i, d.sp - 4 * Deepest(body), d.sp + 4)
    && (d.ip + 12 * |body| + 12 <= d.sp - 4 * Deepest(body) || d.sp + 4 <= d.ip)
    && WordAt(v, i, d.sp) == ret
  }

  lemma LineApart(vm: Vm, i: nat, m: Mem, va: nat, w: Word, ip: nat, line: Line)
    requires va + 4 < WORD_RANGE && ip + 12 <= WORD_RANGE && (ip + 12 <= va || va + 4 <= ip)
    requires Stored(vm, i, m, va, w) && LineAt(vm, i, ip, line)
    ensures LineAt(vm.(mem := m), i, ip, line)
  {
    hide Inv, ByteAt, Resident, SamePages, LineAt, Stored;
    StoredMeans(vm, i, m, va, w);
    LineIn(vm, i, ip, line);
    StoredRest(vm, i, m, va, w);
    forall k: nat | k < 12 ensures ByteAt(vm.(mem := m), i, At(ip, k)) == ByteAt(vm, i, At(ip, k)) {
      assert At(ip, k) == ip + k;
    }
    LineStays(vm, vm.(mem := m), i, ip, line);
  }

  lemma LineIn(vm: Vm, i: nat, ip: Word, line: Line)
    requires LineAt(vm, i, ip, line)
    ensures Inv(vm) && Shape(vm) && i < |vm.pids|
  {}

  lemma CodeApart(vm: Vm, i: nat, m: Mem, va: nat, w: Word, ip: nat, ops: seq<StackOp>)
    requires va + 4 < WORD_RANGE && Stored(vm, i, m, va, w) && CodeAt(vm, i, ip, ops)
    requires ip + 12 * |ops| <= va || va + 4 <= ip
    ensures CodeAt(vm.(mem := m), i, ip, ops)
  {
    hide Stored, LineAt, LineOf;
    forall k: nat | k < |ops| ensures LineAt(vm.(mem := m), i, ip + 12 * k, LineOf(ops[k])) {
      LineApart(vm, i, m, va, w, ip + 12 * k, LineOf(ops[k]));
    }
  }

  lemma RoomSame(vm: Vm, v: Vm, i: nat, lo: nat, hi: nat)
    requires Shape(vm) && Shape(v) && i < |vm.pids| && i < |v.pids| && v.sizes == vm.sizes && SamePages(vm, v, i)
    requires Room(vm, i, lo, hi)
    ensures Room(v, i, lo, hi)
  {
    hide Inside, Resident;
  }

  lemma Enters(vm: Vm, i: nat, c: Ctx, t: Word, body: seq<StackOp>)
    requires Inv(vm) && Shape(vm) && i < |vm.pids| && CtxOk(c) && Called(vm, i, c, t) && Callee(vm, i, c, t, body)
    ensures var r := CpuStep(c, SpaceOf(vm, i)); Entered(vm.(mem := r.mem), i, r.ctx, body, ToWord(c.ip + 12))
  {
    hide Inv, LineAt, CpuStep, WordAt, Stored, SamePages, Room, CodeAt, CanDoAll, Net, Deepest;
    var r, ret := CpuStep(c, SpaceOf(vm, i)), ToWord(c.ip + 12);
    var sp := c.sp - 4;
    assert r.ctx.sp == sp;
    StoredMeans(vm, i, r.mem, sp, ret);
    StoredWord(vm, i, r.mem, sp, ret);
    CodeApart(vm, i, r.mem, sp, ret, t, body);
    LineApart(vm, i, r.mem, sp, ret, t + 12 * |body|, Line(Ret, []));
    RoomSame(vm, vm.(mem := r.mem), i, sp - 4 * Deepest(body), c.sp);
  }

  lemma OneWord(vm: Vm, i: nat, sp: nat, w: Word)
    requires Shape(vm) && sp + 4 < WORD_RANGE && WordAt(vm, i, sp) == w
    ensures StackHas(vm, i, sp, [w])
  {
    hide WordAt;
  }

  lemma BodyFollows(v: Vm, i: nat, d: Ctx, body: seq<StackOp>, ret: Word)
    requires Entered(v, i, d, body, ret)
    ensures Follows(v, i, d, body, [ret])
    ensures var a := Machine(d.regs, []);
      DoAll(Machine(d.regs, [ret]), body) == DoAll(a, body).(stack := [ret])
  {
    hide Inv, LineAt, WordAt, Room, CodeAt, Deepest, Net, DoAll, CanDoAll;
    OneWord(v, i, d.sp, ret);
    Below(Machine(d.regs, []), [ret], body);
    StackSizes(Machine(d.regs, []), body);
    assert [] + [ret] == [ret];
    StackMachine(v, i, d, body, [ret]);
  }

  /** At the return: it is still there, and so is the word it pops. */
  ghost predicate AtReturn(v: Vm, i: nat, d: Ctx, body: seq<StackOp>, ret: Word)
    requires Shape(v) && i < |v.pids| && CtxOk(d)
  {
    var r := RunSteps(d, SpaceOf(v, i), |body|);
    var u := v.(mem := r.mem);
    && FullRun(d, SpaceOf(v, i), |body|) && Inv(u) && Shape(u) && CtxOk(r.ctx) && r.ctx.sp == d.sp
    && AtLine(u, i, r.ctx, Line(Ret, [])) && Usable(u, i, d.sp) && WordAt(u, i, d.sp) == ret
  }

  lemma BodyEnds(v: Vm, i: nat, d: Ctx, body: seq<StackOp>, ret: Word)
    requires Entered(v, i, d, body, ret)
    ensures AtReturn(v, i, d, body, ret)
    ensures RunSteps(d, SpaceOf(v, i), |body|).ctx.regs == DoAll(Machine(d.regs, []), body).regs
  {
    hide Inv, LineAt, ByteAt, WordAt, SamePages, FullRun, Resident, Room, CodeAt, RunSteps, DoAll, CanDoAll, Deepest, Net,
         Usable, StackHas;
    BodyFollows(v, i, d, body, ret);
    var r, ip := RunSteps(d, SpaceOf(v, i), |body|), d.ip + 12 * |body|;
    var u := v.(mem := r.mem);
    LineLeft(v, u, i, d, body, [ret], ip);
    RoomSame(v, u, i, d.sp - 4 * Deepest(body), d.sp + 4);
    RoomForWord(u, i, d.sp - 4 * Deepest(body), d.sp + 4, d.sp);
    TopWord(u, i, d.sp, [ret]);
  }

  lemma LineLeft(v: Vm, u: Vm, i: nat, d: Ctx, body: seq<StackOp>, stack: seq<Word>, ip: nat)
    requires Shape(v) && Inv(u) && Shape(u) && i < |u.pids| && u.sizes == v.sizes && SamePages(v, u, i)
    requires OnlyStack(v, u, i, d, body, stack) && ip + 12 <= WORD_RANGE && LineAt(v, i, ip, Line(Ret, []))
    requires ip + 12 <= d.sp - 4 * Deepest(body) || d.sp + 4 * |stack| <= ip
    ensures LineAt(u, i, ip, Line(Ret, []))
  {
    hide Inv, LineAt, ByteAt, SamePages, Deepest;
    forall k: nat | k < 12 ensures ByteAt(u, i, At(ip, k)) == ByteAt(v, i, At(ip, k)) {
      assert At(ip, k) == ip + k;
    }
    LineStays(v, u, i, ip, Line(Ret, []));
  }

  /** A call comes back: after the call, a balanced body and the return, ip is at the line after the call, and sp is what
      it was. */
  lemma ComesBack(vm: Vm, i: nat, c: Ctx, t: Word, body: seq<StackOp>)
    requires Inv(vm) && Shape(vm) && i < |vm.pids| && CtxOk(c) && Called(vm, i, c, t) && Callee(vm, i, c, t, body)
    ensures var r := RunSteps(c, SpaceOf(vm, i), |body| + 2);
      && r.outcome == Trapped(QuantumExpired) && r.ctx.ip == ToWord(c.ip + 12) && r.ctx.sp == c.sp
      && r.ctx.regs == DoAll(Machine(c.regs, []), body).regs
  {
    hide Inv, LineAt, AtLine, CpuStep, RunSteps, WordAt, Stored, Unchanged, FullRun, DoAll, CanDoAll, Entered, Usable;
    Enters(vm, i, c, t, body);
    var r, n := CpuStep(c, SpaceOf(vm, i)), |body|;
    var v := vm.(mem := r.mem);
    StoredMeans(vm, i, r.mem, c.sp - 4, ToWord(c.ip + 12));
    BodyEnds(v, i, r.ctx, body, ToWord(c.ip + 12));
    CallFirst(c, SpaceOf(vm, i), n);
    var s := RunSteps(r.ctx, SpaceOf(v, i), n);
    Returns(v.(mem := s.mem), i, s.ctx);
    OneMoreStep(c, SpaceOf(vm, i), n + 1);
  }

  /** The call and then n steps. */
  lemma CallFirst(c: Ctx, sp: Space, n: nat)
    requires CtxOk(c) && SpaceOk(sp) && CpuStep(c, sp).outcome == Continue
    requires FullRun(CpuStep(c, sp).ctx, sp.(mem := CpuStep(c, sp).mem), n)
    ensures FullRun(c, sp, n + 1)
    ensures RunSteps(c, sp, n + 1) == RunSteps(CpuStep(c, sp).ctx, sp.(mem := CpuStep(c, sp).mem), n)
  {
    hide CpuStep;
  }

  /** Call, body, Ret. */
  lemma CallReturns(vm: Vm, i: nat, c: Ctx, a: nat, body: seq<StackOp>)
    requires 1 <= a <= 10 && AtLine(vm, i, c, Line(Call, [Reg(a)])) && CtxOk(c) && Shape(vm) && i < |vm.pids|
    requires Callee(vm, i, c, ToWord(c.ip + 12 + c.regs[a]), body)
    ensures var r := RunSteps(c, SpaceOf(vm, i), |body| + 2);
      && r.outcome == Trapped(QuantumExpired) && r.ctx.ip == ToWord(c.ip + 12) && r.ctx.sp == c.sp
      && r.ctx.regs == DoAll(Machine(c.regs, []), body).regs
  {
    hide AtLine, CpuStep, RunSteps, Stored, Usable, Inv, Room, CodeAt, LineAt, CanDoAll, DoAll, Deepest, Net, Resident;
    AtLineMeans(vm, i, c, Line(Call, [Reg(a)]));
    RoomForWord(vm, i, c.sp - 4 - 4 * Deepest(body), c.sp, c.sp - 4);
    Calls(vm, i, c, a);
    ComesBack(vm, i, c, ToWord(c.ip + 12 + c.regs[a]), body);
  }

  /** Callm, body, Ret: the distance is the word in memory, which lies apart from the word pushed. */
  lemma CallmReturns(vm: Vm, i: nat, c: Ctx, a: nat, body: seq<StackOp>)
    requires 1 <= a <= 10 && AtLine(vm, i, c, Line(Callm, [Reg(a)])) && CtxOk(c) && Shape(vm) && i < |vm.pids|
    requires var va := ToWord(c.regs[a]); va + 4 <= WORD_RANGE && Usable(vm, i, va) && (va + 4 <= c.sp - 4 || c.sp <= va)
    requires Callee(vm, i, c, ToWord(c.ip + 12 + WordAt(vm, i, ToWord(c.regs[a]))), body)
    ensures var r := RunSteps(c, SpaceOf(vm, i), |body| + 2);
      && r.outcome == Trapped(QuantumExpired) && r.ctx.ip == ToWord(c.ip + 12) && r.ctx.sp == c.sp
      && r.ctx.regs == DoAll(Machine(c.regs, []), body).regs
  {
    hide AtLine, CpuStep, RunSteps, Stored, Usable, Inv, Room, CodeAt, LineAt, CanDoAll, DoAll, Deepest, Net, Resident,
         WordAt, ByteAt;
    AtLineMeans(vm, i, c, Line(Callm, [Reg(a)]));
    var va := ToWord(c.regs[a]);
    RoomForWord(vm, i, c.sp - 4 - 4 * Deepest(body), c.sp, c.sp - 4);
    CallsMemory(vm, i, c, a);
    var m := CpuStep(c, SpaceOf(vm, i)).mem;
    StoredRest(vm, i, m, c.sp - 4, ToWord(c.ip + 12));
    KeptWord(vm, vm.(mem := m), i, va);
    ComesBack(vm, i, c, ToWord(c.ip + 12 + WordAt(vm, i, va)), body);
  }
}
