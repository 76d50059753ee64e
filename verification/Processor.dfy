/** The CPU of CPU.cpp as a value: fetch, execute and the restart of faulting instructions. */
module Processor {
  import opened Basics
  import opened Memory
  import opened Instructions

  datatype Trap =
    | QuantumExpired | Exit | Sleep | Input | Inputc | MapSharedMem
    | AcquireLock | ReleaseLock | SignalEvent | WaitEvent | Alloc | FreeMemory

  /** How a step ends: Trap::None, another trap, a page fault, or any other exception. */
  datatype Outcome = Continue | Trapped(trap: Trap) | Faulted(vpage: nat) | Crashed

  datatype Ctx = Ctx(regs: seq<int>, ip: Word, sp: Word, zero: bool, sign: bool, trapRegA: Word, trapRegB: Word)

  predicate CtxOk(c: Ctx) {
    |c.regs| == 16
  }

  /** The bytes of process i's address space as the MMU sees them, code size included. */
  datatype Space = Space(mem: Mem, proc: nat, codeSize: nat)

  predicate SpaceOk(sp: Space) {
    sp.proc < |sp.mem.tables|
  }

  // ---- Word access (MMU.cpp:114-128) -------------------------------------------------------------

  function At(va: Word, k: nat): Word {
    ToWord(va + k)
  }

  function Read32(sp: Space, va: Word): (r: Access<Word>)
    requires SpaceOk(sp)
    ensures |r.mem.tables| == |sp.mem.tables| && |r.mem.frames| == |sp.mem.frames|
    ensures Wf(sp.mem) ==> Wf(r.mem)
  {
    var r0 := ReadByte(sp.mem, sp.proc, sp.codeSize, va);
    if !r0.Done? then Raise(r0) else
    var r1 := ReadByte(r0.mem, sp.proc, sp.codeSize, At(va, 1));
    if !r1.Done? then Raise(r1) else
    var r2 := ReadByte(r1.mem, sp.proc, sp.codeSize, At(va, 2));
    if !r2.Done? then Raise(r2) else
    var r3 := ReadByte(r2.mem, sp.proc, sp.codeSize, At(va, 3));
    if !r3.Done? then Raise(r3) else
    Done(r3.mem, FromBytes(r0.val, r1.val, r2.val, r3.val))
  }

  function Raise<T, U>(r: Access<T>): Access<U>
    requires !r.Done?
  {
    match r
    case Fault(m, vp) => Fault(m, vp)
    case Error(m) => Error(m)
  }

  /** The first n bytes of a word write; a fault leaves the bytes before it written. */
  function WriteBytes(sp: Space, va: Word, w: Word, n: nat): (r: Access<()>)
    requires SpaceOk(sp) && n <= 4
    ensures |r.mem.tables| == |sp.mem.tables| && |r.mem.frames| == |sp.mem.frames|
    ensures Wf(sp.mem) ==> Wf(r.mem)
  {
    if n == 0 then Done(sp.mem, ())
    else
      var r := WriteBytes(sp, va, w, n - 1);
      if r.Done? then WriteByte(r.mem, sp.proc, sp.codeSize, At(va, n - 1), WordByte(w, n - 1)) else r
  }

  function Write32(sp: Space, va: Word, w: Word): (r: Access<()>)
    requires SpaceOk(sp)
    ensures |r.mem.tables| == |sp.mem.tables| && |r.mem.frames| == |sp.mem.frames|
    ensures Wf(sp.mem) ==> Wf(r.mem)
  {
    WriteBytes(sp, va, w, 4)
  }

  // ---- What an instruction wants to do (CPU.cpp:52-268) ---------------------------------------------

  /** What becomes of a word that was read. */
  datatype Use = IntoReg(reg: nat) | PopInto(reg: nat) | ReturnTo | Discard

  /** The effect of an instruction on a context whose ip is already past it: the register work, and
      the memory accesses in order. `during` is the context while an access may still fault. */
  datatype Effect =
    | Plain(after: Ctx, outcome: Outcome)
    | Load(addr: Word, use: Use)
    | LoadByte(addr: Word)
    | Store(addr: Word, val: Word, during: Ctx, after: Ctx)
    | Move(src: Word, dst: Word, during: Ctx)
    | StoreThenJump(addr: Word, val: Word, during: Ctx, target: Word)

  predicate IsReg(r: Word) {
    1 <= r <= 10
  }

  function SetReg(c: Ctx, r: nat, v: int): (d: Ctx)
    requires CtxOk(c) && r < 16
    ensures CtxOk(d)
  {
    c.(regs := c.regs[r := v])
  }

  function Jump(c: Ctx, offset: int): Ctx {
    c.(ip := ToWord(c.ip + offset))
  }

  function Plainly(c: Ctx): Effect {
    Plain(c, Continue)
  }

  /** Registers a and b of an opcode that names them are r1..r10, or checkReg throws. */
  predicate RegsOk(op: Opcode, a: Word, b: Word) {
    match op
    case Incr | Addi | Movi | Printr | Printm | Printcr | Printcm | Jmp | Cmpi | Jlt | Jgt | Je | Call | Callm
       | Sleep | Pushr | Popr | Popm | Input | Inputc | AcquireLock | ReleaseLock | SignalEvent | WaitEvent
       | FreeMemory => IsReg(a)
    case Addr | Movr | Movmr | Movrm | Movmm | Cmpr | MapSharedMem | Alloc => IsReg(a) && IsReg(b)
    case _ => true
  }

  predicate EffectOk(e: Effect) {
    match e
    case Plain(after, outcome) => CtxOk(after) && (outcome == Continue || outcome.Trapped?)
    case Load(_, use) => use.IntoReg? || use.PopInto? ==> use.reg < 16
    case LoadByte(_) => true
    case Store(_, _, during, after) => CtxOk(during) && CtxOk(after)
    case Move(_, _, during) => CtxOk(during)
    case StoreThenJump(_, _, during, _) => CtxOk(during)
  }

  function EffectOf(c: Ctx, op: Opcode, a: Word, b: Word): (e: Effect)
    requires CtxOk(c) && RegsOk(op, a, b)
    ensures EffectOk(e)
  {
    match op
    case Exit => Plain(c, Trapped(Trap.Exit))
    case Sleep => Plain(c, Trapped(Trap.Sleep))
    case Alloc => Plain(c.(trapRegA := a, trapRegB := b), Trapped(Trap.Alloc))
    case FreeMemory => Plain(c.(trapRegA := a), Trapped(Trap.FreeMemory))
    case MapSharedMem => Plain(SetReg(c, 15, b), Trapped(Trap.MapSharedMem))
    case AcquireLock => Plain(c, Trapped(Trap.AcquireLock))
    case AcquireLockI => Plain(SetReg(c, 1, a), Trapped(Trap.AcquireLock))
    case ReleaseLock => Plain(c, Trapped(Trap.ReleaseLock))
    case ReleaseLockI => Plain(SetReg(c, 1, a), Trapped(Trap.ReleaseLock))
    case SignalEvent => Plain(c, Trapped(Trap.SignalEvent))
    case SignalEventI => Plain(SetReg(c, 1, a), Trapped(Trap.SignalEvent))
    case WaitEvent => Plain(c, Trapped(Trap.WaitEvent))
    case WaitEventI => Plain(SetReg(c, 1, a), Trapped(Trap.WaitEvent))
    case Input => Plain(c, Trapped(Trap.Input))
    case Inputc => Plain(c, Trapped(Trap.Inputc))
    case Movi => Plainly(SetReg(c, a, ToInt32(b)))
    case Movr => Plainly(SetReg(c, a, c.regs[b]))
    case Movmr => Load(ToWord(c.regs[b]), IntoReg(a))
    case Movrm => Store(ToWord(c.regs[a]), ToWord(c.regs[b]), c, c)
    case Movmm => Move(ToWord(c.regs[b]), ToWord(c.regs[a]), c)
    case Incr => Plainly(SetReg(c, a, ToInt64(c.regs[a] + 1)))
    case Addi => Plainly(SetReg(c, a, ToInt64(c.regs[a] + ToInt32(b))))
    case Addr => Plainly(SetReg(c, a, ToInt64(c.regs[a] + c.regs[b])))
    case Printr => Plainly(c)
    case Printm => Load(ToWord(c.regs[a]), Discard)
    case Printcr => Plainly(c)
    case Printcm => LoadByte(ToWord(c.regs[a]))
    case Jmp => Plainly(Jump(c, c.regs[a]))
    case Jmpi => Plainly(Jump(c, ToInt32(a)))
    case Jmpa => Plainly(c.(ip := a))
    case Cmpi => Plainly(c.(zero := c.regs[a] == ToInt32(b), sign := c.regs[a] < ToInt32(b)))
    case Cmpr => Plainly(c.(zero := c.regs[a] == c.regs[b], sign := c.regs[a] < c.regs[b]))
    case Jlt => Plainly(if c.sign then Jump(c, c.regs[a]) else c)
    case Jlti => Plainly(if c.sign then Jump(c, ToInt32(a)) else c)
    case Jlta => Plainly(if c.sign then c.(ip := a) else c)
    case Jgt => Plainly(if !c.sign && !c.zero then Jump(c, c.regs[a]) else c)
    case Jgti => Plainly(if !c.sign && !c.zero then Jump(c, ToInt32(a)) else c)
    case Jgta => Plainly(if !c.sign && !c.zero then c.(ip := a) else c)
    case Je => Plainly(if c.zero then Jump(c, c.regs[a]) else c)
    case Jei => Plainly(if c.zero then Jump(c, ToInt32(a)) else c)
    case Jea => Plainly(if c.zero then c.(ip := a) else c)
    case Call =>
      var d := c.(sp := ToWord(c.sp - 4));
      Store(d.sp, c.ip, d, Jump(d, c.regs[a]))
    case Callm =>
      var d := c.(sp := ToWord(c.sp - 4));
      StoreThenJump(d.sp, c.ip, d, ToWord(c.regs[a]))
    case Ret => Load(c.sp, ReturnTo)
    case Pushi =>
      var d := c.(sp := ToWord(c.sp - 4));
      Store(d.sp, a, d, d)
    case Pushr =>
      var d := c.(sp := ToWord(c.sp - 4));
      Store(d.sp, ToWord(c.regs[a]), d, d)
    case Popr => Load(c.sp, PopInto(a))
    case Popm => Move(c.sp, ToWord(c.regs[a]), c.(sp := ToWord(c.sp + 4)))
    case Setpriority => Plainly(c)
    case Setpriorityi => Plainly(c)
  }

  function Used(c: Ctx, use: Use, v: Word): (d: Ctx)
    requires CtxOk(c) && (use.IntoReg? || use.PopInto? ==> use.reg < 16)
    ensures CtxOk(d)
  {
    match use
    case IntoReg(r) => SetReg(c, r, ToInt32(v))
    case PopInto(r) => SetReg(c, r, ToInt32(v)).(sp := ToWord(c.sp + 4))
    case ReturnTo => c.(ip := v, sp := ToWord(c.sp + 4))
    case Discard => c
  }

  // ---- Steps on paged memory ---------------------------------------------------------------------------

  datatype Result = Result(ctx: Ctx, mem: Mem, outcome: Outcome)

  function Stopped<T>(c: Ctx, r: Access<T>): Result
    requires !r.Done?
  {
    match r
    case Fault(m, vp) => Result(c, m, Faulted(vp))
    case Error(m) => Result(c, m, Crashed)
  }

  /** Carries out an effect on paged memory. */
  function Perform(e: Effect, c: Ctx, sp: Space): (r: Result)
    requires CtxOk(c) && SpaceOk(sp) && EffectOk(e)
    ensures CtxOk(r.ctx) && |r.mem.tables| == |sp.mem.tables| && |r.mem.frames| == |sp.mem.frames| && (Wf(sp.mem) ==> Wf(r.mem))
  {
    match e
    case Plain(after, outcome) => Result(after, sp.mem, outcome)
    case Load(addr, use) =>
      var r := Read32(sp, addr);
      if r.Done? then Result(Used(c, use, r.val), r.mem, Continue) else Stopped(c, r)
    case LoadByte(addr) =>
      var r := ReadByte(sp.mem, sp.proc, sp.codeSize, addr);
      if r.Done? then Result(c, r.mem, Continue) else Stopped(c, r)
    case Store(addr, val, during, after) =>
      var w := Write32(sp, addr, val);
      if w.Done? then Result(after, w.mem, Continue) else Stopped(during, w)
    case Move(src, dst, during) =>
      var r := Read32(sp, src);
      if !r.Done? then Stopped(c, r)
      else
        var w := Write32(sp.(mem := r.mem), dst, r.val);
        if w.Done? then Result(during, w.mem, Continue) else Stopped(during, w)
    case StoreThenJump(addr, val, during, target) =>
      var w := Write32(sp, addr, val);
      if !w.Done? then Stopped(during, w)
      else
        var r := Read32(sp.(mem := w.mem), target);
        if r.Done? then Result(Jump(during, ToInt32(r.val)), r.mem, Continue) else Stopped(during, r)
  }

  /** fetch: the three words of the instruction at ip. */
  function Fetch(sp: Space, ip: Word): (r: Access<(Word, Word, Word)>)
    requires SpaceOk(sp)
    ensures |r.mem.tables| == |sp.mem.tables| && |r.mem.frames| == |sp.mem.frames| && (Wf(sp.mem) ==> Wf(r.mem))
  {
    var r0 := Read32(sp, ip);
    if !r0.Done? then Raise(r0) else
    var r1 := Read32(sp.(mem := r0.mem), At(ip, 4));
    if !r1.Done? then Raise(r1) else
    var r2 := Read32(sp.(mem := r1.mem), At(ip, 8));
    if !r2.Done? then Raise(r2) else
    Done(r2.mem, (r0.val, r1.val, r2.val))
  }

  /** execute, or a crash on an unknown opcode or a bad register. */
  function Execute(c: Ctx, raw: Word, a: Word, b: Word, sp: Space): (r: Result)
    requires CtxOk(c) && SpaceOk(sp)
    ensures CtxOk(r.ctx) && |r.mem.tables| == |sp.mem.tables| && |r.mem.frames| == |sp.mem.frames| && (Wf(sp.mem) ==> Wf(r.mem))
  {
    match Decode(raw)
    case None => Result(c, sp.mem, Crashed)
    case Some(op) =>
      if !RegsOk(op, a, b) then Result(c, sp.mem, Crashed)
      else Perform(EffectOf(c, op, a, b), c, sp)
  }

  /** step: a page fault puts ip back, and only ip. */
  function CpuStep(c: Ctx, sp: Space): (r: Result)
    requires CtxOk(c) && SpaceOk(sp)
    ensures CtxOk(r.ctx) && |r.mem.tables| == |sp.mem.tables| && |r.mem.frames| == |sp.mem.frames| && (Wf(sp.mem) ==> Wf(r.mem))
  {
    var f := Fetch(sp, c.ip);
    if !f.Done? then Stopped(c, f)
    else
      var r := Execute(c.(ip := At(c.ip, 12)), f.val.0, f.val.1, f.val.2, sp.(mem := f.mem));
      if r.outcome.Faulted? then r.(ctx := r.ctx.(ip := c.ip)) else r
  }

  /** Run: at most n steps, until one does not return Trap::None. */
  function RunSteps(c: Ctx, sp: Space, n: nat): (r: Result)
    requires CtxOk(c) && SpaceOk(sp)
    ensures CtxOk(r.ctx) && |r.mem.tables| == |sp.mem.tables| && |r.mem.frames| == |sp.mem.frames| && (Wf(sp.mem) ==> Wf(r.mem))
    ensures r.outcome != Continue
    decreases n
  {
    hide CpuStep;
    if n == 0 then Result(c, sp.mem, Trapped(QuantumExpired))
    else
      var r := CpuStep(c, sp);
      if r.outcome == Continue then RunSteps(r.ctx, sp.(mem := r.mem), n - 1) else r
  }
}
