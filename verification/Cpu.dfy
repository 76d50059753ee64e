/** The CPU as the source has it: registers and flags updated in place, memory reached through the MMU.
    Each method is proved against the functions of module Processor. */
module CpuDevice {
  import opened Basics
  import opened Memory
  import opened Instructions
  import opened Processor
  import opened MmuDevice

  class Cpu {
    const mmu: Mmu
    const regs: array<int>
    var ip: Word
    var sp: Word
    var zeroFlag: bool
    var signFlag: bool
    var trapRegA: Word
    var trapRegB: Word

    /** Sixteen registers, apart from physical memory. */
    ghost predicate Wired()
      reads this
    {
      regs.Length == 16 && regs as object != mmu.physMem && regs as object != mmu.physUsed
    }

    ghost predicate Valid()
      reads this, mmu, mmu.physMem, mmu.physUsed
    {
      Wired() && mmu.Valid() && mmu.active < |mmu.tables|
    }

    ghost function Context(): (c: Ctx)
      reads this, regs
    {
      Ctx(regs[..], ip, sp, zeroFlag, signFlag, trapRegA, trapRegB)
    }

    constructor (m: Mmu)
      ensures Wired() && mmu == m && fresh(regs)
      ensures forall k | 0 <= k < 16 :: regs[k] == 0
    {
      mmu := m;
      regs := new int[16](_ => 0);
      ip, sp, zeroFlag, signFlag, trapRegA, trapRegB := 0, 0, false, false, 0, 0;
    }

    method SaveTo() returns (c: Ctx)
      requires Wired()
      ensures c == Context() && CtxOk(c)
    {
      c := Ctx(regs[..], ip, sp, zeroFlag, signFlag, trapRegA, trapRegB);
    }

    method LoadFrom(c: Ctx)
      requires Wired() && CtxOk(c)
      modifies this, regs
      ensures Context() == c
    {
      forall k | 0 <= k < 16 { regs[k] := c.regs[k]; }
      ip, sp, zeroFlag, signFlag, trapRegA, trapRegB := c.ip, c.sp, c.zero, c.sign, c.trapRegA, c.trapRegB;
      assert regs[..] == c.regs;
    }

    method Fetch() returns (r: Res<(Word, Word, Word)>)
      requires Valid()
      modifies this`ip, mmu`tables, mmu`mem, mmu`lruList, mmu`lruPos, mmu`history
      ensures Valid() && Agrees(r, mmu.mem, Processor.Fetch(old(mmu.Space()), old(ip)))
      ensures ip == if r.Ok? then At(old(ip), 12) else old(ip)
    {
      hide Processor.Read32, Linked, Lru.Replay;
      var w0 := mmu.Read32(ip);
      if !w0.Ok? { return Rethrown(w0); }
      var w1 := mmu.Read32(At(ip, 4));
      if !w1.Ok? { return Rethrown(w1); }
      var w2 := mmu.Read32(At(ip, 8));
      if !w2.Ok? { return Rethrown(w2); }
      ip := At(ip, 12);
      r := Ok((w0.val, w1.val, w2.val));
    }

    // ---- execute: instructions without a memory access ------------------------------------------------

    /** regs_[r] = v */
    method SetReg(r: nat, v: int)
      requires Valid() && r < 16
      modifies regs
      ensures Valid() && Context() == Processor.SetReg(old(Context()), r, v) && mmu.mem == old(mmu.mem)
    {
      regs[r] := v;
      assert regs[..] == old(regs[..])[r := v];
    }

    /** The system calls: leave the operands where the OS looks for them and trap. */
    method ExecuteTrap(op: Opcode, a: Word, b: Word) returns (o: Outcome)
      requires Valid() && RegsOk(op, a, b) && IsSystemCall(op)
      modifies this`trapRegA, this`trapRegB, regs
      ensures Valid() && EffectOf(old(Context()), op, a, b) == Plain(Context(), o) && mmu.mem == old(mmu.mem)
    {
      match op
      case Exit => o := Trapped(Trap.Exit);
      case Sleep => o := Trapped(Trap.Sleep);
      case Alloc =>
        trapRegA := a;
        trapRegB := b;
        o := Trapped(Trap.Alloc);
      case FreeMemory =>
        trapRegA := a;
        o := Trapped(Trap.FreeMemory);
      case MapSharedMem =>
        SetReg(15, b);
        o := Trapped(Trap.MapSharedMem);
      case AcquireLock => o := Trapped(Trap.AcquireLock);
      case AcquireLockI =>
        SetReg(1, a);
        o := Trapped(Trap.AcquireLock);
      case ReleaseLock => o := Trapped(Trap.ReleaseLock);
      case ReleaseLockI =>
        SetReg(1, a);
        o := Trapped(Trap.ReleaseLock);
      case SignalEvent => o := Trapped(Trap.SignalEvent);
      case SignalEventI =>
        SetReg(1, a);
        o := Trapped(Trap.SignalEvent);
      case WaitEvent => o := Trapped(Trap.WaitEvent);
      case WaitEventI =>
        SetReg(1, a);
        o := Trapped(Trap.WaitEvent);
      case Input => o := Trapped(Trap.Input);
      case Inputc => o := Trapped(Trap.Inputc);
      case _ => o := Continue;
    }

    method JumpBy(offset: int)
      requires Valid()
      modifies this`ip
      ensures Valid() && Context() == Jump(old(Context()), offset) && mmu.mem == old(mmu.mem)
    {
      ip := ToWord(ip + offset);
    }

    /** Moves, arithmetic, comparisons and register output. */
    method ExecutePlain(op: Opcode, a: Word, b: Word)
      requires Valid() && RegsOk(op, a, b) && !IsJump(op) && !IsSystemCall(op) && !IsMove(op) && !IsPush(op) && !IsPop(op)
      modifies this`zeroFlag, this`signFlag, regs
      ensures Valid() && EffectOf(old(Context()), op, a, b) == Plain(Context(), Continue) && mmu.mem == old(mmu.mem)
    {
      match op
      case Movi => SetReg(a, ToInt32(b));
      case Movr => SetReg(a, regs[b]);
      case Incr => SetReg(a, ToInt64(regs[a] + 1));
      case Addi => SetReg(a, ToInt64(regs[a] + ToInt32(b)));
      case Addr => SetReg(a, ToInt64(regs[a] + regs[b]));
      case Cmpi =>
        zeroFlag := regs[a] == ToInt32(b);
        signFlag := regs[a] < ToInt32(b);
      case Cmpr =>
        zeroFlag := regs[a] == regs[b];
        signFlag := regs[a] < regs[b];
      case _ =>
    }

    method ExecuteJump(op: Opcode, a: Word, b: Word)
      requires Valid() && RegsOk(op, a, b) && IsJump(op)
      modifies this`ip
      ensures Valid() && EffectOf(old(Context()), op, a, b) == Plain(Context(), Continue) && mmu.mem == old(mmu.mem)
    {
      match op
      case Jmp => JumpBy(regs[a]);
      case Jmpi => JumpBy(ToInt32(a));
      case Jmpa => ip := a;
      case Jlt => if signFlag { JumpBy(regs[a]); }
      case Jlti => if signFlag { JumpBy(ToInt32(a)); }
      case Jlta => if signFlag { ip := a; }
      case Jgt => if !signFlag && !zeroFlag { JumpBy(regs[a]); }
      case Jgti => if !signFlag && !zeroFlag { JumpBy(ToInt32(a)); }
      case Jgta => if !signFlag && !zeroFlag { ip := a; }
      case Je => if zeroFlag { JumpBy(regs[a]); }
      case Jei => if zeroFlag { JumpBy(ToInt32(a)); }
      case Jea => if zeroFlag { ip := a; }
      case _ =>
    }

    // ---- execute: memory and stack -----------------------------------------------------------------------

    /** mmu.write32(sp_ -= 4, v) */
    method Push(v: Word) returns (r: Res<()>)
      requires Valid()
      modifies this`sp, mmu`tables, mmu`mem, mmu`lruList, mmu`lruPos, mmu`history, mmu.physMem
      ensures Valid() && Context() == old(Context()).(sp := ToWord(old(sp) - 4))
      ensures Agrees(r, mmu.mem, Processor.Write32(old(mmu.Space()), ToWord(old(sp) - 4), v))
    {
      sp := ToWord(sp - 4);
      r := mmu.Write32(sp, v);
    }

    method ExecuteMove(op: Opcode, a: Word, b: Word) returns (o: Outcome)
      requires Valid() && RegsOk(op, a, b) && IsMove(op)
      modifies regs, mmu`tables, mmu`mem, mmu`lruList, mmu`lruPos, mmu`history, mmu.physMem
      ensures Valid()
      ensures Result(Context(), mmu.mem, o) ==
              Perform(EffectOf(old(Context()), op, a, b), old(Context()), old(mmu.Space()))
    {
      hide Processor.Read32, Processor.Write32, Linked, Lru.Replay, ReadByte, Wf;
      match op
      case Movmr =>
        var v := mmu.Read32(ToWord(regs[b]));
        if v.Ok? { SetReg(a, ToInt32(v.val)); }
        o := Ended(v);
      case Movrm =>
        var w := mmu.Write32(ToWord(regs[a]), ToWord(regs[b]));
        o := Ended(w);
      case Movmm =>
        var dst := ToWord(regs[a]);
        var v := mmu.Read32(ToWord(regs[b]));
        if !v.Ok? { return Ended(v); }
        var w := mmu.Write32(dst, v.val);
        o := Ended(w);
      case Printm =>
        var v := mmu.Read32(ToWord(regs[a]));
        o := Ended(v);
      case Printcm =>
        var v := mmu.Read8(ToWord(regs[a]));
        o := Ended(v);
      case _ => o := Continue;
    }

    method ExecutePush(op: Opcode, a: Word, b: Word) returns (o: Outcome)
      requires Valid() && RegsOk(op, a, b) && IsPush(op)
      modifies this`ip, this`sp, regs, mmu`tables, mmu`mem, mmu`lruList, mmu`lruPos, mmu`history, mmu.physMem
      ensures Valid()
      ensures Result(Context(), mmu.mem, o) ==
              Perform(EffectOf(old(Context()), op, a, b), old(Context()), old(mmu.Space()))
    {
      hide Processor.Read32, Processor.Write32, Linked, Lru.Replay, ReadByte, Wf;
      match op
      case Call =>
        var w := Push(ip);
        if w.Ok? { JumpBy(regs[a]); }
        o := Ended(w);
      case Callm =>
        var target := ToWord(regs[a]);
        var w := Push(ip);
        if !w.Ok? { return Ended(w); }
        var v := mmu.Read32(target);
        if v.Ok? { JumpBy(ToInt32(v.val)); }
        o := Ended(v);
      case Pushi =>
        var w := Push(a);
        o := Ended(w);
      case Pushr =>
        var w := Push(ToWord(regs[a]));
        o := Ended(w);
      case _ => o := Continue;
    }

    method ExecutePop(op: Opcode, a: Word, b: Word) returns (o: Outcome)
      requires Valid() && RegsOk(op, a, b) && IsPop(op)
      modifies this`ip, this`sp, regs, mmu`tables, mmu`mem, mmu`lruList, mmu`lruPos, mmu`history, mmu.physMem
      ensures Valid()
      ensures Result(Context(), mmu.mem, o) ==
              Perform(EffectOf(old(Context()), op, a, b), old(Context()), old(mmu.Space()))
    {
      hide Processor.Read32, Processor.Write32, Linked, Lru.Replay, ReadByte, Wf;
      match op
      case Ret =>
        var v := mmu.Read32(sp);
        if v.Ok? {
          ip := v.val;
          sp := ToWord(sp + 4);
        }
        o := Ended(v);
      case Popr =>
        var v := mmu.Read32(sp);
        if v.Ok? {
          SetReg(a, ToInt32(v.val));
          sp := ToWord(sp + 4);
        }
        o := Ended(v);
      case Popm =>
        var v := mmu.Read32(sp);
        if !v.Ok? { return Ended(v); }
        sp := ToWord(sp + 4);
        var w := mmu.Write32(ToWord(regs[a]), v.val);
        o := Ended(w);
      case _ => o := Continue;
    }

    /** checkReg on the registers the opcode names, then its case. */
    method Execute(raw: Word, a: Word, b: Word) returns (o: Outcome)
      requires Valid()
      modifies this, regs, mmu`tables, mmu`mem, mmu`lruList, mmu`lruPos, mmu`history, mmu.physMem
      ensures Valid()
      ensures Result(Context(), mmu.mem, o) == Processor.Execute(old(Context()), raw, a, b, old(mmu.Space()))
    {
      hide Perform, EffectOf, Linked, Lru.Replay, Decode, RegsOk, IsSystemCall, IsMove, IsPush, IsPop, IsJump;
      var op := Decode(raw);
      if op.None? || !RegsOk(op.value, a, b) { return Crashed; }
      if IsMove(op.value) {
        o := ExecuteMove(op.value, a, b);
      } else if IsPush(op.value) {
        o := ExecutePush(op.value, a, b);
      } else if IsPop(op.value) {
        o := ExecutePop(op.value, a, b);
      } else if IsSystemCall(op.value) {
        o := ExecuteTrap(op.value, a, b);
        PlainIsPerformed(old(Context()), Context(), o, old(mmu.Space()));
      } else {
        if IsJump(op.value) { ExecuteJump(op.value, a, b); } else { ExecutePlain(op.value, a, b); }
        o := Continue;
        PlainIsPerformed(old(Context()), Context(), o, old(mmu.Space()));
      }
    }

    method Step() returns (o: Outcome)
      requires Valid()
      modifies this, regs, mmu`tables, mmu`mem, mmu`lruList, mmu`lruPos, mmu`history, mmu.physMem
      ensures Valid()
      ensures Result(Context(), mmu.mem, o) == CpuStep(old(Context()), old(mmu.Space()))
    {
      hide Processor.Fetch, Processor.Execute, Linked, Lru.Replay;
      var savedIP := ip;
      var f := Fetch();
      match f
      case PageFault(vp) => o := Faulted(vp);
      case Thrown => o := Crashed;
      case Ok(w) =>
        o := Execute(w.0, w.1, w.2);
        if o.Faulted? { ip := savedIP; }
    }

    /** At most maxsteps instructions, stopping at the first that does not return Trap::None. */
    method Run(maxsteps: nat) returns (o: Outcome)
      requires Valid()
      modifies this, regs, mmu`tables, mmu`mem, mmu`lruList, mmu`lruPos, mmu`history, mmu.physMem
      ensures Valid()
      ensures Result(Context(), mmu.mem, o) == RunSteps(old(Context()), old(mmu.Space()), maxsteps)
    {
      hide CpuStep, Linked, Lru.Replay;
      var steps := 0;
      while steps < maxsteps
        invariant 0 <= steps <= maxsteps && Valid()
        invariant RunSteps(Context(), mmu.Space(), maxsteps - steps) == RunSteps(old(Context()), old(mmu.Space()), maxsteps)
      {
        o := Step();
        if o != Continue { return; }
        steps := steps + 1;
      }
      o := Trapped(QuantumExpired);
    }
  }

  /** How an instruction ends whose last access ended like this. */
  function Ended<T>(r: Res<T>): Outcome {
    match r
    case Ok(_) => Continue
    case PageFault(vp) => Faulted(vp)
    case Thrown => Crashed
  }

  predicate IsMove(op: Opcode) {
    match op
    case Movmr | Movrm | Movmm | Printm | Printcm => true
    case _ => false
  }

  predicate IsPush(op: Opcode) {
    match op
    case Call | Callm | Pushi | Pushr => true
    case _ => false
  }

  predicate IsPop(op: Opcode) {
    match op
    case Ret | Popr | Popm => true
    case _ => false
  }

  predicate IsJump(op: Opcode) {
    match op
    case Jmp | Jmpi | Jmpa | Jlt | Jlti | Jlta | Jgt | Jgti | Jgta | Je | Jei | Jea => true
    case _ => false
  }

  predicate IsSystemCall(op: Opcode) {
    match op
    case Exit | Sleep | Alloc | FreeMemory | MapSharedMem | AcquireLock | AcquireLockI | ReleaseLock | ReleaseLockI
       | SignalEvent | SignalEventI | WaitEvent | WaitEventI | Input | Inputc => true
    case _ => false
  }

  lemma PlainIsPerformed(c: Ctx, after: Ctx, o: Outcome, s: Space)
    requires CtxOk(c) && CtxOk(after) && SpaceOk(s) && EffectOk(Plain(after, o))
    ensures Perform(Plain(after, o), c, s) == Result(after, s.mem, o)
  {}
}
