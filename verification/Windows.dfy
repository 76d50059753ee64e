/** Which bytes a process may touch, and how every access and every instruction ends accordingly. */
module Windows {
  import opened Basics
  import opened Memory
  import opened Paging
  import opened FrameInvariant
  import opened FlatMemory
  import opened Instructions
  import opened Processor
  import opened FlatInstructions
  import LP = LoadedProgram

  // ---- One byte ------------------------------------------------------------------------------------------------

  /** The code of the process, its data, its heap and its stack (OS.cpp:18-25). */
  predicate Inside(codeSize: nat, va: Word) {
    || 0x1000 <= va < 0x1000 + codeSize
    || 0x4000 <= va < 0x5000
    || 0x5000 <= va < 0x6000
    || 0xE000 <= va < 0xF000
  }

  /** A byte access throws exactly outside these windows, faults on its page exactly where that is not resident, and
      completes exactly where it is; only a completed one changes anything. */
  lemma AccessOutcome(vm: Vm, i: nat, va: Word, b: Byte)
    requires Inv(vm) && i < |vm.pids|
    ensures Shape(vm)
    ensures var r, here := ReadByte(vm.mem, i, vm.sizes[i], va), Entry(vm.mem, i, va / 256).isValid;
      && (r.Error? <==> !Inside(vm.sizes[i], va))
      && (r.Fault? <==> Inside(vm.sizes[i], va) && !here)
      && (r.Done? <==> Inside(vm.sizes[i], va) && here)
      && (r.Fault? ==> r.vpage == va / 256) && (!r.Done? ==> r.mem == vm.mem)
    ensures var r, here := WriteByte(vm.mem, i, vm.sizes[i], va, b), Entry(vm.mem, i, va / 256).isValid;
      && (r.Error? <==> !Inside(vm.sizes[i], va))
      && (r.Fault? <==> Inside(vm.sizes[i], va) && !here)
      && (r.Done? <==> Inside(vm.sizes[i], va) && here)
      && (r.Fault? ==> r.vpage == va / 256) && (!r.Done? ==> r.mem == vm.mem)
  {
    TranslateInv(vm, i, vm.sizes[i], va, false);
    TranslateInv(vm, i, vm.sizes[i], va, true);
  }

  // ---- Several bytes in order -------------------------------------------------------------------------------------

  /** How accesses to these bytes, in this order, end: at the first that is not in a window, or not resident, or at
      none. */
  function Verdict(vm: Vm, i: nat, bytes: seq<Word>): Outcome
    requires Shape(vm) && i < |vm.pids|
  {
    if bytes == [] then Continue
    else if !Inside(vm.sizes[i], bytes[0]) then Crashed
    else if !Resident(vm, i, bytes[0] / PAGE_SIZE) then Faulted(bytes[0] / PAGE_SIZE)
    else Verdict(vm, i, bytes[1..])
  }

  lemma {:induction false} VerdictAppend(vm: Vm, i: nat, a: seq<Word>, b: seq<Word>)
    requires Shape(vm) && i < |vm.pids|
    ensures Verdict(vm, i, a + b) == if Verdict(vm, i, a) == Continue then Verdict(vm, i, b) else Verdict(vm, i, a)
  {
    hide Inside, Resident;
    if a == [] {
      assert a + b == b;
    } else {
      VerdictAppend(vm, i, a[1..], b);
      assert (a + b)[0] == a[0] && (a + b)[1..] == a[1..] + b;
    }
  }

  lemma VerdictOne(vm: Vm, i: nat, x: Word)
    requires Shape(vm) && i < |vm.pids|
    ensures Verdict(vm, i, [x]) == if !Inside(vm.sizes[i], x) then Crashed
                                   else if !Resident(vm, i, x / PAGE_SIZE) then Faulted(x / PAGE_SIZE) else Continue
  {
    hide Inside, Resident;
    assert [x][1..] == [];
  }

  lemma {:induction false} VerdictContinues(vm: Vm, i: nat, bytes: seq<Word>)
    requires Shape(vm) && i < |vm.pids|
    ensures Verdict(vm, i, bytes) == Continue <==>
              forall x | x in bytes :: Inside(vm.sizes[i], x) && Resident(vm, i, x / PAGE_SIZE)
  {
    hide Inside, Resident;
    if bytes != [] { VerdictContinues(vm, i, bytes[1..]); }
  }

  lemma {:induction false} VerdictSame(vm: Vm, v: Vm, i: nat, bytes: seq<Word>)
    requires Shape(vm) && Shape(v) && i < |vm.pids| && i < |v.pids| && v.sizes == vm.sizes && SamePages(vm, v, i)
    ensures Verdict(v, i, bytes) == Verdict(vm, i, bytes)
  {
    hide Inside, Resident;
    if bytes != [] { VerdictSame(vm, v, i, bytes[1..]); }
  }

  /** How an access ends, as the CPU sees it. */
  function Ending<T>(r: Access<T>): Outcome {
    match r
    case Done(_, _) => Continue
    case Fault(_, vp) => Faulted(vp)
    case Error(_) => Crashed
  }

  function WordBytes(va: Word): (bytes: seq<Word>)
    ensures |bytes| == 4
  {
    [va, At(va, 1), At(va, 2), At(va, 3)]
  }

  lemma ReadEnds(vm: Vm, i: nat, va: Word)
    requires Inv(vm) && i < |vm.pids|
    ensures Shape(vm) && Ending(ReadByte(vm.mem, i, vm.sizes[i], va)) == Verdict(vm, i, [va])
  {
    AccessOutcome(vm, i, va, 0);
    hide Inv, ReadByte, WriteByte, Inside;
    VerdictOne(vm, i, va);
  }

  lemma WriteEnds(vm: Vm, i: nat, va: Word, b: Byte)
    requires Inv(vm) && i < |vm.pids|
    ensures Shape(vm) && Ending(WriteByte(vm.mem, i, vm.sizes[i], va, b)) == Verdict(vm, i, [va])
  {
    AccessOutcome(vm, i, va, b);
    hide Inv, ReadByte, WriteByte, Inside;
    VerdictOne(vm, i, va);
  }

  /** A word read ends as its four bytes in order do. */
  lemma Read32Ends(vm: Vm, i: nat, va: Word)
    requires Inv(vm) && i < |vm.pids|
    ensures Shape(vm) && Ending(Read32(SpaceOf(vm, i), va)) == Verdict(vm, i, WordBytes(va))
  {
    hide Inv, ReadByte, Verdict, ByteAt, Resident, At;
    InvShape(vm);
    var n := vm.sizes[i];
    ReadEnds(vm, i, va);
    ReadByteIsFlat(vm, i, va);
    var r0 := ReadByte(vm.mem, i, n, va);
    VerdictAppend(vm, i, [va], [At(va, 1), At(va, 2), At(va, 3)]);
    assert WordBytes(va) == [va] + [At(va, 1), At(va, 2), At(va, 3)];
    if r0.Done? {
      var v0 := vm.(mem := r0.mem);
      ReadEnds(v0, i, At(va, 1));
      VerdictSame(vm, v0, i, [At(va, 1)]);
      ReadByteIsFlat(v0, i, At(va, 1));
      var r1 := ReadByte(v0.mem, i, n, At(va, 1));
      VerdictAppend(vm, i, [At(va, 1)], [At(va, 2), At(va, 3)]);
      assert [At(va, 1), At(va, 2), At(va, 3)] == [At(va, 1)] + [At(va, 2), At(va, 3)];
      if r1.Done? {
        var v1 := vm.(mem := r1.mem);
        SamePagesTwice(vm, v0, v1, i);
        ReadEnds(v1, i, At(va, 2));
        VerdictSame(vm, v1, i, [At(va, 2)]);
        ReadByteIsFlat(v1, i, At(va, 2));
        var r2 := ReadByte(v1.mem, i, n, At(va, 2));
        VerdictAppend(vm, i, [At(va, 2)], [At(va, 3)]);
        assert [At(va, 2), At(va, 3)] == [At(va, 2)] + [At(va, 3)];
        if r2.Done? {
          var v2 := vm.(mem := r2.mem);
          SamePagesTwice(vm, v1, v2, i);
          ReadEnds(v2, i, At(va, 3));
          VerdictSame(vm, v2, i, [At(va, 3)]);
        }
      }
    }
  }

  lemma SamePagesTwice(vm: Vm, v: Vm, w: Vm, i: nat)
    requires SamePages(vm, v, i) && SamePages(v, w, i)
    ensures SamePages(vm, w, i)
  {
    hide Resident;
  }

  /** So does a word write. */
  lemma {:induction false} WriteBytesEnds(vm: Vm, i: nat, va: Word, w: Word, n: nat)
    requires Inv(vm) && i < |vm.pids| && n <= 4
    ensures Shape(vm) && Ending(WriteBytes(SpaceOf(vm, i), va, w, n)) == Verdict(vm, i, WordBytes(va)[..n])
  {
    hide Inv, WriteByte, Verdict, ByteAt, Resident, At, WordByte;
    InvShape(vm);
    if n == 0 {
      assert WordBytes(va)[..0] == [];
      VerdictNone(vm, i);
    } else {
      WriteBytesEnds(vm, i, va, w, n - 1);
      var k := WriteBytesIsFlat(vm, i, va, w, n - 1);
      var r := WriteBytes(SpaceOf(vm, i), va, w, n - 1);
      LP.AtZero(va);
      assert WordBytes(va)[..n] == WordBytes(va)[..n - 1] + [At(va, n - 1)];
      VerdictAppend(vm, i, WordBytes(va)[..n - 1], [At(va, n - 1)]);
      if r.Done? {
        var v := vm.(mem := r.mem);
        WriteEnds(v, i, At(va, n - 1), WordByte(w, n - 1));
        VerdictSame(vm, v, i, [At(va, n - 1)]);
      }
    }
  }

  lemma VerdictNone(vm: Vm, i: nat)
    requires Shape(vm) && i < |vm.pids|
    ensures Verdict(vm, i, []) == Continue
  {}

  lemma Write32Ends(vm: Vm, i: nat, va: Word, w: Word)
    requires Inv(vm) && i < |vm.pids|
    ensures Shape(vm) && Ending(Write32(SpaceOf(vm, i), va, w)) == Verdict(vm, i, WordBytes(va))
  {
    hide Verdict, WriteBytes;
    WriteBytesEnds(vm, i, va, w, 4);
    assert WordBytes(va)[..4] == WordBytes(va);
  }

  // ---- An instruction ------------------------------------------------------------------------------------------------

  function CodeBytes(ip: Word): seq<Word> {
    WordBytes(ip) + (WordBytes(At(ip, 4)) + WordBytes(At(ip, 8)))
  }

  /** The bytes an instruction reads and writes once it is fetched, in order (CPU.cpp:105-257). */
  function DataBytes(c: Ctx, op: Opcode, a: Word, b: Word): seq<Word>
    requires CtxOk(c) && RegsOk(op, a, b)
  {
    match op
    case Movmr => WordBytes(ToWord(c.regs[b]))
    case Movrm => WordBytes(ToWord(c.regs[a]))
    case Movmm => WordBytes(ToWord(c.regs[b])) + WordBytes(ToWord(c.regs[a]))
    case Printm => WordBytes(ToWord(c.regs[a]))
    case Printcm => [ToWord(c.regs[a])]
    case Call | Pushi | Pushr => WordBytes(ToWord(c.sp - 4))
    case Callm => WordBytes(ToWord(c.sp - 4)) + WordBytes(ToWord(c.regs[a]))
    case Ret | Popr => WordBytes(c.sp)
    case Popm => WordBytes(c.sp) + WordBytes(ToWord(c.regs[a]))
    case _ => []
  }

  lemma FetchEnds(vm: Vm, i: nat, ip: Word)
    requires Inv(vm) && i < |vm.pids|
    ensures Shape(vm) && Ending(Fetch(SpaceOf(vm, i), ip)) == Verdict(vm, i, CodeBytes(ip))
    ensures SamePages(vm, vm.(mem := Fetch(SpaceOf(vm, i), ip).mem), i)
  {
    hide Inv, Read32, Verdict, ByteAt, Resident, At, WordBytes;
    InvShape(vm);
    Read32Ends(vm, i, ip);
    Read32IsFlat(vm, i, ip);
    VerdictAppend(vm, i, WordBytes(ip), WordBytes(At(ip, 4)) + WordBytes(At(ip, 8)));
    var r0 := Read32(SpaceOf(vm, i), ip);
    if r0.Done? {
      var v0 := vm.(mem := r0.mem);
      Read32Ends(v0, i, At(ip, 4));
      VerdictSame(vm, v0, i, WordBytes(At(ip, 4)));
      Read32IsFlat(v0, i, At(ip, 4));
      VerdictAppend(vm, i, WordBytes(At(ip, 4)), WordBytes(At(ip, 8)));
      var r1 := Read32(SpaceOf(v0, i), At(ip, 4));
      SamePagesTwice(vm, v0, vm.(mem := r1.mem), i);
      if r1.Done? {
        var v1 := vm.(mem := r1.mem);
        Read32Ends(v1, i, At(ip, 8));
        VerdictSame(vm, v1, i, WordBytes(At(ip, 8)));
        Read32IsFlat(v1, i, At(ip, 8));
        SamePagesTwice(vm, v1, vm.(mem := Read32(SpaceOf(v1, i), At(ip, 8)).mem), i);
      }
    }
  }

  /** An effect ends as its accesses do, and completes or traps where they all complete. */
  ghost predicate EndsAs(o: Outcome, verdict: Outcome) {
    if verdict == Continue then o == Continue || o.Trapped? else o == verdict
  }

  lemma MoveEnds(vm: Vm, i: nat, src: Word, dst: Word, during: Ctx, c: Ctx)
    requires Inv(vm) && i < |vm.pids| && CtxOk(c) && CtxOk(during)
    ensures Shape(vm)
    ensures EndsAs(Perform(Move(src, dst, during), c, SpaceOf(vm, i)).outcome, Verdict(vm, i, WordBytes(src) + WordBytes(dst)))
  {
    hide Inv, Read32, Write32, Verdict, ByteAt, Resident, WordBytes;
    InvShape(vm);
    Read32Ends(vm, i, src);
    Read32IsFlat(vm, i, src);
    VerdictAppend(vm, i, WordBytes(src), WordBytes(dst));
    var r := Read32(SpaceOf(vm, i), src);
    if r.Done? {
      var v := vm.(mem := r.mem);
      Write32Ends(v, i, dst, r.val);
      VerdictSame(vm, v, i, WordBytes(dst));
    }
  }

  lemma StoreThenJumpEnds(vm: Vm, i: nat, addr: Word, val: Word, during: Ctx, target: Word, c: Ctx)
    requires Inv(vm) && i < |vm.pids| && CtxOk(c) && CtxOk(during)
    ensures Shape(vm)
    ensures EndsAs(Perform(StoreThenJump(addr, val, during, target), c, SpaceOf(vm, i)).outcome,
                   Verdict(vm, i, WordBytes(addr) + WordBytes(target)))
  {
    hide Inv, Read32, WriteBytes, Verdict, ByteAt, Resident, WordBytes, Private;
    InvShape(vm);
    Write32Ends(vm, i, addr, val);
    var k := WriteBytesIsFlat(vm, i, addr, val, 4);
    VerdictAppend(vm, i, WordBytes(addr), WordBytes(target));
    var w := Write32(SpaceOf(vm, i), addr, val);
    if w.Done? {
      var v := vm.(mem := w.mem);
      Read32Ends(v, i, target);
      VerdictSame(vm, v, i, WordBytes(target));
    }
  }

  lemma PerformEnds(vm: Vm, i: nat, c: Ctx, op: Opcode, a: Word, b: Word)
    requires Inv(vm) && i < |vm.pids| && CtxOk(c) && RegsOk(op, a, b)
    ensures Shape(vm)
    ensures EndsAs(Perform(EffectOf(c, op, a, b), c, SpaceOf(vm, i)).outcome, Verdict(vm, i, DataBytes(c, op, a, b)))
  {
    hide Inv, Read32, Write32, ReadByte, Verdict, ByteAt, Resident, WordBytes, Used;
    InvShape(vm);
    VerdictNone(vm, i);
    match op
    case Movmr => Read32Ends(vm, i, ToWord(c.regs[b]));
    case Movrm => Write32Ends(vm, i, ToWord(c.regs[a]), ToWord(c.regs[b]));
    case Movmm => MoveEnds(vm, i, ToWord(c.regs[b]), ToWord(c.regs[a]), c, c);
    case Printm => Read32Ends(vm, i, ToWord(c.regs[a]));
    case Printcm => ReadEnds(vm, i, ToWord(c.regs[a]));
    case Call => Write32Ends(vm, i, ToWord(c.sp - 4), c.ip);
    case Pushi => Write32Ends(vm, i, ToWord(c.sp - 4), a);
    case Pushr => Write32Ends(vm, i, ToWord(c.sp - 4), ToWord(c.regs[a]));
    case Callm => StoreThenJumpEnds(vm, i, ToWord(c.sp - 4), c.ip, c.(sp := ToWord(c.sp - 4)), ToWord(c.regs[a]), c);
    case Ret => Read32Ends(vm, i, c.sp);
    case Popr => Read32Ends(vm, i, c.sp);
    case Popm => MoveEnds(vm, i, c.sp, ToWord(c.regs[a]), c.(sp := ToWord(c.sp + 4)), c);
    case _ =>
  }

  /** How a step ends is told by its code bytes, by what they decode to, and by its data bytes: it throws, faults on
      a page, or completes exactly as the first of those bytes that is out of bounds or not resident says. */
  function StepVerdict(vm: Vm, i: nat, c: Ctx): Outcome
    requires Shape(vm) && i < |vm.pids| && CtxOk(c)
  {
    if Verdict(vm, i, CodeBytes(c.ip)) != Continue then Verdict(vm, i, CodeBytes(c.ip))
    else
      var a, b := WordAt(vm, i, At(c.ip, 4)), WordAt(vm, i, At(c.ip, 8));
      match Decode(WordAt(vm, i, c.ip))
      case None => Crashed
      case Some(op) => if RegsOk(op, a, b) then Verdict(vm, i, DataBytes(c, op, a, b)) else Crashed
  }

  lemma StepEnds(vm: Vm, i: nat, c: Ctx)
    requires Inv(vm) && i < |vm.pids| && CtxOk(c)
    ensures Shape(vm) && EndsAs(CpuStep(c, SpaceOf(vm, i)).outcome, StepVerdict(vm, i, c))
  {
    hide Inv, Fetch, Verdict, ByteAt, Resident, Decode, RegsOk, EffectOf, Perform, WordAt, DataBytes, CodeBytes;
    InvShape(vm);
    FetchEnds(vm, i, c.ip);
    FetchIsFlat(vm, i, c.ip);
    var f := Fetch(SpaceOf(vm, i), c.ip);
    if f.Done? && Decode(f.val.0).Some? {
      var op, v, d := Decode(f.val.0).value, vm.(mem := f.mem), c.(ip := At(c.ip, 12));
      if RegsOk(op, f.val.1, f.val.2) {
        PerformEnds(v, i, d, op, f.val.1, f.val.2);
        SameData(c, d, op, f.val.1, f.val.2);
        VerdictSame(vm, v, i, DataBytes(c, op, f.val.1, f.val.2));
      }
    }
  }

  lemma SameData(c: Ctx, d: Ctx, op: Opcode, a: Word, b: Word)
    requires CtxOk(c) && RegsOk(op, a, b) && d == c.(ip := d.ip)
    ensures DataBytes(d, op, a, b) == DataBytes(c, op, a, b)
  {}
}
