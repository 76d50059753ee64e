/** Instructions restarted after page faults. CPU::step restores ip but not sp, and a faulting store
    leaves its first bytes behind: when a retried instruction still acts as one flat instruction. */
module Restart {
  import opened Basics
  import opened Memory
  import opened Paging
  import opened FrameInvariant
  import opened PagingRuns
  import opened FlatMemory
  import opened Instructions
  import opened Processor
  import opened FlatInstructions

  // ---- What a fault leaves ------------------------------------------------------------------------

  /** The attempt changed sp before it faulted: a push or call, or a Popm past its read. */
  predicate MovedSp(c: Ctx, sp: Space)
    requires CtxOk(c) && SpaceOk(sp)
  {
    var f := Fetch(sp, c.ip);
    f.Done? &&
    match Decode(f.val.0)
    case Some(op) =>
      || op.Call? || op.Callm? || op.Pushi? || op.Pushr?
      || (op.Popm? && Read32(sp.(mem := f.mem), c.sp).Done?)
    case None => false
  }

  /** After a fault registers, flags, trap registers and ip are as before; sp is, exactly when the
      instruction had not moved it yet, and else is off by one word. */
  lemma FaultKeeps(c: Ctx, sp: Space)
    requires CtxOk(c) && SpaceOk(sp) && CpuStep(c, sp).outcome.Faulted?
    ensures var r := CpuStep(c, sp).ctx;
      && r == c.(sp := r.sp)
      && (r == c <==> !MovedSp(c, sp))
      && (MovedSp(c, sp) ==> r.sp == ToWord(c.sp - 4) || r.sp == ToWord(c.sp + 4))
  {
    hide Fetch, Read32, Write32, ReadByte;
    assert c == c.(sp := c.sp);
    var f := Fetch(sp, c.ip);
    if f.Done? && Decode(f.val.0).Some? && RegsOk(Decode(f.val.0).value, f.val.1, f.val.2) {
      FaultMoves(c.(ip := At(c.ip, 12)), Decode(f.val.0).value, f.val.1, f.val.2, sp.(mem := f.mem));
    }
  }

  /** Which instructions move sp before their last access. */
  lemma EffectMoves(c: Ctx, op: Opcode, a: Word, b: Word)
    requires CtxOk(c) && RegsOk(op, a, b)
    ensures var e := EffectOf(c, op, a, b);
      if op.Call? || op.Callm? || op.Pushi? || op.Pushr? then
        (e.Store? || e.StoreThenJump?) && e.during == c.(sp := ToWord(c.sp - 4))
      else if op.Popm? then e.Move? && e.src == c.sp && e.during == c.(sp := ToWord(c.sp + 4))
      else e.Store? || e.Move? || e.StoreThenJump? ==> e.during == c
  {
    match op
    case Movrm | Movmm | Call | Callm | Pushi | Pushr | Popm =>
    case _ =>
  }

  lemma FaultMoves(c: Ctx, op: Opcode, a: Word, b: Word, sp: Space)
    requires CtxOk(c) && RegsOk(op, a, b) && SpaceOk(sp)
    requires Perform(EffectOf(c, op, a, b), c, sp).outcome.Faulted?
    ensures var r, e := Perform(EffectOf(c, op, a, b), c, sp).ctx, EffectOf(c, op, a, b);
      r == c.(sp := if op.Call? || op.Callm? || op.Pushi? || op.Pushr? then ToWord(c.sp - 4)
                    else if op.Popm? && Read32(sp, c.sp).Done? then ToWord(c.sp + 4) else c.sp)
  {
    hide Read32, Write32, ReadByte, EffectOf, RegsOk, Used;
    EffectMoves(c, op, a, b);
    assert c == c.(sp := c.sp);
  }

  /** The bytes of a word at va that lie before a page edge, where there is one inside the word. */
  function Early(va: Word): (n: nat)
    ensures n < 4
  {
    if va % PAGE_SIZE > PAGE_SIZE - 4 then PAGE_SIZE - va % PAGE_SIZE else 0
  }

  /** A faulting store wrote nothing, or exactly the bytes before the page edge. */
  lemma StoreLeaves(vm: Vm, i: nat, dst: Word, val: Word) returns (k: nat)
    requires Inv(vm) && i < |vm.pids| && Shape(vm) && Write32(SpaceOf(vm, i), dst, val).Fault?
    ensures k < 4 && (k == 0 || k == Early(dst)) && !Resident(vm, i, At(dst, k) / PAGE_SIZE)
    ensures var v := vm.(mem := Write32(SpaceOf(vm, i), dst, val).mem);
      Shape(v) && forall x: Word | Private(x) :: ByteAt(v, i, x) == Patched(ByteAt(vm, i, x), x, dst, val, k)
  {
    hide Inv, WriteBytes, ByteAt, Resident;
    InvShape(vm);
    k := WriteBytesIsFlat(vm, i, dst, val, 4);
    InvShape(vm.(mem := Write32(SpaceOf(vm, i), dst, val).mem));
    if k > 0 {
      assert Resident(vm, i, At(dst, k - 1) / PAGE_SIZE);
      EdgeAt(dst, k);
    }
  }

  lemma EdgeAt(dst: Word, k: nat)
    requires 0 < k < 4 && At(dst, k - 1) / PAGE_SIZE != At(dst, k) / PAGE_SIZE
    ensures k == Early(dst)
  {}

  // ---- When a retry reads what the first attempt read ----------------------------------------------

  /** The bytes written before the edge inside dst lie outside the instruction at ip. */
  predicate CodeApart(ip: Word, dst: Word) {
    forall n | 0 <= n < 12 :: Off(At(ip, n), dst) >= Early(dst)
  }

  /** The bytes written before the edge inside dst overwrite some of the word at src, and both words
      reach the same pages: the copy goes up by one to three bytes. */
  predicate Rereads(src: Word, dst: Word) {
    0 < Early(dst) && 1 <= Off(dst, src) <= 3 && Off(dst, src) + Early(dst) >= 4
  }

  /** Those of the bytes written before the edge that fall into the instruction at ip are there already. */
  ghost predicate CodeStays(vm: Vm, i: nat, ip: Word, dst: Word, val: Word)
    requires Shape(vm)
  {
    forall n: nat | n < 12 :: Patched(ByteAt(vm, i, At(ip, n)), At(ip, n), dst, val, Early(dst)) == ByteAt(vm, i, At(ip, n))
  }

  /** Whether the instruction can be retried after a fault, whatever memory holds: it does not move sp before its
      last access, and what a fault leaves behind is neither its own code nor its own source. */
  predicate Retryable(e: Effect, c: Ctx) {
    match e
    case Plain(_, _) => true
    case Load(_, _) => true
    case LoadByte(_) => true
    case Store(dst, _, during, _) => during.sp == c.sp && CodeApart(c.ip, dst)
    case Move(src, dst, during) => during.sp == c.sp && CodeApart(c.ip, dst) && !Rereads(src, dst)
    case StoreThenJump(_, _, _, _) => false
  }

  /** Whether it can be retried on this memory, which may also hold in its code what the store leaves there. */
  ghost predicate RetryableHere(e: Effect, c: Ctx, vm: Vm, i: nat)
    requires Shape(vm)
  {
    match e
    case Plain(_, _) => true
    case Load(_, _) => true
    case LoadByte(_) => true
    case Store(dst, val, during, _) => during.sp == c.sp && CodeStays(vm, i, c.ip, dst, val)
    case Move(src, dst, during) => during.sp == c.sp && CodeStays(vm, i, c.ip, dst, WordAt(vm, i, src)) && !Rereads(src, dst)
    case StoreThenJump(_, _, _, _) => false
  }

  lemma RetryableAnywhere(e: Effect, c: Ctx, vm: Vm, i: nat)
    requires Shape(vm) && Retryable(e, c)
    ensures RetryableHere(e, c, vm, i)
  {
    hide ByteAt, WordAt, Rereads, Early;
    if e.Store? {
      ApartStays(vm, i, c.ip, e.addr, e.val);
    } else if e.Move? {
      ApartStays(vm, i, c.ip, e.dst, WordAt(vm, i, e.src));
    }
  }

  lemma ApartStays(vm: Vm, i: nat, ip: Word, dst: Word, val: Word)
    requires Shape(vm) && CodeApart(ip, dst)
    ensures CodeStays(vm, i, ip, dst, val)
  {
    hide ByteAt, Early;
    forall n: nat | n < 12
      ensures Patched(ByteAt(vm, i, At(ip, n)), At(ip, n), dst, val, Early(dst)) == ByteAt(vm, i, At(ip, n))
    {
      assert Off(At(ip, n), dst) >= Early(dst);
    }
  }

  /** If the early bytes at dst reach into the word at src although that copy does not go up by one to
      three bytes, then src shares the page dst faults on. */
  lemma SharedEdge(src: Word, dst: Word, m: nat) returns (n: nat)
    requires m < 4 && Off(At(src, m), dst) < Early(dst) && !Rereads(src, dst)
    ensures n < 4 && At(src, n) == At(dst, Early(dst))
  {
    var k, d := Early(dst), Off(dst, src);
    n := if d <= 3 then d + k else k - (0x1_0000_0000 - d);
  }

  /** v is vm with nothing, or only the early bytes of the store, written. */
  ghost predicate PartWritten(vm: Vm, v: Vm, i: nat, dst: Word, val: Word, k: nat)
    requires Shape(vm) && Shape(v) && k < 4
  {
    (k == 0 || k == Early(dst)) && forall x: Word | Private(x) :: ByteAt(v, i, x) == Patched(ByteAt(vm, i, x), x, dst, val, k)
  }

  lemma MoveLeaves(vm: Vm, i: nat, src: Word, dst: Word) returns (k: nat)
    requires Inv(vm) && i < |vm.pids| && Shape(vm) && PrivateWord(src)
    requires var r := Read32(SpaceOf(vm, i), src);
             r.Done? && Write32(SpaceOf(vm, i).(mem := r.mem), dst, r.val).Fault?
    ensures k < 4 && !Resident(vm, i, At(dst, k) / PAGE_SIZE)
    ensures var r := Read32(SpaceOf(vm, i), src);
      var v := vm.(mem := Write32(SpaceOf(vm, i).(mem := r.mem), dst, r.val).mem);
      && r.val == WordAt(vm, i, src)
      && Shape(v) && PartWritten(vm, v, i, dst, r.val, k)
      && (!Rereads(src, dst) ==> WordAt(v, i, src) == WordAt(vm, i, src))
  {
    hide Inv, Read32, Write32, ByteAt, Resident, Rereads, Patched, Early, At, Private;
    InvShape(vm);
    Read32IsFlat(vm, i, src);
    var r := Read32(SpaceOf(vm, i), src);
    k := StoreLeaves(vm.(mem := r.mem), i, dst, r.val);
    var v := vm.(mem := Write32(SpaceOf(vm, i).(mem := r.mem), dst, r.val).mem);
    if !Rereads(src, dst) {
      SourceKept(vm, v, i, src, dst, r.val, k, 0);
      SourceKept(vm, v, i, src, dst, r.val, k, 1);
      SourceKept(vm, v, i, src, dst, r.val, k, 2);
      SourceKept(vm, v, i, src, dst, r.val, k, 3);
    }
  }

  lemma SourceKept(vm: Vm, v: Vm, i: nat, src: Word, dst: Word, val: Word, k: nat, m: nat)
    requires Shape(vm) && Shape(v) && PrivateWord(src) && k < 4 && m < 4 && !Rereads(src, dst)
    requires forall n | 0 <= n < 4 :: Resident(vm, i, At(src, n) / PAGE_SIZE)
    requires PartWritten(vm, v, i, dst, val, k) && (k > 0 ==> !Resident(vm, i, At(dst, k) / PAGE_SIZE))
    ensures ByteAt(v, i, if m == 0 then src else At(src, m)) == ByteAt(vm, i, if m == 0 then src else At(src, m))
  {
    hide ByteAt, Resident, Rereads, Early, Patched;
    if Off(At(src, m), dst) < k {
      var n := SharedEdge(src, dst, m);
      assert false;
    }
    assert At(src, 0) == src && Private(At(src, m));
    NotPatched(ByteAt(vm, i, At(src, m)), At(src, m), dst, val, k);
  }

  lemma NotPatched(was: Byte, x: Word, dst: Word, val: Word, k: nat)
    requires k <= 4
    ensures Off(x, dst) >= k ==> Patched(was, x, dst, val, k) == was
  {}

  /** The bytes of the instruction at ip are the same in both. */
  ghost predicate SameCode(vm: Vm, v: Vm, i: nat, ip: Word)
    requires Shape(vm) && Shape(v)
  {
    forall n: nat | n < 12 :: ByteAt(v, i, At(ip, n)) == ByteAt(vm, i, At(ip, n))
  }

  predicate PrivateCode(ip: Word) {
    forall n: nat | n < 12 :: Private(At(ip, n))
  }

  lemma PrivateAt(ip: Word, n: nat)
    requires PrivateCode(ip) && n < 12
    ensures Private(At(ip, n))
  {}

  lemma CodeWords(ip: Word)
    requires PrivateWord(ip) && PrivateWord(At(ip, 4)) && PrivateWord(At(ip, 8))
    ensures PrivateCode(ip)
  {
    hide At, Private;
    forall n: nat | n < 12 ensures Private(At(ip, n)) {
      var m := if n < 4 then 0 else if n < 8 then 4 else 8;
      AtAt(ip, m, n - m);
      AtAt(ip, 0, 0);
    }
  }

  lemma AtAt(ip: Word, j: nat, n: nat)
    ensures At(At(ip, j), n) == At(ip, j + n) && At(ip, 0) == ip
  {}

  lemma SameInstr(vm: Vm, v: Vm, i: nat, c: Ctx)
    requires Shape(vm) && Shape(v) && CtxOk(c) && SameCode(vm, v, i, c.ip)
    ensures InstrAt(c, v, i) == InstrAt(c, vm, i)
  {
    hide ByteAt, EffectOf, Decode, RegsOk, At, WordAt;
    SameWord(vm, v, i, c.ip, 0);
    SameWord(vm, v, i, c.ip, 4);
    SameWord(vm, v, i, c.ip, 8);
    AtAt(c.ip, 0, 0);
  }

  lemma SameWord(vm: Vm, v: Vm, i: nat, ip: Word, j: nat)
    requires Shape(vm) && Shape(v) && SameCode(vm, v, i, ip) && j <= 8
    ensures WordAt(v, i, At(ip, j)) == WordAt(vm, i, At(ip, j))
  {
    hide ByteAt, At;
    AtAt(ip, j, 0);
    AtAt(ip, j, 1);
    AtAt(ip, j, 2);
    AtAt(ip, j, 3);
    assert ByteAt(v, i, At(ip, j + 0)) == ByteAt(vm, i, At(ip, j + 0));
  }

  /** A faulting load, or the load of a memory move, changes no byte. */
  lemma LoadLeaves(vm: Vm, i: nat, e: Effect, c: Ctx)
    requires Inv(vm) && i < |vm.pids| && Shape(vm) && CtxOk(c) && EffectOk(e)
    requires e.Load? || e.LoadByte? || (e.Move? && !Read32(SpaceOf(vm, i), e.src).Done? && e.during.sp == c.sp)
    requires Perform(e, c, SpaceOf(vm, i)).outcome.Faulted?
    ensures var r := Perform(e, c, SpaceOf(vm, i)); r.ctx == c && Shape(vm.(mem := r.mem)) && SameBytes(vm, vm.(mem := r.mem), i)
  {
    hide Inv, Read32, Write32, ReadByte, ByteAt, Used, WordAt;
    InvShape(vm);
    match e
    case Load(addr, _) => Read32IsFlat(vm, i, addr);
    case LoadByte(addr) => ReadByteIsFlat(vm, i, addr);
    case Move(src, _, _) => Read32IsFlat(vm, i, src);
  }

  lemma StoreKeepsCode(vm: Vm, i: nat, ip: Word, dst: Word, val: Word)
    requires Inv(vm) && i < |vm.pids| && Shape(vm) && PrivateCode(ip) && CodeStays(vm, i, ip, dst, val)
    requires Write32(SpaceOf(vm, i), dst, val).Fault?
    ensures var v := vm.(mem := Write32(SpaceOf(vm, i), dst, val).mem);
      Shape(v) && SameCode(vm, v, i, ip) && CodeStays(v, i, ip, dst, val)
  {
    hide Inv, Write32, ByteAt, Patched, CodeStays, PrivateCode, SameCode, Early;
    var k := StoreLeaves(vm, i, dst, val);
    CodeKept(vm, vm.(mem := Write32(SpaceOf(vm, i), dst, val).mem), i, ip, dst, val, k);
  }

  lemma MoveKeepsCode(vm: Vm, i: nat, ip: Word, src: Word, dst: Word)
    requires Inv(vm) && i < |vm.pids| && Shape(vm) && PrivateCode(ip) && PrivateWord(src) && !Rereads(src, dst)
    requires CodeStays(vm, i, ip, dst, WordAt(vm, i, src))
    requires var r := Read32(SpaceOf(vm, i), src);
             r.Done? && Write32(SpaceOf(vm, i).(mem := r.mem), dst, r.val).Fault?
    ensures var r := Read32(SpaceOf(vm, i), src);
      var v := vm.(mem := Write32(SpaceOf(vm, i).(mem := r.mem), dst, r.val).mem);
      && Shape(v) && SameCode(vm, v, i, ip) && WordAt(v, i, src) == WordAt(vm, i, src)
      && CodeStays(v, i, ip, dst, WordAt(v, i, src))
  {
    hide Inv, Read32, Write32, ByteAt, Patched, CodeStays, PrivateCode, SameCode, Early, Rereads, WordAt, PrivateWord,
         PartWritten;
    var k := MoveLeaves(vm, i, src, dst);
    var r := Read32(SpaceOf(vm, i), src);
    CodeKept(vm, vm.(mem := Write32(SpaceOf(vm, i).(mem := r.mem), dst, r.val).mem), i, ip, dst, r.val, k);
  }

  /** What a faulting access leaves: the context, the instruction's bytes and its flat result. */
  lemma PerformLeaves(vm: Vm, i: nat, e: Effect, c: Ctx)
    requires Inv(vm) && i < |vm.pids| && Shape(vm) && CtxOk(c) && EffectOk(e) && EffectPrivate(e)
    requires RetryableHere(e, c, vm, i) && PrivateCode(c.ip)
    requires e.Store? || e.Move? ==> e.during == c.(ip := e.during.ip, sp := e.during.sp) && e.during.ip == At(c.ip, 12)
    requires Perform(e, c.(ip := At(c.ip, 12)), SpaceOf(vm, i)).outcome.Faulted?
    ensures var d := c.(ip := At(c.ip, 12)); var r := Perform(e, d, SpaceOf(vm, i)); var v := vm.(mem := r.mem);
      && Shape(v) && r.ctx == d
      && FlatPerform(e, d, v, i) == FlatPerform(e, d, vm, i)
      && SameCode(vm, v, i, c.ip) && RetryableHere(e, c, v, i)
  {
    hide Inv, Read32, Write32, ReadByte, ByteAt, Used, CodeStays, SameCode, SameBytes, PrivateCode, WordAt, PrivateWord,
         Rereads, At;
    var d := c.(ip := At(c.ip, 12));
    if e.Store? {
      StoreKeepsCode(vm, i, c.ip, e.addr, e.val);
    } else if e.Move? && Read32(SpaceOf(vm, i), e.src).Done? {
      MoveKeepsCode(vm, i, c.ip, e.src, e.dst);
    } else {
      LoadLeaves(vm, i, e, d);
      var v := vm.(mem := Perform(e, d, SpaceOf(vm, i)).mem);
      SamePrivate(vm, v, i, e, d);
      RetryableAfter(e, c, vm, v, i);
      BytesCode(vm, v, i, c.ip);
    }
  }

  lemma BytesCode(vm: Vm, v: Vm, i: nat, ip: Word)
    requires Shape(vm) && Shape(v) && SameBytes(vm, v, i) && PrivateCode(ip)
    ensures SameCode(vm, v, i, ip)
  {
    hide ByteAt;
    forall n: nat | n < 12 ensures ByteAt(v, i, At(ip, n)) == ByteAt(vm, i, At(ip, n)) { PrivateAt(ip, n); }
  }

  /** The bytes before the edge leave the instruction's own bytes alone exactly when they are there already. */
  lemma CodeStaysIff(vm: Vm, v: Vm, i: nat, ip: Word, dst: Word, val: Word)
    requires Shape(vm) && Shape(v) && PartWritten(vm, v, i, dst, val, Early(dst)) && PrivateCode(ip)
    ensures SameCode(vm, v, i, ip) <==> CodeStays(vm, i, ip, dst, val)
  {
    hide ByteAt, Early, Patched;
    forall n: nat | n < 12
      ensures ByteAt(v, i, At(ip, n)) == Patched(ByteAt(vm, i, At(ip, n)), At(ip, n), dst, val, Early(dst))
    {
      PrivateAt(ip, n);
    }
  }

  /** A store stopped at the edge leaves the instruction that made it as it was exactly when its early bytes, where
      they fall into that instruction, are there already. */
  lemma StoppedStoreIff(vm: Vm, i: nat, ip: Word, dst: Word, val: Word)
    requires Inv(vm) && i < |vm.pids| && Shape(vm) && PrivateCode(ip)
    requires Write32(SpaceOf(vm, i), dst, val).Fault? && Resident(vm, i, dst / PAGE_SIZE)
    ensures var v := vm.(mem := Write32(SpaceOf(vm, i), dst, val).mem);
      Shape(v) && (SameCode(vm, v, i, ip) <==> CodeStays(vm, i, ip, dst, val))
  {
    hide Inv, Write32, ByteAt, Patched, CodeStays, PrivateCode, SameCode, Early, Resident;
    var k := StoreLeaves(vm, i, dst, val);
    AtAt(dst, 0, 0);
    CodeStaysIff(vm, vm.(mem := Write32(SpaceOf(vm, i), dst, val).mem), i, ip, dst, val);
  }

  lemma CodeKept(vm: Vm, v: Vm, i: nat, ip: Word, dst: Word, val: Word, k: nat)
    requires Shape(vm) && Shape(v) && k < 4 && PartWritten(vm, v, i, dst, val, k)
    requires CodeStays(vm, i, ip, dst, val) && PrivateCode(ip)
    ensures SameCode(vm, v, i, ip) && CodeStays(v, i, ip, dst, val)
  {
    hide ByteAt, Early;
    if k == Early(dst) {
      CodeStaysIff(vm, v, i, ip, dst, val);
    } else {
      forall n: nat | n < 12 ensures ByteAt(v, i, At(ip, n)) == ByteAt(vm, i, At(ip, n)) {
        PrivateAt(ip, n);
        NotPatched(ByteAt(vm, i, At(ip, n)), At(ip, n), dst, val, k);
      }
    }
    StaysAfter(vm, v, i, ip, dst, val);
  }

  lemma StaysAfter(vm: Vm, v: Vm, i: nat, ip: Word, dst: Word, val: Word)
    requires Shape(vm) && Shape(v) && SameCode(vm, v, i, ip) && CodeStays(vm, i, ip, dst, val)
    ensures CodeStays(v, i, ip, dst, val)
  {
    hide ByteAt, Early, Patched;
  }

  lemma RetryableAfter(e: Effect, c: Ctx, v: Vm, w: Vm, i: nat)
    requires Shape(v) && Shape(w) && EffectPrivate(e) && PrivateCode(c.ip) && SameBytes(v, w, i)
    requires RetryableHere(e, c, v, i)
    ensures RetryableHere(e, c, w, i)
  {
    hide ByteAt, Early, CodeStays, WordAt, PrivateWord, Rereads;
    BytesCode(v, w, i, c.ip);
    if e.Store? {
      StaysAfter(v, w, i, c.ip, e.addr, e.val);
    } else if e.Move? {
      SameBytesWord(v, w, i, e.src);
      StaysAfter(v, w, i, c.ip, e.dst, WordAt(v, i, e.src));
    }
  }

  lemma SamePrivate(v: Vm, vm1: Vm, i: nat, e: Effect, c: Ctx)
    requires Shape(v) && Shape(vm1) && CtxOk(c) && EffectOk(e) && EffectPrivate(e)
    requires SameBytes(v, vm1, i)
    ensures FlatPerform(e, c, vm1, i) == FlatPerform(e, c, v, i)
  {
    hide ByteAt, WordAt, WordAfter, PrivateWord, SameBytes, Used, Jump;
    match e
    case Plain(_, _) =>
    case Load(addr, _) => SameBytesWord(v, vm1, i, addr);
    case LoadByte(_) =>
    case Store(_, _, _, _) =>
    case Move(src, _, _) => SameBytesWord(v, vm1, i, src);
    case StoreThenJump(addr, val, _, target) => SameBytesAfter(v, vm1, i, target, addr, val);
  }

  lemma SameBytesWord(v: Vm, w: Vm, i: nat, va: Word)
    requires Shape(v) && Shape(w) && SameBytes(v, w, i) && PrivateWord(va)
    ensures WordAt(w, i, va) == WordAt(v, i, va)
  {
    hide ByteAt, At;
    AtAt(va, 0, 0);
    assert Private(At(va, 0)) && Private(At(va, 1)) && Private(At(va, 2)) && Private(At(va, 3));
  }

  lemma SameBytesAfter(v: Vm, w: Vm, i: nat, va: Word, dst: Word, val: Word)
    requires Shape(v) && Shape(w) && SameBytes(v, w, i) && PrivateWord(va)
    ensures WordAfter(w, i, va, dst, val) == WordAfter(v, i, va, dst, val)
  {
    hide ByteAt, At, Patched;
    AtAt(va, 0, 0);
    assert Private(At(va, 0)) && Private(At(va, 1)) && Private(At(va, 2)) && Private(At(va, 3));
  }

  /** A faulting attempt at a retryable instruction leaves its context and its own bytes alone, and leaves it
      retryable, with the same flat result. */
  lemma FaultKeepsCode(vm: Vm, i: nat, c: Ctx)
    requires Inv(vm) && i < |vm.pids| && CtxOk(c) && Shape(vm) && InstrPrivate(c, vm, i)
    requires InstrAt(c, vm, i).Some? ==> RetryableHere(InstrAt(c, vm, i).value, c, vm, i)
    requires CpuStep(c, SpaceOf(vm, i)).outcome.Faulted?
    ensures var r := CpuStep(c, SpaceOf(vm, i)); var v := vm.(mem := r.mem);
      && r.ctx == c && Shape(v) && SameCode(vm, v, i, c.ip)
      && (InstrAt(c, vm, i).Some? ==>
            var e, d := InstrAt(c, vm, i).value, c.(ip := At(c.ip, 12));
            RetryableHere(e, c, v, i) && FlatPerform(e, d, v, i) == FlatPerform(e, d, vm, i))
  {
    hide Inv, Fetch, ByteAt, Decode, EffectOf, Perform, FlatPerform, RetryableHere, RegsOk;
    FetchIsFlat(vm, i, c.ip);
    CodeWords(c.ip);
    var f := Fetch(SpaceOf(vm, i), c.ip);
    var e, d, w := InstrAt(c, vm, i), c.(ip := At(c.ip, 12)), vm.(mem := f.mem);
    if e.Some? {
      RetryableAfter(e.value, c, vm, w, i);
      SameFlat(vm, w, i, e.value, d);
    }
    if f.Done? {
      DuringKeeps(d, Decode(f.val.0).value, f.val.1, f.val.2);
      PerformLeaves(w, i, e.value, c);
    }
  }

  lemma BetweenAcross(vm: Vm, v: Vm, w: Vm, i: nat, wrote: Option<(Word, Word)>)
    requires Shape(vm) && Shape(v) && Shape(w) && Between(vm, v, i, wrote) && SameBytes(v, w, i)
    ensures Between(vm, w, i, wrote)
  {
    hide ByteAt;
  }

  /** A retry of a retryable instruction meets the instruction it met the first time. */
  lemma RetrySame(vm: Vm, i: nat, c: Ctx, vm1: Vm)
    requires Inv(vm) && i < |vm.pids| && CtxOk(c) && Shape(vm) && InstrPrivate(c, vm, i) && Shape(vm1)
    requires InstrAt(c, vm, i).Some? ==> RetryableHere(InstrAt(c, vm, i).value, c, vm, i)
    requires var r := CpuStep(c, SpaceOf(vm, i));
             r.outcome.Faulted? && Shape(vm.(mem := r.mem)) && SameBytes(vm.(mem := r.mem), vm1, i)
    ensures CpuStep(c, SpaceOf(vm, i)).ctx == c
    ensures InstrAt(c, vm1, i) == InstrAt(c, vm, i) && FlatInstr(c, vm1, i) == FlatInstr(c, vm, i)
    ensures Between(vm, vm1, i, FlatInstr(c, vm, i).wrote)
    ensures InstrAt(c, vm1, i).Some? ==> RetryableHere(InstrAt(c, vm1, i).value, c, vm1, i)
  {
    hide Inv, CpuStep, ByteAt, InstrAt, FlatInstr, FlatPerform, RetryableHere, SameCode;
    StepMatches(vm, i, c);
    FaultKeepsCode(vm, i, c);
    var v := vm.(mem := CpuStep(c, SpaceOf(vm, i)).mem);
    RetryInstr(vm, v, vm1, i, c);
    BetweenAcross(vm, v, vm1, i, FlatInstr(c, vm, i).wrote);
  }

  lemma RetryInstr(vm: Vm, v: Vm, vm1: Vm, i: nat, c: Ctx)
    requires Shape(vm) && Shape(v) && Shape(vm1) && CtxOk(c) && InstrPrivate(c, vm, i)
    requires SameCode(vm, v, i, c.ip) && SameBytes(v, vm1, i)
    requires InstrAt(c, vm, i).Some? ==>
               var e, d := InstrAt(c, vm, i).value, c.(ip := At(c.ip, 12));
               RetryableHere(e, c, v, i) && FlatPerform(e, d, v, i) == FlatPerform(e, d, vm, i)
    ensures InstrAt(c, vm1, i) == InstrAt(c, vm, i) && FlatInstr(c, vm1, i) == FlatInstr(c, vm, i)
    ensures InstrAt(c, vm1, i).Some? ==> RetryableHere(InstrAt(c, vm1, i).value, c, vm1, i)
  {
    hide ByteAt, InstrAt, FlatPerform, RetryableHere;
    CodeWords(c.ip);
    SameInstr(vm, vm1, i, c);
    if InstrAt(c, vm, i).Some? {
      SamePrivate(v, vm1, i, InstrAt(c, vm, i).value, c.(ip := At(c.ip, 12)));
      RetryableAfter(InstrAt(c, vm, i).value, c, v, vm1, i);
    }
  }

  // ---- What happens between a fault and the retry ----------------------------------------------------

  /** Nothing in this run writes, frees or exits on behalf of process i. */
  predicate Quiet(ops: seq<Op>, i: nat) {
    forall op | op in ops :: !((op.Write? || op.FreeHeap? || op.Exit?) && op.proc == i)
  }

  lemma {:induction false} GrabRangeSizes(vm: Vm, i: nat, start: nat, n: nat)
    requires Shape(vm) && i < |vm.pids| && start + n <= |vm.mem.tables[i]| && CanTake(vm)
    ensures GrabRange(vm, i, start, n).sizes == vm.sizes
  {
    hide Grab, CanTake;
    if n > 0 {
      GrabRangeSizes(vm, i, start, n - 1);
      GrabSizes(GrabRange(vm, i, start, n - 1), i, start + n - 1);
    }
  }

  lemma GrabSizes(vm: Vm, i: nat, vp: nat)
    requires Shape(vm) && i < |vm.pids| && vp < |vm.mem.tables[i]| && CanTake(vm)
    ensures Grab(vm, i, vp).sizes == vm.sizes
  {}

  lemma {:induction false} ReleaseRangeSizes(vm: Vm, i: nat, start: nat, n: nat)
    requires Shape(vm) && i < |vm.pids|
    ensures ReleaseRange(vm, i, start, n).sizes == vm.sizes
  {
    if n > 0 { ReleaseRangeSizes(vm, i, start, n - 1); }
  }

  lemma CreateSizes(vm: Vm, code: seq<Byte>)
    requires Shape(vm) && |code| <= 0xE000
    ensures var r := Create(vm, code).0; |r.sizes| >= |vm.sizes| && r.sizes[..|vm.sizes|] == vm.sizes
  {
    hide LoadPages, WriteCode;
    if |code| > 0 {
      LoadPagesEffect(AddProcess(vm, |code|), |vm.pids|, CODE_PAGE, (CODE_BASE + |code| - 1) / PAGE_SIZE - CODE_PAGE + 1);
    }
  }

  /** A process keeps its code size. */
  lemma StepSizes(vm: Vm, op: Op, i: nat)
    requires Shape(vm) && i < |vm.pids|
    ensures i < |Step(vm, op).pids| && Step(vm, op).sizes[i] == vm.sizes[i]
  {
    hide GrabRange, ReleaseRange, FirstFit, Create, TakeFrame, Install;
    if Enabled(vm, op) {
      match op
      case PageFault(j, vp) => PageInSizes(vm, j, vp);
      case AllocHeap(j, n) => AllocSizes(vm, j, n);
      case FreeHeap(j, a) =>
        if a in vm.heaps[j] { ReleaseRangeSizes(vm, j, a / PAGE_SIZE, vm.heaps[j][a]); }
      case Spawn(code) =>
        CreateSizes(vm, code);
        assert Create(vm, code).0.sizes[..|vm.sizes|][i] == vm.sizes[i];
      case _ =>
    }
  }

  lemma AllocSizes(vm: Vm, i: nat, bytes: int)
    requires Shape(vm) && i < |vm.pids| && CanTake(vm)
    ensures Paging.Alloc(vm, i, bytes).0.sizes == vm.sizes
  {
    hide GrabRange, FirstFit;
    var vm1 := vm.(mem := GrowTable(vm.mem, i, HEAP_LAST + 1));
    FirstFitInHeap(vm1, i, PagesNeeded(bytes), HEAP_FIRST);
    var s := FirstFit(vm1, i, PagesNeeded(bytes), HEAP_FIRST);
    if s.Some? && bytes > 0 && PagesNeeded(bytes) <= HEAP_PAGES {
      GrabRangeSizes(vm1, i, s.value, PagesNeeded(bytes));
    }
  }

  /** A safe run of other work leaves the bytes of process i alone. */
  lemma {:induction false} QuietKeepsBytes(vm: Vm, ops: seq<Op>, i: nat)
    requires Inv(vm) && Roomy(vm) && i < |vm.pids| && Shape(vm) && SafeRun(vm, ops) && Quiet(ops, i)
    ensures Inv(Run(vm, ops)) && Roomy(Run(vm, ops)) && i < |Run(vm, ops).pids|
    ensures Run(vm, ops).sizes[i] == vm.sizes[i] && SameBytes(vm, Run(vm, ops), i)
  {
    hide Inv, Step, View, FlatStep, SafeOp;
    if ops != [] {
      var before, op := ops[..|ops| - 1], ops[|ops| - 1];
      assert forall o | o in before :: o in ops;
      QuietKeepsBytes(vm, before, i);
      var v := Run(vm, before);
      StepInv(v, op);
      StepSizes(v, op, i);
      forall x: Word | Private(x) ensures ByteAt(Run(vm, ops), i, x) == ByteAt(vm, i, x) {
        SafeStepIsFlat(v, op, i, x / PAGE_SIZE);
        QuietIsFlat(v, op, i, x / PAGE_SIZE);
        assert ByteAt(v, i, x) == ByteAt(vm, i, x);
      }
    }
  }

  lemma QuietIsFlat(vm: Vm, op: Op, i: nat, q: nat)
    requires Shape(vm) && i < |vm.pids| && !((op.Write? || op.FreeHeap? || op.Exit?) && op.proc == i)
    ensures FlatStep(vm, op, i, q, View(vm, i, q)) == View(vm, i, q)
  {}

  // ---- Atomicity -----------------------------------------------------------------------------------------

  /** The instruction at ip faults once for each gap, the gap being what the OS runs before the retry,
      and completes on the last attempt. */
  ghost predicate Completes(vm: Vm, i: nat, c: Ctx, gaps: seq<seq<Op>>)
    requires Shape(vm) && i < |vm.pids| && CtxOk(c)
    decreases |gaps|
  {
    hide CpuStep;
    var r := CpuStep(c, SpaceOf(vm, i));
    if gaps == [] then r.outcome == Continue || r.outcome.Trapped?
    else
      var v := vm.(mem := r.mem);
      && r.outcome.Faulted? && SafeRun(v, gaps[0]) && Quiet(gaps[0], i) && i < |Run(v, gaps[0]).pids|
      && Completes(Run(v, gaps[0]), i, r.ctx, gaps[1..])
  }

  /** The state after the completing attempt, and its result. */
  ghost function Last(vm: Vm, i: nat, c: Ctx, gaps: seq<seq<Op>>): (r: (Vm, Result))
    requires Shape(vm) && i < |vm.pids| && CtxOk(c) && Completes(vm, i, c, gaps)
    ensures Shape(r.0)
    decreases |gaps|
  {
    hide CpuStep;
    var r := CpuStep(c, SpaceOf(vm, i));
    var v := vm.(mem := r.mem);
    if gaps == [] then (v, r) else Last(Run(v, gaps[0]), i, r.ctx, gaps[1..])
  }

  lemma WriteOver(vm: Vm, v: Vm, r: Vm, i: nat, wrote: Option<(Word, Word)>)
    requires Shape(vm) && Shape(v) && Shape(r) && Between(vm, v, i, wrote) && AllWritten(v, r, i, wrote)
    ensures AllWritten(vm, r, i, wrote)
  {
    hide ByteAt;
  }

  /** A retryable instruction, faulted any number of times with any safe run of other work in between,
      ends as one flat instruction on the memory it first met: same registers, same stored word. */
  lemma {:induction false} RestartIsAtomic(vm: Vm, i: nat, c: Ctx, gaps: seq<seq<Op>>)
    requires Inv(vm) && Roomy(vm) && Shape(vm) && i < |vm.pids| && CtxOk(c)
    requires InstrPrivate(c, vm, i) && Completes(vm, i, c, gaps)
    requires InstrAt(c, vm, i).Some? ==> RetryableHere(InstrAt(c, vm, i).value, c, vm, i)
    ensures var (v, r) := Last(vm, i, c, gaps); var f := FlatInstr(c, vm, i);
      && Inv(v) && r.ctx == f.ctx && r.outcome == f.outcome && AllWritten(vm, v, i, f.wrote)
    decreases |gaps|
  {
    hide Inv, CpuStep, InstrAt, FlatInstr, Run, SafeRun, Quiet, Between, AllWritten, SameBytes, RetryableHere;
    StepMatches(vm, i, c);
    if gaps != [] {
      var v := vm.(mem := CpuStep(c, SpaceOf(vm, i)).mem);
      QuietKeepsBytes(v, gaps[0], i);
      var w := Run(v, gaps[0]);
      RetrySame(vm, i, c, w);
      RestartIsAtomic(w, i, c, gaps[1..]);
      WriteOver(vm, w, Last(vm, i, c, gaps).0, i, FlatInstr(c, vm, i).wrote);
    }
  }

  // ---- What goes wrong otherwise -----------------------------------------------------------------------

  /** The word at dst lies outside the instruction at ip altogether. */
  predicate Clear(ip: Word, dst: Word) {
    forall n | 0 <= n < 12 :: Off(At(ip, n), dst) >= 4
  }

  predicate Pushes(op: Opcode) {
    op.Call? || op.Callm? || op.Pushi? || op.Pushr?
  }

  lemma PatchedCode(vm: Vm, v: Vm, i: nat, ip: Word, dst: Word, val: Word, k: nat)
    requires Shape(vm) && Shape(v) && k <= 4 && Clear(ip, dst) && PrivateCode(ip)
    requires forall x: Word | Private(x) :: ByteAt(v, i, x) == Patched(ByteAt(vm, i, x), x, dst, val, k)
    ensures SameCode(vm, v, i, ip)
  {
    hide ByteAt;
    forall n: nat | n < 12 ensures ByteAt(v, i, At(ip, n)) == ByteAt(vm, i, At(ip, n)) {
      assert Off(At(ip, n), dst) >= k && Private(At(ip, n));
    }
  }

  lemma ClearStore(vm: Vm, i: nat, dst: Word, val: Word, ip: Word)
    requires Inv(vm) && i < |vm.pids| && Shape(vm) && Clear(ip, dst) && PrivateCode(ip)
    ensures var v := vm.(mem := Write32(SpaceOf(vm, i), dst, val).mem); Inv(v) && Shape(v) && SameCode(vm, v, i, ip)
  {
    hide Inv, WriteBytes, ByteAt, Clear, PrivateCode, Patched, Resident, SamePages;
    InvShape(vm);
    var k := WriteBytesIsFlat(vm, i, dst, val, 4);
    PatchedCode(vm, vm.(mem := Write32(SpaceOf(vm, i), dst, val).mem), i, ip, dst, val, k);
  }

  lemma SameCodeAfter(vm: Vm, v: Vm, r: Vm, i: nat, ip: Word)
    requires Shape(vm) && Shape(v) && Shape(r) && SameCode(vm, v, i, ip)
    requires forall x: Word :: ByteAt(r, i, x) == ByteAt(v, i, x)
    ensures SameCode(vm, r, i, ip)
  {
    hide ByteAt;
  }

  lemma PushLeaves(vm: Vm, i: nat, c: Ctx, op: Opcode, a: Word, b: Word, ip: Word)
    requires Inv(vm) && i < |vm.pids| && Shape(vm) && CtxOk(c) && Pushes(op) && RegsOk(op, a, b)
    requires Clear(ip, ToWord(c.sp - 4)) && PrivateCode(ip)
    ensures var r := Perform(EffectOf(c, op, a, b), c, SpaceOf(vm, i));
      && SameCode(vm, vm.(mem := r.mem), i, ip)
      && (r.outcome.Faulted? || r.outcome == Continue ==> r.ctx.sp == ToWord(c.sp - 4))
      && !r.outcome.Trapped?
  {
    hide Inv, Read32, Write32, ByteAt, Clear, PrivateCode, EffectOf, RegsOk, ToWord, SameCode, SamePages;
    var e := EffectOf(c, op, a, b);
    PushEffect(c, op, a, b);
    ClearStore(vm, i, e.addr, e.val, ip);
    var w := Write32(SpaceOf(vm, i), e.addr, e.val);
    if e.StoreThenJump? && w.Done? {
      var v := vm.(mem := w.mem);
      Read32IsFlat(v, i, e.target);
      SameCodeAfter(vm, v, vm.(mem := Read32(SpaceOf(v, i), e.target).mem), i, ip);
    }
  }

  /** Any push or call that moved sp, faulted and completes on its retry ends one word too low: two
      words below where it began. */
  lemma PushSlips(vm: Vm, i: nat, c: Ctx, gap: seq<Op>)
    requires Inv(vm) && Roomy(vm) && Shape(vm) && i < |vm.pids| && CtxOk(c)
    requires PrivateWord(c.ip) && PrivateWord(At(c.ip, 4)) && PrivateWord(At(c.ip, 8))
    requires Decode(WordAt(vm, i, c.ip)).Some? && Pushes(Decode(WordAt(vm, i, c.ip)).value)
    requires Completes(vm, i, c, [gap]) && MovedSp(c, SpaceOf(vm, i))
    requires Clear(c.ip, ToWord(c.sp - 4)) && Clear(c.ip, ToWord(c.sp - 8))
    ensures FlatInstr(c, vm, i).ctx.sp == ToWord(c.sp - 4)
    ensures Last(vm, i, c, [gap]).1.ctx.sp == ToWord(c.sp - 8)
  {
    hide Inv, CpuStep, MovedSp, FlatInstr, Pushes, ByteAt, Decode, Clear, PrivateCode, SafeRun, Run, Quiet, At,
         WordAt;
    CodeWords(c.ip);
    var v, d := PushStep(vm, i, c);
    QuietKeepsBytes(v, gap, i);
    var w := Run(v, gap);
    assert SameCode(vm, w, i, c.ip) by {
      forall n: nat | n < 12 ensures ByteAt(w, i, At(c.ip, n)) == ByteAt(vm, i, At(c.ip, n)) {
        PrivateAt(c.ip, n);
        assert ByteAt(v, i, At(c.ip, n)) == ByteAt(vm, i, At(c.ip, n));
      }
    }
    SameWord(vm, w, i, c.ip, 0);
    AtAt(c.ip, 0, 0);
    var v2, d2 := PushStep(w, i, d);
    FlatPush(vm, i, c);
    assert [gap][1..] == [];
  }

  /** One attempt at a push that gets as far as its write. */
  lemma PushStep(vm: Vm, i: nat, c: Ctx) returns (v: Vm, d: Ctx)
    requires Inv(vm) && Shape(vm) && Roomy(vm) && i < |vm.pids| && CtxOk(c) && PrivateCode(c.ip)
    requires Decode(WordAt(vm, i, c.ip)).Some? && Pushes(Decode(WordAt(vm, i, c.ip)).value)
    requires var r := CpuStep(c, SpaceOf(vm, i));
      (r.outcome.Faulted? && MovedSp(c, SpaceOf(vm, i))) || r.outcome == Continue || r.outcome.Trapped?
    requires Clear(c.ip, ToWord(c.sp - 4))
    ensures var r := CpuStep(c, SpaceOf(vm, i));
      && v == vm.(mem := r.mem) && d == r.ctx && Inv(v) && Shape(v) && Roomy(v)
      && SameCode(vm, v, i, c.ip)
      && d.sp == ToWord(c.sp - 4) && (r.outcome.Faulted? ==> d.ip == c.ip)
  {
    hide Inv, Fetch, ByteAt, Decode, EffectOf, Perform, Clear, PrivateCode, RegsOk;
    var r := CpuStep(c, SpaceOf(vm, i));
    v, d := vm.(mem := r.mem), r.ctx;
    FetchIsFlat(vm, i, c.ip);
    var f := Fetch(SpaceOf(vm, i), c.ip);
    PushLeaves(vm.(mem := f.mem), i, c.(ip := At(c.ip, 12)), Decode(f.val.0).value, f.val.1, f.val.2, c.ip);
    StepInvOnly(vm, i, c);
  }

  /** A step keeps the frame invariant wherever it touches memory. */
  lemma StepInvOnly(vm: Vm, i: nat, c: Ctx)
    requires Inv(vm) && Shape(vm) && i < |vm.pids| && CtxOk(c)
    ensures Inv(vm.(mem := CpuStep(c, SpaceOf(vm, i)).mem))
  {
    hide Inv, Fetch, ByteAt, Decode, EffectOf, RegsOk, Read32, Write32, ReadByte, Used;
    FetchIsFlat(vm, i, c.ip);
    var f := Fetch(SpaceOf(vm, i), c.ip);
    assert vm.(mem := vm.mem) == vm;
    if f.Done? && Decode(f.val.0).Some? && RegsOk(Decode(f.val.0).value, f.val.1, f.val.2) {
      PerformInv(vm.(mem := f.mem), i, EffectOf(c.(ip := At(c.ip, 12)), Decode(f.val.0).value, f.val.1, f.val.2),
                 c.(ip := At(c.ip, 12)));
    }
  }

  lemma PerformInv(vm: Vm, i: nat, e: Effect, c: Ctx)
    requires Inv(vm) && Shape(vm) && i < |vm.pids| && CtxOk(c) && EffectOk(e)
    ensures Inv(vm.(mem := Perform(e, c, SpaceOf(vm, i)).mem))
  {
    hide Inv, Read32, Write32, ReadByte, Used, ByteAt, Between, AllWritten;
    assert vm.(mem := vm.mem) == vm;
    match e
    case Plain(_, _) =>
    case Load(addr, _) => Read32IsFlat(vm, i, addr);
    case LoadByte(addr) => ReadByteIsFlat(vm, i, addr);
    case Store(addr, val, _, _) => StoreMatches(vm, i, addr, val);
    case Move(src, dst, _) =>
      Read32IsFlat(vm, i, src);
      var r := Read32(SpaceOf(vm, i), src);
      if r.Done? { StoreMatches(vm.(mem := r.mem), i, dst, r.val); }
    case StoreThenJump(addr, val, _, target) =>
      StoreMatches(vm, i, addr, val);
      var w := Write32(SpaceOf(vm, i), addr, val);
      if w.Done? { Read32IsFlat(vm.(mem := w.mem), i, target); }
  }

  lemma FlatPush(vm: Vm, i: nat, c: Ctx)
    requires Inv(vm) && Shape(vm) && i < |vm.pids| && CtxOk(c)
    requires Decode(WordAt(vm, i, c.ip)).Some? && Pushes(Decode(WordAt(vm, i, c.ip)).value)
    requires CpuStep(c, SpaceOf(vm, i)).outcome.Faulted? && MovedSp(c, SpaceOf(vm, i))
    ensures FlatInstr(c, vm, i).ctx.sp == ToWord(c.sp - 4)
  {
    hide Inv, Fetch, ByteAt, Decode, Perform, EffectOf, RegsOk, WordAfter, Used;
    FetchIsFlat(vm, i, c.ip);
    var f := Fetch(SpaceOf(vm, i), c.ip);
    PushEffect(c.(ip := At(c.ip, 12)), Decode(f.val.0).value, f.val.1, f.val.2);
  }

  lemma PushEffect(c: Ctx, op: Opcode, a: Word, b: Word)
    requires CtxOk(c) && RegsOk(op, a, b) && Pushes(op)
    ensures var e := EffectOf(c, op, a, b);
      && (e.Store? || e.StoreThenJump?)
      && e.during.sp == e.addr == ToWord(c.sp - 4) && (e.Store? ==> e.after.sp == e.during.sp)
  {}

  lemma PopLeaves(vm: Vm, i: nat, c: Ctx, a: Word, b: Word, ip: Word)
    requires Inv(vm) && i < |vm.pids| && Shape(vm) && CtxOk(c) && RegsOk(Popm, a, b)
    requires Clear(ip, ToWord(c.regs[a])) && PrivateCode(ip)
    ensures var r := Perform(EffectOf(c, Popm, a, b), c, SpaceOf(vm, i));
      && SameCode(vm, vm.(mem := r.mem), i, ip) && !r.outcome.Trapped?
      && (r.outcome == Continue || (r.outcome.Faulted? && Read32(SpaceOf(vm, i), c.sp).Done?) ==>
            r.ctx == c.(sp := ToWord(c.sp + 4)))
  {
    hide Inv, Read32, Write32, ByteAt, Clear, PrivateCode, ToWord, SamePages;
    Read32IsFlat(vm, i, c.sp);
    var r := Read32(SpaceOf(vm, i), c.sp);
    if r.Done? {
      var v := vm.(mem := r.mem);
      ClearStore(v, i, ToWord(c.regs[a]), r.val, ip);
    }
  }

  /** One attempt at a Popm that gets past its read. */
  lemma PopStep(vm: Vm, i: nat, c: Ctx) returns (v: Vm, d: Ctx)
    requires Inv(vm) && Shape(vm) && Roomy(vm) && i < |vm.pids| && CtxOk(c) && PrivateCode(c.ip)
    requires Decode(WordAt(vm, i, c.ip)) == Some(Popm) && IsReg(WordAt(vm, i, At(c.ip, 4)))
    requires var r := CpuStep(c, SpaceOf(vm, i));
      (r.outcome.Faulted? && MovedSp(c, SpaceOf(vm, i))) || r.outcome == Continue || r.outcome.Trapped?
    requires Clear(c.ip, ToWord(c.regs[WordAt(vm, i, At(c.ip, 4))]))
    ensures var r := CpuStep(c, SpaceOf(vm, i));
      && v == vm.(mem := r.mem) && d == r.ctx && Inv(v) && Shape(v) && Roomy(v)
      && SameCode(vm, v, i, c.ip)
      && d.sp == ToWord(c.sp + 4) && (r.outcome.Faulted? ==> d == c.(sp := ToWord(c.sp + 4)))
  {
    hide Inv, Fetch, ByteAt, Decode, Perform, Clear, PrivateCode, EffectOf, Read32, ToWord;
    var r := CpuStep(c, SpaceOf(vm, i));
    v, d := vm.(mem := r.mem), r.ctx;
    FetchIsFlat(vm, i, c.ip);
    var f := Fetch(SpaceOf(vm, i), c.ip);
    PopLeaves(vm.(mem := f.mem), i, c.(ip := At(c.ip, 12)), f.val.1, f.val.2, c.ip);
    StepInvOnly(vm, i, c);
  }

  /** Any Popm that read its word, faulted on its write and completes on its retry ends one word too high: it
      stores the word above the one it should, and pops two. */
  lemma PopSlips(vm: Vm, i: nat, c: Ctx, gap: seq<Op>)
    requires Inv(vm) && Roomy(vm) && Shape(vm) && i < |vm.pids| && CtxOk(c)
    requires PrivateWord(c.ip) && PrivateWord(At(c.ip, 4)) && PrivateWord(At(c.ip, 8))
    requires Decode(WordAt(vm, i, c.ip)) == Some(Popm) && IsReg(WordAt(vm, i, At(c.ip, 4)))
    requires Completes(vm, i, c, [gap]) && MovedSp(c, SpaceOf(vm, i))
    requires Clear(c.ip, ToWord(c.regs[WordAt(vm, i, At(c.ip, 4))]))
    ensures FlatInstr(c, vm, i).ctx.sp == ToWord(c.sp + 4)
    ensures Last(vm, i, c, [gap]).1.ctx.sp == ToWord(c.sp + 8)
  {
    hide Inv, CpuStep, MovedSp, FlatInstr, ByteAt, Decode, Clear, PrivateCode, SafeRun, Run, Quiet, At, WordAt,
         Completes, Last;
    CodeWords(c.ip);
    OneGap(vm, i, c, gap);
    var v, d := PopStep(vm, i, c);
    QuietKeepsBytes(v, gap, i);
    var w := Run(v, gap);
    SameAcross(vm, v, w, i, c.ip);
    SameWord(vm, w, i, c.ip, 0);
    SameWord(vm, w, i, c.ip, 4);
    AtAt(c.ip, 0, 0);
    var v2, d2 := PopStep(w, i, d);
    FlatPop(vm, i, c);
  }

  lemma FlatPop(vm: Vm, i: nat, c: Ctx)
    requires Inv(vm) && Shape(vm) && i < |vm.pids| && CtxOk(c)
    requires Decode(WordAt(vm, i, c.ip)) == Some(Popm) && IsReg(WordAt(vm, i, At(c.ip, 4)))
    ensures FlatInstr(c, vm, i).ctx.sp == ToWord(c.sp + 4)
  {
    hide Inv, ByteAt, Decode, WordAt;
  }

  /** The word at src repeats itself at distance d. */
  ghost predicate Repeats(vm: Vm, i: nat, src: Word, d: nat)
    requires Shape(vm)
  {
    forall m: nat | d <= m < 4 :: ByteAt(vm, i, At(src, m)) == ByteAt(vm, i, At(src, m - d))
  }

  lemma BytesRoundTrip(b0: Byte, b1: Byte, b2: Byte, b3: Byte)
    ensures var w := FromBytes(b0, b1, b2, b3);
      WordByte(w, 0) == b0 && WordByte(w, 1) == b1 && WordByte(w, 2) == b2 && WordByte(w, 3) == b3
  {
    var w := FromBytes(b0, b1, b2, b3);
    assert w == b0 + 0x100 * (b1 + 0x100 * b2 + 0x1_0000 * b3);
    assert w == (b0 + 0x100 * b1) + 0x1_0000 * (b2 + 0x100 * b3);
    assert w == (b0 + 0x100 * b1 + 0x1_0000 * b2) + 0x100_0000 * b3;
    assert w / 0x100 == b1 + 0x100 * (b2 + 0x100 * b3);
  }

  lemma WordBytes(vm: Vm, i: nat, va: Word, m: nat)
    requires Shape(vm) && m < 4
    ensures WordByte(WordAt(vm, i, va), m) == ByteAt(vm, i, At(va, m))
  {
    hide ByteAt, FromBytes, WordByte;
    AtAt(va, 0, 0);
    BytesRoundTrip(ByteAt(vm, i, va), ByteAt(vm, i, At(va, 1)), ByteAt(vm, i, At(va, 2)), ByteAt(vm, i, At(va, 3)));
  }

  /** Where the early bytes of an upward copy by d put the start of the source into the source. */
  lemma OffWithin(src: Word, dst: Word, m: nat)
    requires Rereads(src, dst) && m < 4
    ensures var d := Off(dst, src);
      if m >= d then Off(At(src, m), dst) == m - d < Early(dst) else Off(At(src, m), dst) >= 4
  {}

  /** After the early bytes, the source reads as before exactly when it repeats at the copy's distance. */
  lemma RereadWord(vm: Vm, v: Vm, i: nat, src: Word, dst: Word)
    requires Shape(vm) && Shape(v) && PrivateWord(src) && Rereads(src, dst)
    requires PartWritten(vm, v, i, dst, WordAt(vm, i, src), Early(dst))
    ensures WordAt(v, i, src) == WordAt(vm, i, src) <==> Repeats(vm, i, src, Off(dst, src))
  {
    hide ByteAt, WordAt, Rereads, Early, Off, WordByte, At;
    var w, d := WordAt(vm, i, src), Off(dst, src);
    assert 1 <= d <= 3 by { OffRange(src, dst); }
    forall m: nat | m < 4
      ensures ByteAt(v, i, At(src, m)) == if m >= d then ByteAt(vm, i, At(src, m - d)) else ByteAt(vm, i, At(src, m))
    {
      OffWithin(src, dst, m);
      assert Private(At(src, m));
      if m >= d { WordBytes(vm, i, src, m - d); }
    }
    SameWordIff(vm, v, i, src);
    if WordAt(v, i, src) == w {
      forall m: nat | d <= m < 4 ensures ByteAt(vm, i, At(src, m)) == ByteAt(vm, i, At(src, m - d)) {
        assert ByteAt(v, i, At(src, m)) == ByteAt(vm, i, At(src, m));
      }
    } else {
      var m: nat :| m < 4 && ByteAt(v, i, At(src, m)) != ByteAt(vm, i, At(src, m));
      assert m >= d && ByteAt(vm, i, At(src, m)) != ByteAt(vm, i, At(src, m - d));
    }
  }

  lemma OffRange(src: Word, dst: Word)
    requires Rereads(src, dst)
    ensures 1 <= Off(dst, src) <= 3
  {}

  lemma SameWordIff(vm: Vm, v: Vm, i: nat, va: Word)
    requires Shape(vm) && Shape(v)
    ensures WordAt(v, i, va) == WordAt(vm, i, va) <==>
            forall m: nat | m < 4 :: ByteAt(v, i, At(va, m)) == ByteAt(vm, i, At(va, m))
  {
    hide ByteAt, WordByte, At;
    AtAt(va, 0, 0);
    forall m: nat | m < 4
      ensures WordByte(WordAt(v, i, va), m) == ByteAt(v, i, At(va, m))
      ensures WordByte(WordAt(vm, i, va), m) == ByteAt(vm, i, At(va, m))
    {
      WordBytes(v, i, va, m);
      WordBytes(vm, i, va, m);
    }
  }

  /** Two words stored at dst give the same bytes only if they are equal. */
  lemma StoredWord(vm: Vm, v: Vm, r: Vm, i: nat, dst: Word, w: Word, w': Word)
    requires Shape(vm) && Shape(v) && Shape(r) && PrivateWord(dst)
    requires Between(vm, v, i, Some((dst, w))) && AllWritten(v, r, i, Some((dst, w')))
    ensures AllWritten(vm, r, i, Some((dst, w))) <==> w == w'
  {
    hide ByteAt, WordByte;
    if w == w' {
      WriteOver(vm, v, r, i, Some((dst, w)));
    } else {
      WordRoundTrip(w);
      WordRoundTrip(w');
      var m: nat :| m < 4 && WordByte(w, m) != WordByte(w', m);
      assert Private(At(dst, m)) && Off(At(dst, m), dst) == m;
      assert ByteAt(r, i, At(dst, m)) == WordByte(w', m);
    }
  }

  /** A Movmm copying upwards by less than a word across a page edge, stopped at the edge: its retry
      stores the right word if and only if the source word repeats at the distance of the copy. */
  lemma RereadIffRepeats(vm: Vm, i: nat, c: Ctx, gap: seq<Op>)
    requires Inv(vm) && Roomy(vm) && Shape(vm) && i < |vm.pids| && CtxOk(c)
    requires InstrPrivate(c, vm, i) && Completes(vm, i, c, [gap])
    requires InstrAt(c, vm, i).Some? && InstrAt(c, vm, i).value.Move? && InstrAt(c, vm, i).value.during.sp == c.sp
    requires var e := InstrAt(c, vm, i).value; Rereads(e.src, e.dst) && Clear(c.ip, e.dst)
    requires var e, f := InstrAt(c, vm, i).value, Fetch(SpaceOf(vm, i), c.ip);
      f.Done? && Read32(SpaceOf(vm, i).(mem := f.mem), e.src).Done? && Resident(vm, i, e.dst / PAGE_SIZE)
    ensures var e := InstrAt(c, vm, i).value;
      AllWritten(vm, Last(vm, i, c, [gap]).0, i, FlatInstr(c, vm, i).wrote) <==>
      Repeats(vm, i, e.src, Off(e.dst, e.src))
  {
    hide Inv, CpuStep, InstrAt, FlatInstr, Run, SafeRun, Quiet, ByteAt, Rereads, Clear, Off, Repeats, WordAt,
         Completes, Last, Fetch, Read32, Resident, AllWritten, Between;
    var e := InstrAt(c, vm, i).value;
    var v := vm.(mem := CpuStep(c, SpaceOf(vm, i)).mem);
    OneGap(vm, i, c, gap);
    StepMatches(vm, i, c);
    QuietKeepsBytes(v, gap, i);
    var w := Run(v, gap);
    MoveStep(vm, i, c);
    CodeWords(c.ip);
    SameAcross(vm, v, w, i, c.ip);
    SameInstr(vm, w, i, c);
    MoveFlat(vm, i, c);
    MoveFlat(w, i, c);
    StepMatches(w, i, c);
    RereadWord(vm, v, i, e.src, e.dst);
    SameBytesWord(v, w, i, e.src);
    BetweenAcross(vm, v, w, i, FlatInstr(c, vm, i).wrote);
    StoredWord(vm, w, Last(vm, i, c, [gap]).0, i, e.dst, WordAt(vm, i, e.src), WordAt(w, i, e.src));
  }

  lemma SameAcross(vm: Vm, v: Vm, w: Vm, i: nat, ip: Word)
    requires Shape(vm) && Shape(v) && Shape(w) && SameCode(vm, v, i, ip) && SameBytes(v, w, i) && PrivateCode(ip)
    ensures SameCode(vm, w, i, ip)
  {
    hide ByteAt, At;
    forall n: nat | n < 12 ensures ByteAt(w, i, At(ip, n)) == ByteAt(vm, i, At(ip, n)) { assert Private(At(ip, n)); }
  }

  lemma OneGap(vm: Vm, i: nat, c: Ctx, gap: seq<Op>)
    requires Shape(vm) && i < |vm.pids| && CtxOk(c) && Completes(vm, i, c, [gap])
    ensures var r := CpuStep(c, SpaceOf(vm, i)); var v := vm.(mem := r.mem);
      && r.outcome.Faulted? && Shape(v) && SafeRun(v, gap) && Quiet(gap, i) && i < |Run(v, gap).pids|
      && var q := CpuStep(r.ctx, SpaceOf(Run(v, gap), i));
      && (q.outcome == Continue || q.outcome.Trapped?)
      && Last(vm, i, c, [gap]) == (Run(v, gap).(mem := q.mem), q)
  {
    hide CpuStep, Run, SafeRun, Quiet;
    assert [gap][1..] == [];
  }

  lemma MoveFlat(vm: Vm, i: nat, c: Ctx)
    requires Shape(vm) && CtxOk(c) && InstrAt(c, vm, i).Some? && InstrAt(c, vm, i).value.Move?
    ensures var e := InstrAt(c, vm, i).value; FlatInstr(c, vm, i).wrote == Some((e.dst, WordAt(vm, i, e.src)))
  {
    hide InstrAt, WordAt;
  }

  /** The faulting first attempt of such a Movmm. */
  lemma MoveStep(vm: Vm, i: nat, c: Ctx)
    requires Inv(vm) && Shape(vm) && i < |vm.pids| && CtxOk(c) && InstrPrivate(c, vm, i)
    requires InstrAt(c, vm, i).Some? && InstrAt(c, vm, i).value.Move? && InstrAt(c, vm, i).value.during.sp == c.sp
    requires CpuStep(c, SpaceOf(vm, i)).outcome.Faulted? && Clear(c.ip, InstrAt(c, vm, i).value.dst)
    requires var e, f := InstrAt(c, vm, i).value, Fetch(SpaceOf(vm, i), c.ip);
      f.Done? && Read32(SpaceOf(vm, i).(mem := f.mem), e.src).Done? && Resident(vm, i, e.dst / PAGE_SIZE)
    ensures var e, r := InstrAt(c, vm, i).value, CpuStep(c, SpaceOf(vm, i)); var v := vm.(mem := r.mem);
      && r.ctx == c && Shape(v) && SameCode(vm, v, i, c.ip)
      && PartWritten(vm, v, i, e.dst, WordAt(vm, i, e.src), Early(e.dst))
  {
    hide Inv, Fetch, Read32, Write32, ByteAt, Decode, EffectOf, RegsOk, Resident, Clear, Patched, Early, Rereads;
    FetchIsFlat(vm, i, c.ip);
    FetchPages(vm, i, c.ip);
    CodeWords(c.ip);
    var e, f, d := InstrAt(c, vm, i).value, Fetch(SpaceOf(vm, i), c.ip), c.(ip := At(c.ip, 12));
    var w := vm.(mem := f.mem);
    DuringKeeps(d, Decode(f.val.0).value, f.val.1, f.val.2);
    var k := MoveLeaves(w, i, e.src, e.dst);
    AtAt(e.dst, 0, 0);
    assert Resident(w, i, e.dst / PAGE_SIZE);
    assert k == Early(e.dst);
    var v := vm.(mem := CpuStep(c, SpaceOf(vm, i)).mem);
    SameFlat(vm, w, i, e, d);
    SameWordAfter(vm, w, i, e.src);
    PatchedCode(w, v, i, c.ip, e.dst, WordAt(w, i, e.src), k);
  }

  lemma SameWordAfter(vm: Vm, w: Vm, i: nat, va: Word)
    requires Shape(vm) && Shape(w) && forall x: Word :: ByteAt(w, i, x) == ByteAt(vm, i, x)
    ensures WordAt(w, i, va) == WordAt(vm, i, va)
  {
    hide ByteAt;
  }

  lemma FetchPages(vm: Vm, i: nat, ip: Word)
    requires Inv(vm) && Shape(vm) && i < |vm.pids|
    ensures SamePages(vm, vm.(mem := Fetch(SpaceOf(vm, i), ip).mem), i)
  {
    hide Inv, Read32, ByteAt, Resident;
    Read32IsFlat(vm, i, ip);
    var r0 := Read32(SpaceOf(vm, i), ip);
    if r0.Done? {
      var v0 := vm.(mem := r0.mem);
      Read32IsFlat(v0, i, At(ip, 4));
      var r1 := Read32(SpaceOf(v0, i), At(ip, 4));
      if r1.Done? {
        Read32IsFlat(vm.(mem := r1.mem), i, At(ip, 8));
      }
    }
  }
}
