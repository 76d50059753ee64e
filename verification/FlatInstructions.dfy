/** Instructions on paged memory against instructions on one flat byte array: what one attempt at an
    instruction does, complete or cut short by a page fault. */
module FlatInstructions {
  import opened Basics
  import opened Memory
  import opened Paging
  import opened FrameInvariant
  import opened FlatMemory
  import opened Instructions
  import opened Processor

  // ---- Flat memory of one process ------------------------------------------------------------------

  function SpaceOf(vm: Vm, i: nat): Space
    requires Shape(vm) && i < |vm.pids|
  {
    Space(vm.mem, i, vm.sizes[i])
  }

  predicate Private(x: Word) {
    !InSharedWindow(x / PAGE_SIZE)
  }

  predicate PrivateWord(va: Word) {
    forall k | 0 <= k < 4 :: Private(At(va, k))
  }

  function ByteAt(vm: Vm, i: nat, x: Word): Byte
    requires Shape(vm)
  {
    View(vm, i, x / PAGE_SIZE)[x % PAGE_SIZE]
  }

  /** How far x lies above d, around the 32-bit address space. */
  function Off(x: Word, d: Word): Word {
    ToWord(x - d)
  }

  /** The byte at x once the first n bytes of w are written at d. */
  function Patched(was: Byte, x: Word, d: Word, w: Word, n: nat): Byte
    requires n <= 4
  {
    if Off(x, d) < n then WordByte(w, Off(x, d)) else was
  }

  function WordAt(vm: Vm, i: nat, va: Word): Word
    requires Shape(vm)
  {
    FromBytes(ByteAt(vm, i, va), ByteAt(vm, i, At(va, 1)), ByteAt(vm, i, At(va, 2)), ByteAt(vm, i, At(va, 3)))
  }

  // ---- Paged accesses do what flat accesses do --------------------------------------------------------

  ghost predicate SameBytes(vm: Vm, r: Vm, i: nat)
    requires Shape(vm) && Shape(r)
  {
    forall x: Word | Private(x) :: ByteAt(r, i, x) == ByteAt(vm, i, x)
  }

  ghost predicate SamePages(vm: Vm, r: Vm, i: nat) {
    forall q: nat :: Resident(r, i, q) == Resident(vm, i, q)
  }

  predicate Resident(vm: Vm, i: nat, q: nat) {
    Entry(vm.mem, i, q).isValid
  }

  lemma ReadByteIsFlat(vm: Vm, i: nat, va: Word)
    requires Inv(vm) && i < |vm.pids|
    ensures var r := ReadByte(vm.mem, i, vm.sizes[i], va); var v := vm.(mem := r.mem);
      && Inv(v) && SamePages(vm, v, i) && (r.Done? ==> Resident(vm, i, va / PAGE_SIZE))
      && (forall x: Word :: ByteAt(v, i, x) == ByteAt(vm, i, x))
      && (r.Done? ==> r.val == ByteAt(vm, i, va))
  {
    var r := ReadByte(vm.mem, i, vm.sizes[i], va);
    TranslateInv(vm, i, vm.sizes[i], va, false);
    ReadView(vm, i, vm.sizes[i], va, i, 0);
    forall x: Word ensures ByteAt(vm.(mem := r.mem), i, x) == ByteAt(vm, i, x) {
      ReadView(vm, i, vm.sizes[i], va, i, x / PAGE_SIZE);
    }
  }

  lemma Read32IsFlat(vm: Vm, i: nat, va: Word)
    requires Inv(vm) && i < |vm.pids|
    ensures Shape(vm)
    ensures var r := Read32(SpaceOf(vm, i), va); var v := vm.(mem := r.mem);
      && Inv(v) && SamePages(vm, v, i) && (r.Done? ==> forall k | 0 <= k < 4 :: Resident(vm, i, At(va, k) / PAGE_SIZE))
      && (forall x: Word :: ByteAt(v, i, x) == ByteAt(vm, i, x))
      && (r.Done? ==> r.val == WordAt(vm, i, va))
  {
    hide Inv, ReadByte, ByteAt, Resident;
    InvShape(vm);
    assert At(va, 0) == va;
    ReadByteIsFlat(vm, i, va);
    var r0 := ReadByte(vm.mem, i, vm.sizes[i], va);
    if r0.Done? {
      var v0 := vm.(mem := r0.mem);
      ReadByteIsFlat(v0, i, At(va, 1));
      var r1 := ReadByte(v0.mem, i, vm.sizes[i], At(va, 1));
      if r1.Done? {
        var v1 := vm.(mem := r1.mem);
        ReadByteIsFlat(v1, i, At(va, 2));
        var r2 := ReadByte(v1.mem, i, vm.sizes[i], At(va, 2));
        if r2.Done? {
          ReadByteIsFlat(vm.(mem := r2.mem), i, At(va, 3));
        }
      }
    }
  }

  /** A word write that faults has written its bytes up to the first page that is not resident. */
  lemma {:induction false} WriteBytesIsFlat(vm: Vm, i: nat, va: Word, w: Word, n: nat) returns (k: nat)
    requires Inv(vm) && i < |vm.pids| && n <= 4
    ensures k <= n && Shape(vm)
    ensures var r := WriteBytes(SpaceOf(vm, i), va, w, n); var v := vm.(mem := r.mem);
      && Inv(v) && SamePages(vm, v, i) && (r.Done? <==> k == n)
      && (forall j | 0 <= j < k :: Resident(vm, i, At(va, j) / PAGE_SIZE))
      && (r.Fault? ==> !Resident(vm, i, At(va, k) / PAGE_SIZE))
      && (forall x: Word :: ByteAt(v, i, x) == Patched(ByteAt(vm, i, x), x, va, w, k))
  {
    hide Inv, WriteByte, ByteAt, Resident, WordByte;
    InvShape(vm);
    if n == 0 {
      k := 0;
      assert vm.(mem := vm.mem) == vm;
    } else {
      k := WriteBytesIsFlat(vm, i, va, w, n - 1);
      var r := WriteBytes(SpaceOf(vm, i), va, w, n - 1);
      var v := vm.(mem := r.mem);
      if r.Done? {
        WriteOneIsFlat(v, i, At(va, n - 1), WordByte(w, n - 1));
        if WriteByte(v.mem, i, vm.sizes[i], At(va, n - 1), WordByte(w, n - 1)).Done? {
          k := n;
          PatchGrows(vm, v, vm.(mem := WriteBytes(SpaceOf(vm, i), va, w, n).mem), i, va, w, n);
        }
      }
    }
  }

  lemma PatchGrows(vm: Vm, v: Vm, r: Vm, i: nat, va: Word, w: Word, n: nat)
    requires Shape(vm) && Shape(v) && Shape(r) && 0 < n <= 4
    requires forall x: Word :: ByteAt(v, i, x) == Patched(ByteAt(vm, i, x), x, va, w, n - 1)
    requires forall x: Word :: ByteAt(r, i, x) == if x == At(va, n - 1) then WordByte(w, n - 1) else ByteAt(v, i, x)
    ensures forall x: Word :: ByteAt(r, i, x) == Patched(ByteAt(vm, i, x), x, va, w, n)
  {
    hide ByteAt;
    forall x: Word ensures x == At(va, n - 1) <==> Off(x, va) == n - 1 {}
  }

  lemma WriteOneIsFlat(vm: Vm, i: nat, va: Word, b: Byte)
    requires Inv(vm) && i < |vm.pids|
    ensures var r := WriteByte(vm.mem, i, vm.sizes[i], va, b); var v := vm.(mem := r.mem);
      && Inv(v) && SamePages(vm, v, i)
      && (r.Done? ==> Resident(vm, i, va / PAGE_SIZE)) && (r.Fault? ==> !Resident(vm, i, va / PAGE_SIZE))
      && (forall x: Word :: ByteAt(v, i, x) == if r.Done? && x == va then b else ByteAt(vm, i, x))
  {
    WriteInv(vm, i, vm.sizes[i], va, b);
    WriteEffect(vm.mem, i, vm.sizes[i], va, b);
    var r := WriteByte(vm.mem, i, vm.sizes[i], va, b);
    forall x: Word ensures ByteAt(vm.(mem := r.mem), i, x) == if r.Done? && x == va then b else ByteAt(vm, i, x) {
      OwnWriteView(vm, i, vm.sizes[i], va, b, x / PAGE_SIZE);
    }
  }

  lemma FetchIsFlat(vm: Vm, i: nat, ip: Word)
    requires Inv(vm) && i < |vm.pids|
    ensures Shape(vm)
    ensures var r := Fetch(SpaceOf(vm, i), ip); var v := vm.(mem := r.mem);
      && Inv(v) && (forall x: Word :: ByteAt(v, i, x) == ByteAt(vm, i, x))
      && (r.Done? ==> r.val == (WordAt(vm, i, ip), WordAt(vm, i, At(ip, 4)), WordAt(vm, i, At(ip, 8))))
  {
    hide Inv, Read32, ByteAt;
    InvShape(vm);
    Read32IsFlat(vm, i, ip);
    var r0 := Read32(SpaceOf(vm, i), ip);
    if r0.Done? {
      var v0 := vm.(mem := r0.mem);
      Read32IsFlat(v0, i, At(ip, 4));
      var r1 := Read32(SpaceOf(v0, i), At(ip, 4));
      if r1.Done? {
        Read32IsFlat(vm.(mem := r1.mem), i, At(ip, 8));
      }
    }
  }

  // ---- One instruction on flat memory ------------------------------------------------------------------

  /** What an instruction does in one go: the new context, how it ends, and the word it stores, if any. */
  datatype FlatResult = FlatResult(ctx: Ctx, outcome: Outcome, wrote: Option<(Word, Word)>)

  /** The word at va once val is stored at dst. */
  function WordAfter(vm: Vm, i: nat, va: Word, dst: Word, val: Word): Word
    requires Shape(vm)
  {
    FromBytes(Patched(ByteAt(vm, i, va), va, dst, val, 4), Patched(ByteAt(vm, i, At(va, 1)), At(va, 1), dst, val, 4),
              Patched(ByteAt(vm, i, At(va, 2)), At(va, 2), dst, val, 4), Patched(ByteAt(vm, i, At(va, 3)), At(va, 3), dst, val, 4))
  }

  function FlatPerform(e: Effect, c: Ctx, vm: Vm, i: nat): FlatResult
    requires CtxOk(c) && EffectOk(e) && Shape(vm)
  {
    match e
    case Plain(after, outcome) => FlatResult(after, outcome, None)
    case Load(addr, use) => FlatResult(Used(c, use, WordAt(vm, i, addr)), Continue, None)
    case LoadByte(addr) => FlatResult(c, Continue, None)
    case Store(addr, val, during, after) => FlatResult(after, Continue, Some((addr, val)))
    case Move(src, dst, during) => FlatResult(during, Continue, Some((dst, WordAt(vm, i, src))))
    case StoreThenJump(addr, val, during, target) =>
      FlatResult(Jump(during, ToInt32(WordAfter(vm, i, target, addr, val))), Continue, Some((addr, val)))
  }

  /** The instruction at ip, if it decodes and its registers pass. */
  function InstrAt(c: Ctx, vm: Vm, i: nat): (r: Option<Effect>)
    requires CtxOk(c) && Shape(vm)
    ensures r.Some? ==> EffectOk(r.value)
  {
    hide EffectOf, WordAt;
    var a, b := WordAt(vm, i, At(c.ip, 4)), WordAt(vm, i, At(c.ip, 8));
    match Decode(WordAt(vm, i, c.ip))
    case None => None
    case Some(op) => if RegsOk(op, a, b) then Some(EffectOf(c.(ip := At(c.ip, 12)), op, a, b)) else None
  }

  function FlatInstr(c: Ctx, vm: Vm, i: nat): FlatResult
    requires CtxOk(c) && Shape(vm)
  {
    var d := c.(ip := At(c.ip, 12));
    match InstrAt(c, vm, i)
    case None => FlatResult(d, Crashed, None)
    case Some(e) => FlatPerform(e, d, vm, i)
  }

  predicate EffectPrivate(e: Effect) {
    match e
    case Plain(_, _) => true
    case Load(addr, _) => PrivateWord(addr)
    case LoadByte(addr) => Private(addr)
    case Store(addr, _, _, _) => PrivateWord(addr)
    case Move(src, dst, _) => PrivateWord(src) && PrivateWord(dst)
    case StoreThenJump(addr, _, _, target) => PrivateWord(addr) && PrivateWord(target)
  }

  /** The instruction lies in and touches private pages only. */
  predicate InstrPrivate(c: Ctx, vm: Vm, i: nat)
    requires CtxOk(c) && Shape(vm)
  {
    && PrivateWord(c.ip) && PrivateWord(At(c.ip, 4)) && PrivateWord(At(c.ip, 8))
    && (InstrAt(c, vm, i).Some? ==> EffectPrivate(InstrAt(c, vm, i).value))
  }

  function WroteByte(was: Byte, x: Word, wrote: Option<(Word, Word)>): Byte {
    match wrote
    case None => was
    case Some((dst, val)) => Patched(was, x, dst, val, 4)
  }

  /** Every private byte of r is the byte of vm or the one the store leaves there. */
  ghost predicate Between(vm: Vm, r: Vm, i: nat, wrote: Option<(Word, Word)>)
    requires Shape(vm) && Shape(r)
  {
    forall x: Word | Private(x) ::
      ByteAt(r, i, x) == ByteAt(vm, i, x) || ByteAt(r, i, x) == WroteByte(ByteAt(vm, i, x), x, wrote)
  }

  ghost predicate AllWritten(vm: Vm, r: Vm, i: nat, wrote: Option<(Word, Word)>)
    requires Shape(vm) && Shape(r)
  {
    forall x: Word | Private(x) :: ByteAt(r, i, x) == WroteByte(ByteAt(vm, i, x), x, wrote)
  }

  /** How one attempt relates to the flat instruction: complete, or a fault part way. */
  ghost predicate Matches(vm: Vm, i: nat, r: Result, c: Ctx, f: FlatResult)
    requires Shape(vm) && Shape(vm.(mem := r.mem))
  {
    var v := vm.(mem := r.mem);
    && Inv(v)
    && (r.outcome == Continue || r.outcome.Trapped? ==>
          r.ctx == f.ctx && r.outcome == f.outcome && AllWritten(vm, v, i, f.wrote))
    && (r.outcome.Faulted? ==> Between(vm, v, i, f.wrote) && r.ctx == c.(sp := r.ctx.sp))
  }

  lemma StoreMatches(vm: Vm, i: nat, addr: Word, val: Word)
    requires Inv(vm) && i < |vm.pids|
    ensures var w := Write32(SpaceOf(vm, i), addr, val); var v := vm.(mem := w.mem);
      && Inv(v) && Between(vm, v, i, Some((addr, val)))
      && (w.Done? ==> AllWritten(vm, v, i, Some((addr, val))))
  {
    var k := WriteBytesIsFlat(vm, i, addr, val, 4);
  }

  lemma MoveMatches(vm: Vm, i: nat, src: Word, dst: Word, during: Ctx, c: Ctx)
    requires Inv(vm) && i < |vm.pids| && CtxOk(c) && CtxOk(during) && during == c.(sp := during.sp)
    ensures Shape(vm)
    ensures var e := Move(src, dst, during); Matches(vm, i, Perform(e, c, SpaceOf(vm, i)), c, FlatPerform(e, c, vm, i))
  {
    hide Inv, Read32, Write32, ByteAt;
    InvShape(vm);
    Read32IsFlat(vm, i, src);
    var r := Read32(SpaceOf(vm, i), src);
    if r.Done? {
      StoreMatches(vm.(mem := r.mem), i, dst, r.val);
    }
    assert c == c.(sp := c.sp);
  }

  lemma StoreThenJumpMatches(vm: Vm, i: nat, addr: Word, val: Word, during: Ctx, target: Word, c: Ctx)
    requires Inv(vm) && i < |vm.pids| && CtxOk(c) && CtxOk(during) && during == c.(sp := during.sp) && PrivateWord(target)
    ensures Shape(vm)
    ensures var e := StoreThenJump(addr, val, during, target);
            Matches(vm, i, Perform(e, c, SpaceOf(vm, i)), c, FlatPerform(e, c, vm, i))
  {
    hide Inv, Read32, Write32, ByteAt, WordAfter, AllWritten;
    InvShape(vm);
    StoreMatches(vm, i, addr, val);
    var w := Write32(SpaceOf(vm, i), addr, val);
    if w.Done? {
      var v := vm.(mem := w.mem);
      Read32IsFlat(v, i, target);
      WordAfterStore(vm, v, i, target, addr, val);
      var r := Read32(SpaceOf(v, i), target);
      SameAfter(vm, v, vm.(mem := r.mem), i, Some((addr, val)));
    }
  }

  lemma WordAfterStore(vm: Vm, v: Vm, i: nat, target: Word, addr: Word, val: Word)
    requires Shape(vm) && Shape(v) && PrivateWord(target) && AllWritten(vm, v, i, Some((addr, val)))
    ensures WordAt(v, i, target) == WordAfter(vm, i, target, addr, val)
  {
    hide ByteAt;
    assert Private(At(target, 0));
  }

  lemma SameAfter(vm: Vm, v: Vm, r: Vm, i: nat, wrote: Option<(Word, Word)>)
    requires Shape(vm) && Shape(v) && Shape(r) && AllWritten(vm, v, i, wrote)
    requires forall x: Word :: ByteAt(r, i, x) == ByteAt(v, i, x)
    ensures AllWritten(vm, r, i, wrote) && Between(vm, r, i, wrote)
  {
    hide ByteAt;
  }

  lemma PerformMatches(vm: Vm, i: nat, e: Effect, c: Ctx)
    requires Inv(vm) && i < |vm.pids| && CtxOk(c) && EffectOk(e) && EffectPrivate(e)
    requires e.Store? || e.Move? || e.StoreThenJump? ==> e.during == c.(sp := e.during.sp)
    ensures Shape(vm)
    ensures Matches(vm, i, Perform(e, c, SpaceOf(vm, i)), c, FlatPerform(e, c, vm, i))
  {
    hide Inv, Read32, Write32, ByteAt, ReadByte, Used;
    InvShape(vm);
    assert vm.(mem := vm.mem) == vm;
    assert c == c.(sp := c.sp);
    match e
    case Plain(after, outcome) =>
    case Load(addr, use) => Read32IsFlat(vm, i, addr);
    case LoadByte(addr) => ReadByteIsFlat(vm, i, addr);
    case Store(addr, val, during, after) => StoreMatches(vm, i, addr, val);
    case Move(src, dst, during) => MoveMatches(vm, i, src, dst, during, c);
    case StoreThenJump(addr, val, during, target) => StoreThenJumpMatches(vm, i, addr, val, during, target, c);
  }

  /** An attempt at the instruction at ip either completes as the flat instruction does, or faults with
      part of its store done and everything but sp as before. */
  lemma StepMatches(vm: Vm, i: nat, c: Ctx)
    requires Inv(vm) && i < |vm.pids| && CtxOk(c) && Shape(vm) && InstrPrivate(c, vm, i)
    ensures Matches(vm, i, CpuStep(c, SpaceOf(vm, i)), c, FlatInstr(c, vm, i))
  {
    hide Inv, Fetch, ByteAt, Decode, EffectOf, Perform, FlatPerform;
    InvShape(vm);
    FetchIsFlat(vm, i, c.ip);
    var f := Fetch(SpaceOf(vm, i), c.ip);
    if f.Done? {
      var v, d := vm.(mem := f.mem), c.(ip := At(c.ip, 12));
      var e := InstrAt(c, vm, i);
      if e.Some? {
        DuringKeeps(d, Decode(f.val.0).value, f.val.1, f.val.2);
        PerformMatches(v, i, e.value, d);
        SameFlat(vm, v, i, e.value, d);
      }
    }
  }

  lemma DuringKeeps(c: Ctx, op: Opcode, a: Word, b: Word)
    requires CtxOk(c) && RegsOk(op, a, b)
    ensures var e := EffectOf(c, op, a, b);
            e.Store? || e.Move? || e.StoreThenJump? ==> e.during == c.(sp := e.during.sp)
  {
    assert c == c.(sp := c.sp);
    match op
    case Movrm | Movmm | Call | Callm | Pushi | Pushr | Popm =>
    case _ =>
  }

  lemma SameFlat(vm: Vm, v: Vm, i: nat, e: Effect, c: Ctx)
    requires Shape(vm) && Shape(v) && CtxOk(c) && EffectOk(e)
    requires forall x: Word :: ByteAt(v, i, x) == ByteAt(vm, i, x)
    ensures FlatPerform(e, c, v, i) == FlatPerform(e, c, vm, i)
  {
    hide ByteAt;
  }
}
