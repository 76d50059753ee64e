/** One process running a short assembled program: what each instruction, fault and turn does to it. With
    this, runs of the whole system can be followed step by step. */
module Execution {
  import opened Basics
  import opened Lru
  import opened Memory
  import opened Paging
  import opened FrameInvariant
  import opened PagingRuns
  import opened FlatMemory
  import opened StackProperty
  import opened DiskRoundTrip
  import opened HeapDisjointness
  import opened FlatInstructions
  import opened Leaks
  import opened KernelRuns
  import HA = HeapAllocator
  import LP = LoadedProgram
  import Cold = ColdStart
  import Restart
  import Cpu = Processor
  import Isa = Instructions
  import K = Kernel
  import Sched = Scheduling
  import SI = SchedulerInvariant
  import SR = SchedulerRuns
  import System

  // ---- A lone process and its program ------------------------------------------------------------------

  /** One live process, the first ever created, in a memory with frames to evict. */
  ghost predicate Lone(vm: Vm) {
    Inv(vm) && Roomy(vm) && Shape(vm) && vm.pids == [1] && Live(vm, 0) && |vm.mem.frames| > NUM_SHARED
  }

  /** The program assembles and fits the page at 0x1000. */
  predicate Short(lines: seq<Isa.Line>) {
    Isa.Assemble(lines).Some? && 0 < |lines| <= 21
  }

  function Image(lines: seq<Isa.Line>): (code: seq<Byte>)
    requires Short(lines)
    ensures |code| == 12 * |lines|
  {
    Isa.Assemble(lines).value
  }

  function CodePage(lines: seq<Isa.Line>): Page
    requires Short(lines)
  {
    CodeImage(Image(lines), |Image(lines)|, CODE_PAGE)
  }

  /** Its code page reads as the program. */
  ghost predicate Runs(vm: Vm, lines: seq<Isa.Line>) {
    Lone(vm) && Short(lines) && vm.sizes == [12 * |lines|] && View(vm, 0, CODE_PAGE) == CodePage(lines)
  }

  predicate Here(vm: Vm, q: nat) {
    Entry(vm.mem, 0, q).isValid
  }

  function AfterTouch(vm: Vm, q: nat): Vm {
    TouchPage(vm, Ref(0, q))
  }

  /** A touch changes recency only. */
  lemma TouchFacts(vm: Vm, q: nat)
    requires Lone(vm) && Here(vm, q)
    ensures var r := AfterTouch(vm, q);
      && Lone(r) && r == vm.(mem := vm.mem.(lru := r.mem.lru))
      && r.mem.lru == Touch(vm.mem.lru, Entry(vm.mem, 0, q).physPage) && AfterTouch(r, q) == r
      && (forall x: nat :: View(r, 0, x) == View(vm, 0, x) && Entry(r.mem, 0, x) == Entry(vm.mem, 0, x))
      && (forall x: nat :: PageFree(r, 0, x) == PageFree(vm, 0, x))
      && HasFree(r.mem) == HasFree(vm.mem)
      && (!InSharedWindow(q) ==> Stack(r) == MoveToFront(Stack(vm), Key(1, q)))
  {
    hide MoveToFront, Keys, Inv;
    LoneTakes(vm);
    TouchKeeps(vm, Ref(0, q));
    InvShape(AfterTouch(vm, q));
    TouchTwice(vm.mem.lru, Entry(vm.mem, 0, q).physPage);
    if !InSharedWindow(q) { HitStack(vm, Ref(0, q)); }
  }

  // ---- Byte and word accesses ------------------------------------------------------------------------------

  lemma ByteHits(vm: Vm, va: Word)
    requires Lone(vm) && Here(vm, va / PAGE_SIZE) && IsValidVaddr(vm.sizes[0], va)
    ensures ReadByte(vm.mem, 0, vm.sizes[0], va) == Done(AfterTouch(vm, va / PAGE_SIZE).mem, ByteAt(vm, 0, va))
  {
    assert Backed(vm, 0, va / PAGE_SIZE);
  }

  lemma ByteMisses(vm: Vm, va: Word, b: Byte)
    requires Lone(vm) && !Here(vm, va / PAGE_SIZE) && IsValidVaddr(vm.sizes[0], va)
    ensures ReadByte(vm.mem, 0, vm.sizes[0], va) == Fault(vm.mem, va / PAGE_SIZE)
    ensures WriteByte(vm.mem, 0, vm.sizes[0], va, b) == Fault(vm.mem, va / PAGE_SIZE)
  {}

  /** The n bytes from va on are in bounds and in one page. */
  predicate InPage(vm: Vm, va: Word, n: nat)
    requires |vm.sizes| == 1
  {
    va % PAGE_SIZE + n <= PAGE_SIZE && forall k: nat | k < n :: IsValidVaddr(vm.sizes[0], Cpu.At(va, k))
  }

  lemma AtInPage(vm: Vm, va: Word, n: nat, k: nat)
    requires |vm.sizes| == 1 && InPage(vm, va, n) && k < n
    ensures Cpu.At(va, k) / PAGE_SIZE == va / PAGE_SIZE && IsValidVaddr(vm.sizes[0], Cpu.At(va, k)) && Cpu.At(va, 0) == va
  {}

  lemma WordHits(vm: Vm, va: Word)
    requires Lone(vm) && Here(vm, va / PAGE_SIZE) && |vm.sizes| == 1 && InPage(vm, va, 4)
    ensures Cpu.Read32(SpaceOf(vm, 0), va) == Done(AfterTouch(vm, va / PAGE_SIZE).mem, WordAt(vm, 0, va))
  {
    hide Inv, Roomy, Live, ReadByte, ByteAt, Cpu.At, InPage, AfterTouch, IsValidVaddr, Here;
    TouchFacts(vm, va / PAGE_SIZE);
    var r := AfterTouch(vm, va / PAGE_SIZE);
    AtInPage(vm, va, 4, 0);
    ByteHits(vm, va);
    forall k: nat | 0 < k < 4
      ensures ReadByte(r.mem, 0, vm.sizes[0], Cpu.At(va, k)) == Done(r.mem, ByteAt(vm, 0, Cpu.At(va, k)))
    {
      AtInPage(vm, va, 4, k);
      assert Here(r, va / PAGE_SIZE) by { HereTouched(vm, va / PAGE_SIZE); }
      ByteHits(r, Cpu.At(va, k));
      SameByte(vm, r, Cpu.At(va, k));
    }
  }

  lemma HereTouched(vm: Vm, q: nat)
    requires Here(vm, q)
    ensures Here(AfterTouch(vm, q), q)
  {}

  lemma SameByte(vm: Vm, r: Vm, va: Word)
    requires Shape(vm) && Shape(r) && View(r, 0, va / PAGE_SIZE) == View(vm, 0, va / PAGE_SIZE)
    ensures ByteAt(r, 0, va) == ByteAt(vm, 0, va)
  {}

  lemma WordMisses(vm: Vm, va: Word, w: Word)
    requires Lone(vm) && !Here(vm, va / PAGE_SIZE) && |vm.sizes| == 1 && IsValidVaddr(vm.sizes[0], va)
    ensures Cpu.Read32(SpaceOf(vm, 0), va) == Fault(vm.mem, va / PAGE_SIZE)
    ensures Cpu.Write32(SpaceOf(vm, 0), va, w) == Fault(vm.mem, va / PAGE_SIZE)
  {
    hide Inv, Roomy, Live, ReadByte, WriteByte, IsValidVaddr, Here;
    Restart.AtAt(va, 0, 0);
    ByteMisses(vm, va, Isa.WordByte(w, 0));
    assert Cpu.WriteBytes(SpaceOf(vm, 0), va, w, 0) == Done(vm.mem, ());
    assert Cpu.WriteBytes(SpaceOf(vm, 0), va, w, 1) == Fault(vm.mem, va / PAGE_SIZE);
    assert Cpu.WriteBytes(SpaceOf(vm, 0), va, w, 2) == Fault(vm.mem, va / PAGE_SIZE);
    assert Cpu.WriteBytes(SpaceOf(vm, 0), va, w, 3) == Fault(vm.mem, va / PAGE_SIZE);
  }

  // ---- Fetching a line ------------------------------------------------------------------------------------

  /** Process 0 is about to execute line k, whose page is resident. */
  ghost predicate OnLine(vm: Vm, lines: seq<Isa.Line>, k: nat, c: Cpu.Ctx) {
    Runs(vm, lines) && k < |lines| && Here(vm, CODE_PAGE) && Cpu.CtxOk(c) && c.ip == CODE_BASE + 12 * k
  }

  lemma ImageByte(vm: Vm, lines: seq<Isa.Line>, n: nat)
    requires Runs(vm, lines) && n < 12 * |lines|
    ensures ByteAt(vm, 0, CODE_BASE + n) == Image(lines)[n] && IsValidVaddr(vm.sizes[0], CODE_BASE + n)
    ensures (CODE_BASE + n) / PAGE_SIZE == CODE_PAGE
  {
    hide View, Isa.Assemble;
  }

  /** Word j of line k. */
  lemma ImageWord(vm: Vm, lines: seq<Isa.Line>, n: nat, w: Word)
    requires Runs(vm, lines) && n + 4 <= 12 * |lines| && Image(lines)[n..n + 4] == Isa.Emit32(w) && n % 4 == 0
    ensures WordAt(vm, 0, CODE_BASE + n) == w && InPage(vm, CODE_BASE + n, 4) && (CODE_BASE + n) / PAGE_SIZE == CODE_PAGE
  {
    hide Inv, Roomy, Live, View, CodePage, ByteAt, Isa.FromBytes, Isa.WordByte, Image;
    var code := Image(lines);
    forall k: nat | k < 4
      ensures ByteAt(vm, 0, Cpu.At(CODE_BASE + n, k)) == Isa.WordByte(w, k)
      ensures IsValidVaddr(vm.sizes[0], Cpu.At(CODE_BASE + n, k))
    {
      ImageByte(vm, lines, n + k);
      assert code[n..n + 4][k] == code[n + k];
      assert Cpu.At(CODE_BASE + n, k) == CODE_BASE + (n + k);
    }
    ImageByte(vm, lines, n);
    Restart.AtAt(CODE_BASE + n, 0, 0);
    Isa.WordRoundTrip(w);
  }

  /** The operands of line k. */
  function Args(lines: seq<Isa.Line>, k: nat): Option<(Word, Word)>
    requires k < |lines|
  {
    Isa.Operands(lines[k].op, lines[k].args)
  }

  lemma FetchHits(vm: Vm, lines: seq<Isa.Line>, k: nat, c: Cpu.Ctx)
    requires OnLine(vm, lines, k, c)
    ensures Args(lines, k).Some?
    ensures var (a, b) := Args(lines, k).value;
      Cpu.Fetch(SpaceOf(vm, 0), c.ip) == Done(AfterTouch(vm, CODE_PAGE).mem, (Isa.Code(lines[k].op), a, b))
  {
    hide Inv, Roomy, Live, Isa.Assemble, Isa.AssembleLine, Isa.Emit32, Cpu.Read32, WordAt, Isa.Code, Isa.Operands,
         View, InPage, AfterTouch, Here;
    var n := 12 * k;
    Isa.AssembledLine(lines, k);
    LP.AssembleLineForm(lines[k]);
    var (a, b) := Args(lines, k).value;
    LP.LineWords(Image(lines), n, Isa.Code(lines[k].op), a, b);
    ImageWord(vm, lines, n, Isa.Code(lines[k].op));
    ImageWord(vm, lines, n + 4, a);
    ImageWord(vm, lines, n + 8, b);
    TouchFacts(vm, CODE_PAGE);
    HereTouched(vm, CODE_PAGE);
    var r := AfterTouch(vm, CODE_PAGE);
    SameWord(vm, r, CODE_BASE + n + 4);
    SameWord(vm, r, CODE_BASE + n + 8);
    SamePage(vm, r, CODE_BASE + n + 4);
    SamePage(vm, r, CODE_BASE + n + 8);
    WordHits(vm, c.ip);
    WordHits(r, Cpu.At(c.ip, 4));
    WordHits(r, Cpu.At(c.ip, 8));
  }

  lemma SamePage(vm: Vm, r: Vm, va: Word)
    requires |vm.sizes| == 1 && r.sizes == vm.sizes
    ensures InPage(r, va, 4) == InPage(vm, va, 4)
  {}

  lemma SameWord(vm: Vm, r: Vm, va: Word)
    requires Shape(vm) && Shape(r) && forall x: nat :: View(r, 0, x) == View(vm, 0, x)
    ensures WordAt(r, 0, va) == WordAt(vm, 0, va)
  {
    hide View;
  }

  /** The step on line k: the fetch touches the code page, then the instruction does what it does. */
  lemma LineStep(vm: Vm, lines: seq<Isa.Line>, k: nat, c: Cpu.Ctx)
    requires OnLine(vm, lines, k, c)
    ensures Args(lines, k).Some?
    ensures var v, d, (a, b) := AfterTouch(vm, CODE_PAGE), c.(ip := CODE_BASE + 12 * (k + 1)), Args(lines, k).value;
      && Runs(v, lines) && Cpu.RegsOk(lines[k].op, a, b)
      && var r := Cpu.Perform(Cpu.EffectOf(d, lines[k].op, a, b), d, SpaceOf(v, 0));
         Cpu.CpuStep(c, SpaceOf(vm, 0)) == if r.outcome.Faulted? then r.(ctx := r.ctx.(ip := c.ip)) else r
  {
    hide Inv, Roomy, Live, Isa.Assemble, Cpu.Fetch, Cpu.Perform, Cpu.EffectOf, Isa.Code, Isa.Operands, View,
         AfterTouch, Here, Cpu.RegsOk, Isa.Decode, CodePage;
    FetchHits(vm, lines, k, c);
    TouchFacts(vm, CODE_PAGE);
    Isa.DecodeCode(lines[k].op);
    LP.OperandsPass(lines[k].op, lines[k].args);
    assert Cpu.At(c.ip, 12) == CODE_BASE + 12 * (k + 1);
  }

  /** A fetch from a page that is not resident. */
  lemma FetchMisses(vm: Vm, c: Cpu.Ctx)
    requires Lone(vm) && |vm.sizes| == 1 && Cpu.CtxOk(c) && IsValidVaddr(vm.sizes[0], c.ip) && !Here(vm, c.ip / PAGE_SIZE)
    ensures Cpu.CpuStep(c, SpaceOf(vm, 0)) == Cpu.Result(c, vm.mem, Cpu.Faulted(c.ip / PAGE_SIZE))
  {
    hide Inv, Roomy, Live, Cpu.Read32, Here, View;
    WordMisses(vm, c.ip, 0);
  }

  /** A fetch of zeros: no opcode is numbered 0. */
  lemma ZerosCrash(vm: Vm, c: Cpu.Ctx)
    requires Lone(vm) && |vm.sizes| == 1 && Cpu.CtxOk(c) && Here(vm, c.ip / PAGE_SIZE)
    requires View(vm, 0, c.ip / PAGE_SIZE) == ZeroPage()
    requires InPage(vm, c.ip, 12)
    ensures Cpu.CpuStep(c, SpaceOf(vm, 0)) ==
            Cpu.Result(c.(ip := Cpu.At(c.ip, 12)), AfterTouch(vm, c.ip / PAGE_SIZE).mem, Cpu.Crashed)
  {
    hide Inv, Roomy, Live, Cpu.Read32, Here, View, AfterTouch, IsValidVaddr;
    var q := c.ip / PAGE_SIZE;
    var r := AfterTouch(vm, q);
    TouchFacts(vm, q);
    HereTouched(vm, q);
    ZeroWordAt(vm, c.ip, 0);
    ZeroWordAt(vm, c.ip, 4);
    ZeroWordAt(vm, c.ip, 8);
    Restart.AtAt(c.ip, 0, 0);
    SamePage(vm, r, Cpu.At(c.ip, 4));
    SamePage(vm, r, Cpu.At(c.ip, 8));
    SameWord(vm, r, Cpu.At(c.ip, 4));
    SameWord(vm, r, Cpu.At(c.ip, 8));
    WordHits(vm, c.ip);
    WordHits(r, Cpu.At(c.ip, 4));
    WordHits(r, Cpu.At(c.ip, 8));
  }

  lemma ZeroWordAt(vm: Vm, ip: Word, j: nat)
    requires Shape(vm) && |vm.sizes| == 1 && InPage(vm, ip, 12) && View(vm, 0, ip / PAGE_SIZE) == ZeroPage() && j <= 8
    ensures var va := Cpu.At(ip, j); va / PAGE_SIZE == ip / PAGE_SIZE && InPage(vm, va, 4) && WordAt(vm, 0, va) == 0
  {
    hide View, IsValidVaddr;
    var va, q := Cpu.At(ip, j), ip / PAGE_SIZE;
    AtInPage(vm, ip, 12, j);
    forall k: nat | k < 4 ensures IsValidVaddr(vm.sizes[0], Cpu.At(va, k)) && Cpu.At(va, k) / PAGE_SIZE == q {
      AtInPage(vm, ip, 12, j + k);
      Restart.AtAt(ip, j, k);
    }
    assert va % PAGE_SIZE + 4 <= PAGE_SIZE;
    ZeroWord(vm, va, q);
  }

  lemma ZeroWord(vm: Vm, va: Word, q: nat)
    requires Shape(vm) && View(vm, 0, q) == ZeroPage() && forall k: nat | k < 4 :: Cpu.At(va, k) / PAGE_SIZE == q
    ensures WordAt(vm, 0, va) == 0
  {
    hide View, Cpu.At;
    Restart.AtAt(va, 0, 0);
    assert Cpu.At(va, 0) / PAGE_SIZE == q && Cpu.At(va, 1) / PAGE_SIZE == q && Cpu.At(va, 2) / PAGE_SIZE == q && Cpu.At(va, 3) / PAGE_SIZE == q;
  }

  // ---- Storing a word -------------------------------------------------------------------------------------

  /** r is vm after some bytes of one resident page were written: that page is dirty and most recent. */
  ghost predicate Stored(vm: Vm, r: Vm, q: nat) {
    && Lone(r) && Shape(vm) && r == vm.(mem := r.mem) && r.mem.used == vm.mem.used
    && Here(r, q) && Entry(r.mem, 0, q).isDirty
    && (forall x: nat :: Here(r, x) == Here(vm, x) && (x != q ==> Entry(r.mem, 0, x) == Entry(vm.mem, 0, x)))
    && (forall x: nat | x != q && !InSharedWindow(x) :: View(r, 0, x) == View(vm, 0, x))
    && (forall x: nat :: |vm.pids| == 1 && PageFree(r, 0, x) == PageFree(vm, 0, x))
    && Stack(r) == MoveToFront(Stack(vm), Key(1, q))
    && |r.mem.frames| == |vm.mem.frames| && |r.mem.tables[0]| == |vm.mem.tables[0]|
  }

  lemma ByteEntries(vm: Vm, va: Word, b: Byte)
    requires Lone(vm) && Here(vm, va / PAGE_SIZE) && IsValidVaddr(vm.sizes[0], va)
    ensures var w, q := WriteByte(vm.mem, 0, vm.sizes[0], va, b), va / PAGE_SIZE; var r := vm.(mem := w.mem);
      && w.Done? && r.mem.used == vm.mem.used && |r.mem.frames| == |vm.mem.frames| && |r.mem.tables[0]| == |vm.mem.tables[0]|
      && Live(r, 0) && Here(r, q) && Entry(r.mem, 0, q).isDirty
      && (forall x: nat :: Here(r, x) == Here(vm, x) && (x != q ==> Entry(r.mem, 0, x) == Entry(vm.mem, 0, x)))
      && (forall x: nat :: PageFree(r, 0, x) == PageFree(vm, 0, x))
  {
    assert Backed(vm, 0, va / PAGE_SIZE);
  }

  lemma ByteStored(vm: Vm, va: Word, b: Byte)
    requires Lone(vm) && Here(vm, va / PAGE_SIZE) && IsValidVaddr(vm.sizes[0], va) && !InSharedWindow(va / PAGE_SIZE)
    ensures var w := WriteByte(vm.mem, 0, vm.sizes[0], va, b);
      w.Done? && Stored(vm, vm.(mem := w.mem), va / PAGE_SIZE)
  {
    hide Stack, MoveToFront, Roomy, Inv, Live, WriteByte, View, PageFree, Entry, IsValidVaddr;
    var w, q := WriteByte(vm.mem, 0, vm.sizes[0], va, b), va / PAGE_SIZE;
    var r := vm.(mem := w.mem);
    WriteInv(vm, 0, vm.sizes[0], va, b);
    ByteEntries(vm, va, b);
    Cold.WriteStack(vm, 0, vm.sizes[0], va, b);
    RoomyFrames(vm, r);
    forall x: nat | x != q && !InSharedWindow(x) ensures View(r, 0, x) == View(vm, 0, x) {
      WriteView(vm, 0, vm.sizes[0], va, b, 0, x);
    }
  }

  lemma RoomyFrames(vm: Vm, r: Vm)
    requires Roomy(vm) && r.pids == vm.pids && |r.mem.frames| == |vm.mem.frames|
    ensures Roomy(r)
  {}

  lemma StoredTwice(vm: Vm, v: Vm, r: Vm, q: nat)
    requires Lone(vm) && Stored(vm, v, q) && Stored(v, r, q)
    ensures Stored(vm, r, q)
  {
    hide Inv, Roomy, Live, Entry, View, Stack, PageFree;
    MoveTwice(Stack(vm), Key(1, q));
  }

  lemma MoveTwice(s: seq<Key>, k: Key)
    ensures MoveToFront(MoveToFront(s, k), k) == MoveToFront(s, k)
  {
    var w := Without(s, {k});
    WithoutAppend([k], w, {k});
    WithoutTwice(s, {k}, {k});
    assert {k} + {k} == {k};
    assert [k][1..] == [] && Without([k], {k}) == [];
    assert [] + w == w;
  }

  /** A word written within one resident page. */
  lemma WordStored(vm: Vm, va: Word, w: Word)
    requires Lone(vm) && |vm.sizes| == 1 && Here(vm, va / PAGE_SIZE) && InPage(vm, va, 4)
    requires !InSharedWindow(va / PAGE_SIZE)
    ensures var r := Cpu.Write32(SpaceOf(vm, 0), va, w); var v := vm.(mem := r.mem);
      && r.Done? && Stored(vm, v, va / PAGE_SIZE)
      && forall x: Word | Private(x) :: ByteAt(v, 0, x) == Patched(ByteAt(vm, 0, x), x, va, w, 4)
  {
    hide Inv, Roomy, Live, Here, InPage, View, Stored, IsValidVaddr;
    BytesStored(vm, va, w, 4);
    var k := WriteBytesIsFlat(vm, 0, va, w, 4);
  }

  lemma {:induction false} BytesStored(vm: Vm, va: Word, w: Word, n: nat)
    requires Lone(vm) && |vm.sizes| == 1 && Here(vm, va / PAGE_SIZE) && InPage(vm, va, n)
    requires !InSharedWindow(va / PAGE_SIZE)
    requires 0 < n <= 4
    ensures var r := Cpu.WriteBytes(SpaceOf(vm, 0), va, w, n); r.Done? && Stored(vm, vm.(mem := r.mem), va / PAGE_SIZE)
  {
    hide Inv, Roomy, Live, View, IsValidVaddr, WriteByte, Stack, PageFree, Entry, Cpu.At;
    var q, b := va / PAGE_SIZE, Isa.WordByte(w, n - 1);
    AtInPage(vm, va, n, n - 1);
    if n == 1 {
      assert Cpu.WriteBytes(SpaceOf(vm, 0), va, w, 0) == Done(vm.mem, ());
      ByteStored(vm, va, b);
    } else {
      BytesStored(vm, va, w, n - 1);
      var v := vm.(mem := Cpu.WriteBytes(SpaceOf(vm, 0), va, w, n - 1).mem);
      ByteStored(v, Cpu.At(va, n - 1), b);
      StoredTwice(vm, v, vm.(mem := Cpu.WriteBytes(SpaceOf(vm, 0), va, w, n).mem), q);
    }
  }

  /** Stores to other pages leave the program alone. */
  lemma StoredRuns(vm: Vm, r: Vm, q: nat, lines: seq<Isa.Line>)
    requires Runs(vm, lines) && Stored(vm, r, q) && q != CODE_PAGE
    ensures Runs(r, lines)
  {
    hide Inv, Roomy, Live, View, Stack, Entry, PageFree, CodePage;
    assert !InSharedWindow(CODE_PAGE);
  }

  // ---- Page faults ---------------------------------------------------------------------------------------

  /** Taking a frame now takes it from page x. */
  predicate Evicts(vm: Vm, x: nat)
    requires Shape(vm) && |vm.pids| == 1 && CanTake(vm)
  {
    !HasFree(vm.mem) && Holds(vm, TakenFrame(vm), 0, x)
  }

  lemma LoneTakes(vm: Vm)
    requires Lone(vm)
    ensures CanTake(vm)
  {
    AlwaysAFrame(vm);
  }

  /** Eviction takes the bottom of the recency order. */
  lemma EvictsBottom(vm: Vm, x: nat)
    requires Lone(vm)
    ensures CanTake(vm)
    ensures Evicts(vm, x) <==> !HasFree(vm.mem) && |Stack(vm)| > 0 && Stack(vm)[|Stack(vm)| - 1] == Key(1, x)
  {
    hide Stack, CanTake;
    LoneTakes(vm);
    if !HasFree(vm.mem) {
      VictimExists(vm);
      VictimAtBottom(vm);
    }
  }

  lemma VictimAtBottom(vm: Vm)
    requires Inv(vm) && Victim(vm.mem.lru, vm.shared).Some?
    ensures var v := Victim(vm.mem.lru, vm.shared).value;
      v in vm.owner && |Stack(vm)| > 0 && vm.owner[v] == Stack(vm)[|Stack(vm)| - 1]
  {
    var l, owner := vm.mem.lru, vm.owner;
    var k := VictimSplits(l, vm.shared);
    assert l[k] in owner by { assert vm.mem.used[l[k]]; }
    assert forall f | f in l[k + 1..] :: f !in owner;
    BottomKey(l, k, owner);
  }

  lemma BottomKey(l: seq<nat>, k: nat, owner: map<nat, Key>)
    requires k < |l| && l[k] in owner && forall f | f in l[k + 1..] :: f !in owner
    ensures |Keys(l, owner)| > 0 && Keys(l, owner)[|Keys(l, owner)| - 1] == owner[l[k]]
  {
    assert l == l[..k] + ([l[k]] + l[k + 1..]);
    KeysAppend(l[..k], [l[k]] + l[k + 1..], owner);
    KeysAppend([l[k]], l[k + 1..], owner);
    KeysPinned(l[k + 1..], owner);
    assert [l[k]][1..] == [] && Keys([l[k]], owner) == [owner[l[k]]];
  }

  /** No frame is free iff as many pages are resident as there are evictable frames. */
  lemma FullIff(vm: Vm)
    requires Lone(vm)
    ensures |Stack(vm)| <= Evictable(vm) && (HasFree(vm.mem) <==> |Stack(vm)| < Evictable(vm))
  {
    StackSize(vm);
  }

  lemma FaultIn(vm: Vm, q: nat)
    requires Lone(vm) && !Here(vm, q)
    ensures CanTake(vm) && Enabled(vm, PageFault(0, q)) && Step(vm, PageFault(0, q)) == PageIn(vm, 0, q)
    ensures var r := PageIn(vm, 0, q);
      && Lone(r) && r.sizes == vm.sizes && r.heaps == vm.heaps && |r.mem.frames| == |vm.mem.frames|
      && Here(r, q) && !Entry(r.mem, 0, q).isDirty
      && Entry(r.mem, 0, q).physPage in r.owner && r.owner[Entry(r.mem, 0, q).physPage] == Key(1, q)
      && |r.mem.tables[0]| >= |vm.mem.tables[0]| && Stack(r) == Take([Key(1, q)] + Stack(vm), Evictable(vm))
  {
    hide Inv, Stack, CanTake, PageIn;
    LoneTakes(vm);
    PageInInv(vm, 0, q);
    PageInMaps(vm, 0, q);
    PageInRecency(vm, 0, q);
    PageInSizes(vm, 0, q);
    PageInLive(vm, 0, q, 0);
    MissStack(vm, 0, q);
  }

  /** ... and to every other private page what eviction does, if it is the bottom of the recency order. */
  lemma FaultOther(vm: Vm, q: nat, x: nat)
    requires Lone(vm) && !Here(vm, q) && x != q && !InSharedWindow(x)
    ensures CanTake(vm)
    ensures var r := PageIn(vm, 0, q);
      && Here(r, x) == (Here(vm, x) && !Evicts(vm, x))
      && (Here(r, x) ==> Entry(r.mem, 0, x) == Entry(vm.mem, 0, x))
      && (!Evicts(vm, x) || DirtyOrZero(vm, 0, x) ==> View(r, 0, x) == View(vm, 0, x))
      && (Evicts(vm, x) && !DirtyOrZero(vm, 0, x) ==> View(r, 0, x) == ZeroPage())
      && (PageFree(r, 0, x) <==> PageFree(vm, 0, x) || (Evicts(vm, x) && !Entry(vm.mem, 0, x).isDirty))
  {
    hide Inv, CanTake, PageIn, GrowTable, TakeFrame, Install, View, Holds, PageFree, DirtyOrZero;
    LoneTakes(vm);
    GrowInv(vm, 0, q + 1);
    GrowView(vm, 0, q + 1, 0, x);
    var vm1 := vm.(mem := GrowTable(vm.mem, 0, q + 1));
    TakeFrameView(vm1, 0, x);
    PageInForm(vm, 0, q);
    var vm3 := TakeFrame(vm1).(disk := TakeFrame(vm1).disk - {KeyOf(vm, 0, q)});
    InstallEntries(vm3, 0, q, TakenFrame(vm1), View(vm, 0, q));
    PageInView(vm, 0, q, 0, x);
    PageInFree(vm, 0, q, 0, x);
  }

  /** A page faulted in reads as it did on disk. */
  lemma FaultSelf(vm: Vm, q: nat)
    requires Lone(vm) && !Here(vm, q) && !InSharedWindow(q)
    ensures CanTake(vm) && View(PageIn(vm, 0, q), 0, q) == View(vm, 0, q)
  {
    hide Inv, CanTake, PageIn, View;
    LoneTakes(vm);
    NotHeld(vm, 0, q);
    PageInView(vm, 0, q, 0, q);
  }

  /** The program survives unless its page is evicted clean. */
  lemma FaultRuns(vm: Vm, q: nat, lines: seq<Isa.Line>)
    requires Runs(vm, lines) && !Here(vm, q)
    requires CanTake(vm) && (q == CODE_PAGE || !Evicts(vm, CODE_PAGE) || Entry(vm.mem, 0, CODE_PAGE).isDirty)
    ensures Runs(PageIn(vm, 0, q), lines)
  {
    hide Inv, Roomy, Live, CanTake, PageIn, View, CodePage, Evicts;
    assert !InSharedWindow(CODE_PAGE);
    FaultIn(vm, q);
    if q == CODE_PAGE { FaultSelf(vm, q); } else { FaultOther(vm, q, CODE_PAGE); }
  }

  // ---- Instructions ------------------------------------------------------------------------------------------

  /** The context past line k. */
  function Past(c: Cpu.Ctx, k: nat): Cpu.Ctx
    requires k <= 21
  {
    c.(ip := CODE_BASE + 12 * (k + 1))
  }

  lemma PlainLine(vm: Vm, lines: seq<Isa.Line>, k: nat, c: Cpu.Ctx, after: Cpu.Ctx, outcome: Cpu.Outcome)
    requires OnLine(vm, lines, k, c) && Args(lines, k).Some?
    requires var (a, b) := Args(lines, k).value;
      Cpu.RegsOk(lines[k].op, a, b) && Cpu.EffectOf(Past(c, k), lines[k].op, a, b) == Cpu.Plain(after, outcome)
    ensures Cpu.CpuStep(c, SpaceOf(vm, 0)) == Cpu.Result(after, AfterTouch(vm, CODE_PAGE).mem, outcome)
  {
    hide Inv, Roomy, Live, View, Isa.Assemble, Isa.Operands, Cpu.EffectOf, Cpu.RegsOk, AfterTouch, CodePage, Here,
         Cpu.CpuStep;
    LineStep(vm, lines, k, c);
  }

  lemma MoviLine(vm: Vm, lines: seq<Isa.Line>, k: nat, c: Cpu.Ctx, r: nat, w: Word)
    requires OnLine(vm, lines, k, c) && lines[k] == Isa.Line(Isa.Movi, [Isa.Reg(r), Isa.Imm(w)]) && 1 <= r <= 10
    ensures Cpu.CpuStep(c, SpaceOf(vm, 0)) ==
            Cpu.Result(Cpu.SetReg(Past(c, k), r, ToInt32(w)), AfterTouch(vm, CODE_PAGE).mem, Cpu.Continue)
  {
    hide OnLine, ToInt32, AfterTouch;
    assert k < |lines| <= 21 && Cpu.CtxOk(c) by { OnLineMeans(vm, lines, k, c); }
    PlainLine(vm, lines, k, c, Cpu.SetReg(Past(c, k), r, ToInt32(w)), Cpu.Continue);
  }

  lemma OnLineMeans(vm: Vm, lines: seq<Isa.Line>, k: nat, c: Cpu.Ctx)
    requires OnLine(vm, lines, k, c)
    ensures k < |lines| <= 21 && Cpu.CtxOk(c) && Lone(vm) && Shape(vm) && |vm.pids| == 1
  {}

  // System calls only record their operands and trap.

  lemma InputLine(vm: Vm, lines: seq<Isa.Line>, k: nat, c: Cpu.Ctx, a: nat)
    requires OnLine(vm, lines, k, c) && lines[k] == Isa.Line(Isa.Input, [Isa.Reg(a)])
    requires 1 <= a <= 10
    ensures k < |lines| <= 21 && Cpu.CtxOk(c)
    ensures Cpu.CpuStep(c, SpaceOf(vm, 0)) ==
            Cpu.Result(Past(c, k), AfterTouch(vm, CODE_PAGE).mem, Cpu.Trapped(Cpu.Trap.Input))
  {
    hide OnLine, AfterTouch, Cpu.CpuStep;
    OnLineMeans(vm, lines, k, c);
    PlainLine(vm, lines, k, c, Past(c, k), Cpu.Trapped(Cpu.Trap.Input));
  }

  lemma AllocLine(vm: Vm, lines: seq<Isa.Line>, k: nat, c: Cpu.Ctx, a: nat, b: nat)
    requires OnLine(vm, lines, k, c) && lines[k] == Isa.Line(Isa.Alloc, [Isa.Reg(a), Isa.Reg(b)])
    requires 1 <= a <= 10 && 1 <= b <= 10
    ensures k < |lines| <= 21 && Cpu.CtxOk(c)
    ensures Cpu.CpuStep(c, SpaceOf(vm, 0)) ==
            Cpu.Result(Past(c, k).(trapRegA := a, trapRegB := b), AfterTouch(vm, CODE_PAGE).mem, Cpu.Trapped(Cpu.Trap.Alloc))
  {
    hide OnLine, AfterTouch, Cpu.CpuStep;
    OnLineMeans(vm, lines, k, c);
    PlainLine(vm, lines, k, c, Past(c, k).(trapRegA := a, trapRegB := b), Cpu.Trapped(Cpu.Trap.Alloc));
  }

  lemma FreeLine(vm: Vm, lines: seq<Isa.Line>, k: nat, c: Cpu.Ctx, a: nat)
    requires OnLine(vm, lines, k, c) && lines[k] == Isa.Line(Isa.FreeMemory, [Isa.Reg(a)])
    requires 1 <= a <= 10
    ensures k < |lines| <= 21 && Cpu.CtxOk(c)
    ensures Cpu.CpuStep(c, SpaceOf(vm, 0)) ==
            Cpu.Result(Past(c, k).(trapRegA := a), AfterTouch(vm, CODE_PAGE).mem, Cpu.Trapped(Cpu.Trap.FreeMemory))
  {
    hide OnLine, AfterTouch, Cpu.CpuStep;
    OnLineMeans(vm, lines, k, c);
    PlainLine(vm, lines, k, c, Past(c, k).(trapRegA := a), Cpu.Trapped(Cpu.Trap.FreeMemory));
  }

  lemma MapLine(vm: Vm, lines: seq<Isa.Line>, k: nat, c: Cpu.Ctx, a: nat, b: nat)
    requires OnLine(vm, lines, k, c) && lines[k] == Isa.Line(Isa.MapSharedMem, [Isa.Reg(a), Isa.Reg(b)])
    requires 1 <= a <= 10 && 1 <= b <= 10
    ensures k < |lines| <= 21 && Cpu.CtxOk(c)
    ensures Cpu.CpuStep(c, SpaceOf(vm, 0)) ==
            Cpu.Result(Cpu.SetReg(Past(c, k), 15, b), AfterTouch(vm, CODE_PAGE).mem, Cpu.Trapped(Cpu.Trap.MapSharedMem))
  {
    hide OnLine, AfterTouch, Cpu.CpuStep;
    OnLineMeans(vm, lines, k, c);
    PlainLine(vm, lines, k, c, Cpu.SetReg(Past(c, k), 15, b), Cpu.Trapped(Cpu.Trap.MapSharedMem));
  }

  /** A load on line k from an address whose page is, or is not, resident. */
  lemma MovmrLine(vm: Vm, lines: seq<Isa.Line>, k: nat, c: Cpu.Ctx, a: nat, b: nat)
    requires OnLine(vm, lines, k, c) && lines[k] == Isa.Line(Isa.Movmr, [Isa.Reg(a), Isa.Reg(b)]) && 1 <= a <= 10
    requires 1 <= b <= 10
    requires IsValidVaddr(vm.sizes[0], ToWord(c.regs[b]))
    ensures var va, v := ToWord(c.regs[b]), AfterTouch(vm, CODE_PAGE);
      if !Here(vm, va / PAGE_SIZE) then
        Cpu.CpuStep(c, SpaceOf(vm, 0)) == Cpu.Result(c, v.mem, Cpu.Faulted(va / PAGE_SIZE))
      else InPage(vm, va, 4) ==>
        Cpu.CpuStep(c, SpaceOf(vm, 0)) ==
        Cpu.Result(Cpu.SetReg(Past(c, k), a, ToInt32(WordAt(vm, 0, va))), AfterTouch(v, va / PAGE_SIZE).mem, Cpu.Continue)
  {
    hide Inv, Roomy, Live, View, Isa.Assemble, CodePage, Here, AfterTouch, Cpu.CpuStep, Cpu.Read32, WordAt, InPage,
         ToWord, IsValidVaddr;
    LineStep(vm, lines, k, c);
    TouchFacts(vm, CODE_PAGE);
    var va, v := ToWord(c.regs[b]), AfterTouch(vm, CODE_PAGE);
    HereSame(vm, v, va / PAGE_SIZE);
    if !Here(vm, va / PAGE_SIZE) {
      WordMisses(v, va, 0);
    } else if InPage(vm, va, 4) {
      SamePage(vm, v, va);
      SameWord(vm, v, va);
      WordHits(v, va);
    }
  }

  lemma HereSame(vm: Vm, r: Vm, q: nat)
    requires Entry(r.mem, 0, q) == Entry(vm.mem, 0, q)
    ensures Here(r, q) == Here(vm, q)
  {}

  /** Where line k stores its word, and the context while it does. */
  predicate StoresOn(lines: seq<Isa.Line>, k: nat, c: Cpu.Ctx, va: Word, w: Word, during: Cpu.Ctx)
    requires k < |lines| <= 21 && Cpu.CtxOk(c)
  {
    || (exists a, b | 1 <= a <= 10 && 1 <= b <= 10 ::
          && lines[k] == Isa.Line(Isa.Movrm, [Isa.Reg(a), Isa.Reg(b)])
          && va == ToWord(c.regs[a]) && w == ToWord(c.regs[b]) && during == c)
    || (lines[k] == Isa.Line(Isa.Pushi, [Isa.Imm(w)]) && va == ToWord(c.sp - 4) && during == c.(sp := va))
  }

  /** A store on line k to a page that is, or is not, resident. */
  lemma StoreLine(vm: Vm, lines: seq<Isa.Line>, k: nat, c: Cpu.Ctx, va: Word, w: Word, during: Cpu.Ctx)
    requires OnLine(vm, lines, k, c) && |lines| <= 21 && StoresOn(lines, k, c, va, w, during)
    requires IsValidVaddr(vm.sizes[0], va)
    ensures var v, s := AfterTouch(vm, CODE_PAGE), Cpu.CpuStep(c, SpaceOf(vm, 0));
      && Shape(v)
      && (!Here(vm, va / PAGE_SIZE) ==> s == Cpu.Result(during, v.mem, Cpu.Faulted(va / PAGE_SIZE)))
      && (Here(vm, va / PAGE_SIZE) && InPage(vm, va, 4) && !InSharedWindow(va / PAGE_SIZE) ==>
            s == Cpu.Result(Past(during, k), Cpu.Write32(SpaceOf(v, 0), va, w).mem, Cpu.Continue)
            && Stored(v, vm.(mem := s.mem), va / PAGE_SIZE)
            && forall x: Word | Private(x) :: ByteAt(vm.(mem := s.mem), 0, x) == Patched(ByteAt(vm, 0, x), x, va, w, 4))
  {
    hide Inv, Roomy, Live, View, Isa.Assemble, CodePage, Here, AfterTouch, Cpu.CpuStep, Cpu.Write32, InPage, ToWord,
         IsValidVaddr, Stored, Patched;
    LineStep(vm, lines, k, c);
    TouchFacts(vm, CODE_PAGE);
    var v := AfterTouch(vm, CODE_PAGE);
    HereSame(vm, v, va / PAGE_SIZE);
    if !Here(vm, va / PAGE_SIZE) {
      WordMisses(v, va, w);
    } else if InPage(vm, va, 4) && !InSharedWindow(va / PAGE_SIZE) {
      SamePage(vm, v, va);
      WordStored(v, va, w);
      forall x: Word ensures ByteAt(v, 0, x) == ByteAt(vm, 0, x) { SameByte(vm, v, x); }
      assert v.(mem := Cpu.Write32(SpaceOf(v, 0), va, w).mem) == vm.(mem := Cpu.Write32(SpaceOf(v, 0), va, w).mem);
    }
  }

  /** A copy on line k whose source is resident and whose destination page is, or is not. */
  lemma MoveLine(vm: Vm, lines: seq<Isa.Line>, k: nat, c: Cpu.Ctx, src: Word, dst: Word, during: Cpu.Ctx)
    requires OnLine(vm, lines, k, c) && Args(lines, k).Some? && Cpu.CtxOk(during)
    requires var (a, b) := Args(lines, k).value;
      Cpu.RegsOk(lines[k].op, a, b) && Cpu.EffectOf(Past(c, k), lines[k].op, a, b) == Cpu.Move(src, dst, during)
    requires Here(vm, src / PAGE_SIZE) && InPage(vm, src, 4) && IsValidVaddr(vm.sizes[0], dst)
    ensures var v, s := AfterTouch(AfterTouch(vm, CODE_PAGE), src / PAGE_SIZE), Cpu.CpuStep(c, SpaceOf(vm, 0));
      && Shape(v) && |v.pids| == 1
      && (!Here(vm, dst / PAGE_SIZE) ==> s == Cpu.Result(during.(ip := c.ip), v.mem, Cpu.Faulted(dst / PAGE_SIZE)))
      && (var w := Cpu.Write32(SpaceOf(v, 0), dst, WordAt(vm, 0, src));
          && (w.Done? ==> s == Cpu.Result(during, w.mem, Cpu.Continue))
          && (w.Fault? ==> s == Cpu.Result(during.(ip := c.ip), w.mem, Cpu.Faulted(w.vpage))))
  {
    hide Inv, Roomy, Live, View, Isa.Assemble, Isa.Operands, Cpu.EffectOf, Cpu.RegsOk, CodePage, Here, AfterTouch,
         Cpu.CpuStep, Cpu.Read32, Cpu.Write32, WordAt, InPage, IsValidVaddr;
    LineStep(vm, lines, k, c);
    TouchFacts(vm, CODE_PAGE);
    var u := AfterTouch(vm, CODE_PAGE);
    HereSame(vm, u, src / PAGE_SIZE);
    SamePage(vm, u, src);
    SameWord(vm, u, src);
    WordHits(u, src);
    TouchFacts(u, src / PAGE_SIZE);
    var v := AfterTouch(u, src / PAGE_SIZE);
    HereSame(vm, v, dst / PAGE_SIZE);
    if !Here(vm, dst / PAGE_SIZE) { WordMisses(v, dst, WordAt(vm, 0, src)); }
  }

  /** A word write completes where all its bytes are in bounds and resident. */
  lemma {:induction false} WritesWhereMapped(vm: Vm, va: Word, w: Word, n: nat)
    requires Lone(vm) && |vm.sizes| == 1 && n <= 4
    requires forall k: nat | k < n :: IsValidVaddr(vm.sizes[0], Cpu.At(va, k)) && Here(vm, Cpu.At(va, k) / PAGE_SIZE)
    ensures Cpu.WriteBytes(SpaceOf(vm, 0), va, w, n).Done?
  {
    hide Inv, Roomy, Live, WriteByte, IsValidVaddr, ByteAt;
    if n > 0 {
      WritesWhereMapped(vm, va, w, n - 1);
      var k := WriteBytesIsFlat(vm, 0, va, w, n - 1);
      var v := vm.(mem := Cpu.WriteBytes(SpaceOf(vm, 0), va, w, n - 1).mem);
      assert Resident(v, 0, Cpu.At(va, n - 1) / PAGE_SIZE);
      MappedWrites(v, Cpu.At(va, n - 1), Isa.WordByte(w, n - 1));
    }
  }

  lemma MappedWrites(vm: Vm, va: Word, b: Byte)
    requires Inv(vm) && |vm.pids| == |vm.sizes| == 1 && IsValidVaddr(vm.sizes[0], va) && Here(vm, va / PAGE_SIZE)
    ensures WriteByte(vm.mem, 0, vm.sizes[0], va, b).Done?
  {
    assert Backed(vm, 0, va / PAGE_SIZE);
  }

  /** A word write over a page edge whose far page is not resident stops there. */
  lemma EdgeFault(vm: Vm, va: Word, w: Word, n: nat)
    requires Lone(vm) && |vm.sizes| == 1 && 0 < n < 4 && InPage(vm, va, n) && Here(vm, va / PAGE_SIZE)
    requires !InSharedWindow(va / PAGE_SIZE)
    requires IsValidVaddr(vm.sizes[0], Cpu.At(va, n)) && !Here(vm, Cpu.At(va, n) / PAGE_SIZE)
    ensures var r := Cpu.Write32(SpaceOf(vm, 0), va, w);
      r.Fault? && r.vpage == Cpu.At(va, n) / PAGE_SIZE && Stored(vm, vm.(mem := r.mem), va / PAGE_SIZE)
  {
    hide Inv, Roomy, Live, WriteByte, IsValidVaddr, InPage, Here, View, Stack, PageFree, Entry, Cpu.At;
    BytesStored(vm, va, w, n);
    var v := vm.(mem := Cpu.WriteBytes(SpaceOf(vm, 0), va, w, n).mem);
    ByteMisses(v, Cpu.At(va, n), Isa.WordByte(w, n));
    var f := Fault(v.mem, Cpu.At(va, n) / PAGE_SIZE);
    assert Cpu.WriteBytes(SpaceOf(vm, 0), va, w, n + 1) == f;
    assert n + 1 < 4 ==> Cpu.WriteBytes(SpaceOf(vm, 0), va, w, n + 2) == f;
    assert n + 2 < 4 ==> Cpu.WriteBytes(SpaceOf(vm, 0), va, w, n + 3) == f;
  }

  // ---- Quanta ---------------------------------------------------------------------------------------------

  /** The quantum of process 0 from (vm, c) gets to (v, d) with n steps left. */
  ghost predicate Reached(vm: Vm, c: Cpu.Ctx, v: Vm, d: Cpu.Ctx, n: nat)
    requires Shape(vm) && |vm.pids| == 1 && Cpu.CtxOk(c)
  {
    && Shape(v) && v == vm.(mem := v.mem) && Cpu.CtxOk(d)
    && Cpu.RunSteps(c, SpaceOf(vm, 0), K.QUANTUM) == Cpu.RunSteps(d, SpaceOf(v, 0), n)
  }

  lemma Begin(vm: Vm, c: Cpu.Ctx)
    requires Shape(vm) && |vm.pids| == 1 && Cpu.CtxOk(c)
    ensures Reached(vm, c, vm, c, K.QUANTUM)
  {
    hide Cpu.RunSteps;
  }

  lemma Advance(vm: Vm, c: Cpu.Ctx, v: Vm, d: Cpu.Ctx, n: nat, w: Vm, e: Cpu.Ctx)
    requires Shape(vm) && |vm.pids| == 1 && Cpu.CtxOk(c) && Reached(vm, c, v, d, n) && n > 0
    requires Cpu.CpuStep(d, SpaceOf(v, 0)) == Cpu.Result(e, w.mem, Cpu.Continue) && w == v.(mem := w.mem)
    ensures Reached(vm, c, w, e, n - 1)
  {
    hide Cpu.CpuStep;
  }

  lemma Stop(vm: Vm, c: Cpu.Ctx, v: Vm, d: Cpu.Ctx, n: nat, w: Vm, e: Cpu.Ctx, o: Cpu.Outcome)
    requires Shape(vm) && |vm.pids| == 1 && Cpu.CtxOk(c) && Reached(vm, c, v, d, n) && n > 0
    requires Cpu.CpuStep(d, SpaceOf(v, 0)) == Cpu.Result(e, w.mem, o) && w == v.(mem := w.mem) && o != Cpu.Continue
    ensures StoppedAt(vm, 0, c) == (w, e, o)
  {
    hide Cpu.CpuStep;
    var r := Cpu.RunSteps(c, SpaceOf(vm, 0), K.QUANTUM);
    assert r == Cpu.Result(e, w.mem, o);
  }

  // ---- Turns -------------------------------------------------------------------------------------------------

  /** The system has one process, and it is ready. */
  ghost predicate LoneOs(os: K.Os) {
    K.OsInv(os) && Lone(os.vm) && |os.ctxs| == |os.sched.tasks| == 1 && os.sched.tasks[0].state == Sched.Ready
    && Cpu.CtxOk(os.ctxs[0])
  }

  lemma AsleepWaits(s: Sched.Sched)
    requires SI.SchedInv(s) && |s.tasks| == 1 && s.sleeping != []
    ensures s.tasks[0].state == Sched.WaitingSleep
  {
    assert s.tasks[s.sleeping[0]].state == Sched.WaitingSleep;
  }

  lemma LonePick(s: Sched.Sched)
    requires SI.SchedInv(s) && |s.tasks| == 1 && s.tasks[0].state == Sched.Ready
    ensures K.Picked(s).1 == Some(0)
  {
    SR.ExactlyOnePlace(s, 0);
    if s.sleeping != [] { AsleepWaits(s); }
    var p := SI.OccursSomewhere(s.ready, 0);
    SI.PickServes(s);
    assert s.ready[p] != [];
    assert SI.InReady(s, p, s.ready[p][0]);
    K.PickedServes(s);
  }

  /** A turn of the lone process that ends in a fault or in a call after which it is ready again. */
  lemma LoneTurn(os: K.Os, v: Vm, d: Cpu.Ctx, o: Cpu.Outcome)
    requires LoneOs(os) && StoppedAt(os.vm, 0, os.ctxs[0]) == (v, d, o) && K.TrapOk(d, o) && K.StopOf(d, o).Yield?
    ensures Shape(v) && |v.pids| == 1 && CanTake(v)
    ensures var r, op := K.Turn(os).os, K.OpOf(v, 0, d, o);
      && K.Turn(os).Next? && K.OsInv(r) && |r.ctxs| == |r.sched.tasks| == 1 && r.sched.tasks[0].state == Sched.Ready
      && r.vm == (if op.Some? then Step(v, op.value) else v) && r.ctxs == [K.Answered(v, 0, d, o)]
      && (System.SafeTurn(os) <==> (op.Some? ==> SafeOp(v, op.value)))
  {
    hide Inv, Roomy, Live, Cpu.RunSteps, System.SafeTurn, Alloc, PageIn, Cleanup, Free, MapShared, CanTake, Step, SafeOp,
         SI.SchedInv, SI.Serving, K.Picked, Sched.Handle, K.OpOf, K.Served, K.Answered, K.Throws;
    LonePick(os.sched);
    var c, s := os.ctxs[0], K.Picked(os.sched).0;
    assert K.Aligned(os, 0);
    RanKeepsInv(os.vm, 0, c);
    ServedIsStep(v, 0, d, o);
    System.TurnKeepsInv(os);
    var s1 := Sched.SetState(s, 0, Sched.Running);
    NeverThrows(v, d, o);
    assert K.Turn(os) == K.Dispatch(os.(sched := s1), 0);
    assert K.Turn(os).os.sched == Sched.Handle(s1, 0, Sched.Yield);
    YieldReady(s1);
    LoneSafe(os, v, d, o);
  }

  lemma LoneSafe(os: K.Os, v: Vm, d: Cpu.Ctx, o: Cpu.Outcome)
    requires LoneOs(os) && StoppedAt(os.vm, 0, os.ctxs[0]) == (v, d, o) && K.TrapOk(d, o)
    ensures Shape(v) && |v.pids| == 1
    ensures var op := K.OpOf(v, 0, d, o); System.SafeTurn(os) <==> (op.Some? ==> SafeOp(v, op.value))
  {
    hide Inv, Roomy, Live, Cpu.RunSteps, CanTake, SafeOp, SI.SchedInv, K.Picked, K.OpOf;
    LonePick(os.sched);
    assert K.Aligned(os, 0);
    RanKeepsInv(os.vm, 0, os.ctxs[0]);
  }

  /** A turn of the lone process that ends it. */
  lemma LoneEnd(os: K.Os, v: Vm, d: Cpu.Ctx, o: Cpu.Outcome)
    requires LoneOs(os) && StoppedAt(os.vm, 0, os.ctxs[0]) == (v, d, o) && K.TrapOk(d, o) && K.StopOf(d, o).Exit?
    ensures var t := K.Turn(os); t.Next? && |t.os.sched.tasks| == 1 && t.os.sched.tasks[0].state == Sched.Terminated
  {
    hide Inv, Roomy, Live, SI.SchedInv, SI.Serving, K.Picked, Sched.Handle, StoppedAt, DispatchTrace, K.Dispatch;
    LonePick(os.sched);
    var s := K.Picked(os.sched).0;
    assert K.Aligned(os, 0);
    System.TurnKeepsInv(os);
    PickedStatus(os.sched, 0);
    var s1 := Sched.SetState(s, 0, Sched.Running);
    DispatchIsRun(os.(sched := s1), 0);
    HandleStatus(s1, 0, K.StopOf(d, o), 0);
  }

  lemma NeverThrows(vm: Vm, c: Cpu.Ctx, o: Cpu.Outcome)
    requires Shape(vm) && |vm.pids| == 1 && K.TrapOk(c, o) && CanTake(vm)
    ensures !K.Throws(vm, 0, c, o)
  {}

  lemma YieldReady(s: Sched.Sched)
    requires Sched.Sized(s) && Sched.QueuesOk(s) && |s.tasks| == 1
    ensures var r := Sched.Handle(s, 0, Sched.Yield); |r.tasks| == 1 && r.tasks[0].state == Sched.Ready
  {}

  // ---- The first creation ------------------------------------------------------------------------------------

  /** Right after creation the one resident page is the code page, dirty; every other page is unused. */
  ghost predicate Fresh(vm: Vm, lines: seq<Isa.Line>) {
    && Runs(vm, lines) && Here(vm, CODE_PAGE) && Entry(vm.mem, 0, CODE_PAGE).isDirty
    && Stack(vm) == [Key(1, CODE_PAGE)] && vm.heaps == [map[]] && |vm.mem.tables[0]| == TABLE_PAGES
    && forall q: nat | q != CODE_PAGE :: PageFree(vm, 0, q)
  }

  lemma {:induction false} WrittenIsDirty(m: Mem, i: nat, codeSize: nat, code: seq<Byte>, n: nat, k: nat)
    requires i < |m.tables| && k < n <= |code| <= 0xE000 && WriteCode(m, i, codeSize, code, n).Done?
    ensures Entry(WriteCode(m, i, codeSize, code, n).mem, i, (CODE_BASE + k) / PAGE_SIZE).isDirty
  {
    if k < n - 1 { WrittenIsDirty(m, i, codeSize, code, n - 1, k); }
  }

  lemma {:induction false} TouchesOne(k: Key, n: nat)
    requires k == Key(k.pid, CODE_PAGE) && n <= PAGE_SIZE
    ensures Cold.Touches([k], k.pid, n) == [k]
  {
    if n > 0 {
      TouchesOne(k, n - 1);
      assert (CODE_BASE + n - 1) / PAGE_SIZE == CODE_PAGE;
      assert [k][1..] == [] && Without([k], {k}) == [];
    }
  }

  /** What creation leaves besides the view and the recency order. */
  lemma CreatedEntries(vm: Vm, code: seq<Byte>)
    requires Inv(vm) && 0 < |code| <= PAGE_SIZE && Create(vm, code).1
    ensures var r, i := Create(vm, code).0, |vm.pids|;
      && r.heaps == vm.heaps + [map[]] && r.sizes == vm.sizes + [|code|] && i < |r.mem.tables| && |r.mem.tables[i]| == TABLE_PAGES
      && Entry(r.mem, i, CODE_PAGE).isDirty && |r.pids| == i + 1
      && forall q: nat | q != CODE_PAGE :: PageFree(r, i, q)
  {
    hide Inv, LoadPages, WriteCode, AddProcess;
    InvShape(vm);
    var i, vm1 := |vm.pids|, AddProcess(vm, |code|);
    Cold.AddProcessStack(vm, |code|);
    AddedColumns(vm, |code|);
    AddProcessInv(vm, |code|);
    var n := (CODE_BASE + |code| - 1) / PAGE_SIZE - CODE_PAGE + 1;
    assert n == 1;
    LoadPagesInv(vm1, i, CODE_PAGE, n);
    LoadPagesEffect(vm1, i, CODE_PAGE, n);
    var vm2 := LoadPages(vm1, i, CODE_PAGE, n).0;
    ValidInRange(vm2, i);
    WriteCodeEffect(vm2.mem, i, code, |code|);
    WrittenIsDirty(vm2.mem, i, |code|, code, |code|, 0);
    forall q: nat | q != CODE_PAGE ensures PageFree(Create(vm, code).0, i, q) {
      assert PageFree(vm1, i, q);
    }
  }

  lemma AddedColumns(vm: Vm, codeSize: nat)
    requires Shape(vm)
    ensures var r := AddProcess(vm, codeSize); r.heaps == vm.heaps + [map[]] && r.sizes == vm.sizes + [codeSize]
  {}

  lemma Created(numFrames: nat, lines: seq<Isa.Line>)
    requires NUM_SHARED < numFrames <= MAX_FRAMES && Short(lines)
    ensures var vm := Create(Boot(numFrames), Image(lines)).0;
      Create(Boot(numFrames), Image(lines)).1 && Fresh(vm, lines) && |vm.mem.frames| == numFrames
  {
    hide Inv, Roomy, Create, Boot, Live, Stack, View, PageFree, FreeCount, CodeImage, Cold.Touches;
    var vm, code := Boot(numFrames), Image(lines);
    BootInv(numFrames);
    Cold.BootFree(numFrames);
    assert CodePages(|code|) == 1;
    CreatesIffFree(vm, code);
    CreateInv(vm, code);
    Cold.CreatedStack(vm, code);
    CreatedEntries(vm, code);
    CreateView(vm, code, 0, CODE_PAGE);
    LP.CodeResident(vm, code);
    BootColumns(numFrames);
    assert HA.RangeKeys(1, CODE_PAGE, 1) + [] == [Key(1, CODE_PAGE)];
    TouchesOne(Key(1, CODE_PAGE), |code|);
  }

  lemma BootColumns(numFrames: nat)
    requires NUM_SHARED <= numFrames <= MAX_FRAMES
    ensures Boot(numFrames).sizes == [] && Boot(numFrames).heaps == []
  {}

  // ---- Events -----------------------------------------------------------------------------------------------

  function Creates(lines: seq<Isa.Line>): System.Event
    requires Short(lines)
  {
    System.Creation(Image(lines), 1)
  }

  /** The program is created and the loop then makes n turns. */
  function Story(lines: seq<Isa.Line>, n: nat): (events: seq<System.Event>)
    requires Short(lines)
    ensures System.Loadable(events)
  {
    [Creates(lines)] + System.Loops(n)
  }

  /** The system then, and whether all turns were safe. */
  ghost function At(numFrames: nat, lines: seq<Isa.Line>, n: nat): (os: K.Os)
    requires NUM_SHARED < numFrames <= MAX_FRAMES && Short(lines)
    ensures K.OsInv(os)
  {
    System.After(numFrames, Story(lines, n))
  }

  ghost predicate SafeSoFar(numFrames: nat, lines: seq<Isa.Line>, n: nat)
    requires NUM_SHARED < numFrames <= MAX_FRAMES && Short(lines)
  {
    System.SafeEvents(numFrames, Story(lines, n))
  }

  lemma StoryStarts(numFrames: nat, lines: seq<Isa.Line>)
    requires NUM_SHARED < numFrames <= MAX_FRAMES && Short(lines)
    ensures var os := At(numFrames, lines, 0);
      && LoneOs(os) && Fresh(os.vm, lines) && os.ctxs == [System.InitialCtx()] && |os.vm.mem.frames| == numFrames
    ensures SafeSoFar(numFrames, lines, 0)
  {
    hide Inv, Roomy, Create, Boot, Live, Stack, View, PageFree, CodeImage, SI.SchedInv, K.Turn;
    var events := Story(lines, 0);
    assert events[..0] == [] && |events| == 1 && events[0] == Creates(lines);
    Created(numFrames, lines);
    var os0 := System.After(numFrames, []);
    System.CreateProcessInv(os0, Image(lines), 1);
    assert events[..|events| - 1] == [];
    assert System.SafeEvents(numFrames, []);
  }

  lemma StoryCreates(numFrames: nat, lines: seq<Isa.Line>)
    requires NUM_SHARED < numFrames <= MAX_FRAMES && Short(lines)
    ensures At(numFrames, lines, 0).vm == Create(Boot(numFrames), Image(lines)).0
  {
    hide Inv, Roomy, Create, Boot, SI.SchedInv, K.Turn;
    var events := Story(lines, 0);
    assert events[..0] == [] && |events| == 1 && events[0] == Creates(lines);
    var os0 := System.After(numFrames, []);
    System.CreateProcessInv(os0, Image(lines), 1);
    assert events[..|events| - 1] == [];
  }

  /** The story as a run of the paging system. */
  lemma StoryIsRun(numFrames: nat, lines: seq<Isa.Line>, n: nat)
    requires NUM_SHARED < numFrames <= MAX_FRAMES && Short(lines)
    ensures At(numFrames, lines, n).vm == Run(Boot(numFrames), System.SystemTrace(numFrames, Story(lines, n)))
  {
    hide K.OsInv, Run, Boot, System.SystemTrace, System.After;
    System.SystemRunsPaging(numFrames, Story(lines, n));
  }

  lemma StoryGoesOn(numFrames: nat, lines: seq<Isa.Line>, n: nat)
    requires NUM_SHARED < numFrames <= MAX_FRAMES && Short(lines) && n > 0
    ensures var t := K.Turn(At(numFrames, lines, n - 1)); !t.Escaped? && At(numFrames, lines, n) == t.os
    ensures SafeSoFar(numFrames, lines, n) <==>
            SafeSoFar(numFrames, lines, n - 1) && System.SafeTurn(At(numFrames, lines, n - 1))
  {
    hide K.Turn, K.OsInv, System.SafeTurn;
    var events := Story(lines, n);
    assert events[..|events| - 1] == Story(lines, n - 1);
    assert events[|events| - 1] == System.LoopTurn;
    System.TurnKeepsInv(At(numFrames, lines, n - 1));
  }

  /** One more turn of the story, known by where its quantum stops. */
  lemma NextTurn(numFrames: nat, lines: seq<Isa.Line>, n: nat, v: Vm, d: Cpu.Ctx, o: Cpu.Outcome)
    requires NUM_SHARED < numFrames <= MAX_FRAMES && Short(lines) && LoneOs(At(numFrames, lines, n))
    requires K.TrapOk(d, o) && K.StopOf(d, o).Yield?
    requires var os := At(numFrames, lines, n); StoppedAt(os.vm, 0, os.ctxs[0]) == (v, d, o)
    ensures Shape(v) && |v.pids| == 1
    ensures var r, op := At(numFrames, lines, n + 1), K.OpOf(v, 0, d, o);
      && |r.ctxs| == |r.sched.tasks| == 1 && r.ctxs == [K.Answered(v, 0, d, o)]
      && r.vm == (if op.Some? then Step(v, op.value) else v)
      && (Lone(r.vm) ==> LoneOs(r))
      && (SafeSoFar(numFrames, lines, n + 1) <==> SafeSoFar(numFrames, lines, n) && (op.Some? ==> SafeOp(v, op.value)))
  {
    hide K.Turn, K.OsInv, System.SafeTurn, At, SafeSoFar, K.OpOf, K.Answered, Lone, Step, SafeOp;
    StoryGoesOn(numFrames, lines, n + 1);
    LoneTurn(At(numFrames, lines, n), v, d, o);
  }

  // ---- Shorthands for following a story ---------------------------------------------------------------------

  /** A program assembles if each of its lines does. */
  lemma {:induction false} AssemblesUpTo(lines: seq<Isa.Line>, n: nat)
    requires n <= |lines| && forall k | 0 <= k < |lines| :: Isa.AssembleLine(lines[k]).Some?
    ensures Isa.Assemble(lines[..n]).Some? && lines[..|lines|] == lines
  {
    if n > 0 {
      AssemblesUpTo(lines, n - 1);
      assert lines[..n][..n - 1] == lines[..n - 1];
    }
  }

  /** An unused page is not resident and reads as zeros. */
  lemma UnusedPage(vm: Vm, q: nat)
    requires Shape(vm) && |vm.pids| == 1 && PageFree(vm, 0, q)
    ensures !Here(vm, q) && View(vm, 0, q) == ZeroPage()
  {}

  lemma MoveAlone(k: Key)
    ensures MoveToFront([k], k) == [k]
  {
    assert [k][1..] == [] && Without([k], {k}) == [];
  }

  lemma NoneEvicted(vm: Vm)
    requires Lone(vm) && HasFree(vm.mem)
    ensures CanTake(vm) && forall x: nat :: !Evicts(vm, x)
  {
    LoneTakes(vm);
  }

  lemma ServedFault(vm: Vm, c: Cpu.Ctx, q: nat)
    requires Lone(vm) && Cpu.CtxOk(c) && !Here(vm, q)
    ensures var o := Cpu.Faulted(q);
      && K.TrapOk(c, o) && K.StopOf(c, o).Yield? && K.OpOf(vm, 0, c, o) == Some(PageFault(0, q)) && K.Answered(vm, 0, c, o) == c
    ensures CanTake(vm) && Step(vm, PageFault(0, q)) == PageIn(vm, 0, q)
  {
    hide Inv, Roomy, Live, CanTake, PageIn, Step;
    FaultIn(vm, q);
  }

  lemma StoredPages(vm: Vm, r: Vm, q: nat)
    requires Stored(vm, r, q)
    ensures Lone(r) && Entry(r.mem, 0, q).isDirty && Here(r, q) && |vm.pids| == 1 && r.heaps == vm.heaps
    ensures forall x: nat | x != q :: Entry(r.mem, 0, x) == Entry(vm.mem, 0, x) && Here(r, x) == Here(vm, x)
    ensures forall x: nat :: PageFree(r, 0, x) == PageFree(vm, 0, x)
    ensures Stack(r) == MoveToFront(Stack(vm), Key(1, q)) && |r.mem.frames| == |vm.mem.frames|
    ensures |r.mem.tables[0]| == |vm.mem.tables[0]|
  {}

  /** The state right after creation, and after the first fetch: only the code page is resident. */
  lemma Settled(numFrames: nat, lines: seq<Isa.Line>)
    requires NUM_SHARED < numFrames <= MAX_FRAMES && Short(lines)
    ensures var os := At(numFrames, lines, 0);
      && LoneOs(os) && Fresh(os.vm, lines) && os.ctxs == [System.InitialCtx()]
      && OnLine(os.vm, lines, 0, System.InitialCtx()) && forall q: nat | q != CODE_PAGE :: !Here(os.vm, q)
    ensures SafeSoFar(numFrames, lines, 0)
    ensures var vm := At(numFrames, lines, 0).vm; var v := AfterTouch(vm, CODE_PAGE);
      && Fresh(v, lines) && v == vm.(mem := v.mem) && AfterTouch(v, CODE_PAGE) == v && |v.mem.frames| == numFrames
      && forall q: nat | q != CODE_PAGE :: !Here(v, q) && View(v, 0, q) == ZeroPage()
  {
    hide Inv, Roomy, Live, Stack, View, PageFree, CodePage, Entry, Isa.Assemble, At, SafeSoFar, K.OsInv, Here;
    StoryStarts(numFrames, lines);
    var vm := At(numFrames, lines, 0).vm;
    TouchFacts(vm, CODE_PAGE);
    MoveAlone(Key(1, CODE_PAGE));
    var v := AfterTouch(vm, CODE_PAGE);
    HereSame(vm, v, CODE_PAGE);
    forall q: nat | q != CODE_PAGE ensures !Here(vm, q) && !Here(v, q) && View(v, 0, q) == ZeroPage() {
      assert PageFree(v, 0, q) && PageFree(vm, 0, q);
      UnusedPage(v, q);
      UnusedPage(vm, q);
    }
  }

  /** The first fault of a fresh process in a memory with frames to spare: two pages are resident after it. */
  lemma FirstFault(v: Vm, lines: seq<Isa.Line>, q: nat)
    requires Fresh(v, lines) && |v.mem.frames| >= 6 && !Here(v, q) && q != CODE_PAGE
    requires forall x: nat | x != CODE_PAGE :: !Here(v, x)
    ensures CanTake(v) && HasFree(v.mem)
    ensures var w := PageIn(v, 0, q);
      && Runs(w, lines) && Here(w, CODE_PAGE) && Here(w, q) && HasFree(w.mem) && |w.mem.frames| == |v.mem.frames|
      && forall x: nat | x != CODE_PAGE && x != q && !InSharedWindow(x) :: !Here(w, x)
  {
    hide Inv, Roomy, Live, Stack, View, PageFree, CodePage, Entry, Isa.Assemble, Here, CanTake, PageIn, Evicts;
    FullIff(v);
    NoneEvicted(v);
    FaultIn(v, q);
    FaultOther(v, q, CODE_PAGE);
    FaultRuns(v, q, lines);
    FullIff(PageIn(v, 0, q));
    forall x: nat | x != CODE_PAGE && x != q && !InSharedWindow(x) ensures !Here(PageIn(v, 0, q), x) { FaultOther(v, q, x); }
  }
}
