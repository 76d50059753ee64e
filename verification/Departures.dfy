/** Runs of the real system that depart from its intent: a byte lost by a second eviction, live allocations
    that overlap, an owned frame no page table names, and frames no process owns. */
module Departures {
  import opened Basics
  import opened Lru
  import opened Memory
  import opened Paging
  import opened FrameInvariant
  import opened PagingRuns
  import opened FlatMemory
  import opened DiskRoundTrip
  import opened StackProperty
  import opened HeapAllocator
  import opened HeapDisjointness
  import opened FlatInstructions
  import opened OwnerMap
  import opened Leaks
  import opened KernelRuns
  import opened Execution
  import Cpu = Processor
  import Isa = Instructions
  import K = Kernel
  import Sched = Scheduling
  import SI = SchedulerInvariant
  import System
  import Cold = ColdStart
  import Restart

  // ---- A run that loses a byte --------------------------------------------------------------------------

  /** A load from an untouched page. */
  const LOST: seq<Isa.Line> := [
    Isa.Line(Isa.Movi, [Isa.Reg(2), Isa.Imm(0x4000)]),
    Isa.Line(Isa.Movmr, [Isa.Reg(1), Isa.Reg(2)])]

  lemma LostAssembles()
    ensures Short(LOST)
  {
    assert LOST[..1] == [LOST[0]] && LOST[..1][..0] == [];
    assert Isa.Assemble([]).Some? && Isa.Assemble(LOST[..1]).Some?;
  }

  /** With its bottom page private, taking a frame is safe iff that page is dirty or zero. */
  lemma SafeIffBottom(vm: Vm, b: nat)
    requires Lone(vm) && !HasFree(vm.mem) && !InSharedWindow(b)
    requires |Stack(vm)| > 0 && Stack(vm)[|Stack(vm)| - 1] == Key(1, b)
    ensures CanTake(vm) && (SafeTake(vm) <==> DirtyOrZero(vm, 0, b))
  {
    hide Inv, Stack, CanTake, DirtyOrZero;
    EvictsBottom(vm, b);
    forall j: nat, q: nat | j < |vm.pids| && Holds(vm, TakenFrame(vm), j, q) ensures j == 0 && q == b {
      EvictsBottom(vm, q);
    }
  }

  /** One evictable frame: the page in it is evicted by the next fault. */
  lemma OneFrame(vm: Vm, b: nat, q: nat)
    requires Lone(vm) && |vm.mem.frames| == 3 && Stack(vm) == [Key(1, b)] && !InSharedWindow(b) && b != q && !Here(vm, q)
    ensures CanTake(vm) && Evicts(vm, b) && !HasFree(vm.mem) && (SafeTake(vm) <==> DirtyOrZero(vm, 0, b))
    ensures var r := PageIn(vm, 0, q); Lone(r) && |r.mem.frames| == 3 && Stack(r) == [Key(1, q)] && !Here(r, b)
  {
    hide Inv, Stack, CanTake, DirtyOrZero, PageIn, SafeTake;
    FullIff(vm);
    EvictsBottom(vm, b);
    SafeIffBottom(vm, b);
    FaultIn(vm, q);
    FaultOther(vm, q, b);
  }

  /** The context in which line 1 faults again and again. */
  function LostCtx(): (c: Cpu.Ctx)
    ensures Cpu.CtxOk(c) && c.ip == CODE_BASE + 12 && c.regs[2] == 0x4000
  {
    Cpu.SetReg(Past(System.InitialCtx(), 0), 2, 0x4000)
  }

  /** Between two turns of this program: one page resident, line 1 up next. */
  ghost predicate Between(os: K.Os, resident: nat) {
    && LoneOs(os) && |os.vm.mem.frames| == 3 && os.vm.sizes == [24] && Stack(os.vm) == [Key(1, resident)]
    && Here(os.vm, resident) && os.ctxs == [LostCtx()]
  }

  /** The next turn stops at a fault on page q, which takes the frame of page b. */
  lemma LostTurn(n: nat, v: Vm, b: nat, q: nat)
    requires Short(LOST) && b != q && !InSharedWindow(b)
    requires var os := At(3, LOST, n); LoneOs(os) && StoppedAt(os.vm, 0, os.ctxs[0]) == (v, LostCtx(), Cpu.Faulted(q))
    requires Lone(v) && |v.mem.frames| == 3 && v.sizes == [24] && Stack(v) == [Key(1, b)] && !Here(v, q)
    ensures CanTake(v) && Evicts(v, b) && At(3, LOST, n + 1).vm == PageIn(v, 0, q)
    ensures Between(At(3, LOST, n + 1), q) && !Here(At(3, LOST, n + 1).vm, b)
    ensures SafeSoFar(3, LOST, n + 1) <==> SafeSoFar(3, LOST, n) && DirtyOrZero(v, 0, b)
  {
    hide Inv, Roomy, Live, Stack, CanTake, PageIn, Evicts, Here, StoppedAt, At, SafeSoFar, Entry, DirtyOrZero,
         K.OsInv, SafeTake, LostCtx;
    OneFrame(v, b, q);
    FaultIn(v, q);
    NextTurn(3, LOST, n, v, LostCtx(), Cpu.Faulted(q));
  }

  lemma LostFirst()
    ensures Short(LOST) && Between(At(3, LOST, 1), 0x40) && !Here(At(3, LOST, 1).vm, 0x10)
    ensures Runs(At(3, LOST, 1).vm, LOST)
    ensures View(At(3, LOST, 1).vm, 0, 0x40) == ZeroPage() && SafeSoFar(3, LOST, 1)
  {
    hide Inv, Roomy, Live, Stack, CanTake, PageIn, Evicts, StoppedAt, At, SafeSoFar, View, K.OsInv, SafeTake,
         CodePage, Isa.Assemble, Cpu.CpuStep, AfterTouch, Entry;
    LostAssembles();
    Settled(3, LOST);
    var vm, c := At(3, LOST, 0).vm, System.InitialCtx();
    var v := AfterTouch(vm, CODE_PAGE);
    Begin(vm, c);
    MoviLine(vm, LOST, 0, c, 2, 0x4000);
    Advance(vm, c, vm, c, K.QUANTUM, v, LostCtx());
    MovmrLine(v, LOST, 1, LostCtx(), 1, 2);
    Stop(vm, c, v, LostCtx(), K.QUANTUM - 1, v, LostCtx(), Cpu.Faulted(0x40));
    LostTurn(0, v, CODE_PAGE, 0x40);
    FaultRuns(v, 0x40, LOST);
    FaultSelf(v, 0x40);
  }

  lemma LostSecond()
    ensures Short(LOST) && Between(At(3, LOST, 2), 0x10) && !Here(At(3, LOST, 2).vm, 0x40)
    ensures Runs(At(3, LOST, 2).vm, LOST)
    ensures !Entry(At(3, LOST, 2).vm.mem, 0, 0x10).isDirty && SafeSoFar(3, LOST, 2)
  {
    hide Inv, Roomy, Live, Stack, CanTake, PageIn, Evicts, StoppedAt, At, SafeSoFar, View, K.OsInv, SafeTake,
         CodePage, Isa.Assemble, Cpu.CpuStep, AfterTouch, Entry, LostCtx, Here;
    LostFirst();
    var vm, c := At(3, LOST, 1).vm, LostCtx();
    assert c.ip / PAGE_SIZE == CODE_PAGE;
    FetchMisses(vm, c);
    Begin(vm, c);
    Stop(vm, c, vm, c, K.QUANTUM, vm, c, Cpu.Faulted(CODE_PAGE));
    LostTurn(1, vm, 0x40, CODE_PAGE);
    FaultIn(vm, CODE_PAGE);
    FaultRuns(vm, CODE_PAGE, LOST);
  }

  lemma LostThird()
    ensures Short(LOST) && Between(At(3, LOST, 3), 0x40) && !Here(At(3, LOST, 3).vm, 0x10)
    ensures View(At(3, LOST, 3).vm, 0, 0x10) == ZeroPage() && !SafeSoFar(3, LOST, 3)
  {
    hide Inv, Roomy, Live, Stack, CanTake, PageIn, Evicts, StoppedAt, At, SafeSoFar, View, K.OsInv, SafeTake,
         CodePage, Isa.Assemble, Cpu.CpuStep, AfterTouch, Entry, LostCtx, Here;
    LostSecond();
    var vm, c := At(3, LOST, 2).vm, LostCtx();
    var v := AfterTouch(vm, CODE_PAGE);
    TouchFacts(vm, CODE_PAGE);
    HereSame(vm, v, 0x40);
    MoveAlone(Key(1, CODE_PAGE));
    Begin(vm, c);
    MovmrLine(vm, LOST, 1, c, 1, 2);
    Stop(vm, c, vm, c, K.QUANTUM, v, c, Cpu.Faulted(0x40));
    LostTurn(2, v, CODE_PAGE, 0x40);
    LostImage();
    FaultOther(v, 0x40, CODE_PAGE);
  }

  lemma LostImage()
    ensures Short(LOST) && CodePage(LOST)[0] == 4 && CodePage(LOST) != ZeroPage()
  {
    hide Isa.Assemble;
    LostAssembles();
    Isa.AssembledLine(LOST, 0);
    assert Image(LOST)[0] == Image(LOST)[12 * 0..12 * 0 + 12][0];
    FirstByte(LOST[0]);
    assert ZeroPage()[0] == 0;
  }

  /** A line starts with the number of its opcode. */
  lemma FirstByte(line: Isa.Line)
    requires Isa.AssembleLine(line).Some? && line.op.Movi?
    ensures Isa.AssembleLine(line).value[0] == 4
  {}

  lemma LostFourth()
    ensures Short(LOST) && Between(At(3, LOST, 4), 0x10) && View(At(3, LOST, 4).vm, 0, 0x10) == ZeroPage()
  {
    hide Inv, Roomy, Live, Stack, CanTake, PageIn, Evicts, StoppedAt, At, SafeSoFar, View, K.OsInv, SafeTake,
         CodePage, Isa.Assemble, Cpu.CpuStep, AfterTouch, Entry, LostCtx, Here;
    LostThird();
    var vm, c := At(3, LOST, 3).vm, LostCtx();
    assert c.ip / PAGE_SIZE == CODE_PAGE;
    FetchMisses(vm, c);
    Begin(vm, c);
    Stop(vm, c, vm, c, K.QUANTUM, vm, c, Cpu.Faulted(CODE_PAGE));
    LostTurn(3, vm, 0x40, CODE_PAGE);
    FaultSelf(vm, CODE_PAGE);
  }

  lemma LostEnd()
    ensures Short(LOST)
    ensures var s := At(3, LOST, 5).sched; |s.tasks| == 1 && s.tasks[0].state == Sched.Terminated
  {
    hide Inv, Roomy, Live, Stack, StoppedAt, At, SafeSoFar, View, K.OsInv, Isa.Assemble, Cpu.CpuStep, AfterTouch,
         Entry, LostCtx, Here;
    LostFourth();
    var vm, c := At(3, LOST, 4).vm, LostCtx();
    var v, d := AfterTouch(vm, CODE_PAGE), c.(ip := Cpu.At(c.ip, 12));
    assert c.ip / PAGE_SIZE == CODE_PAGE && InPage(vm, c.ip, 12);
    TouchFacts(vm, CODE_PAGE);
    ZerosCrash(vm, c);
    Begin(vm, c);
    Stop(vm, c, vm, c, K.QUANTUM, v, d, Cpu.Crashed);
    LoneEnd(At(3, LOST, 4), v, d, Cpu.Crashed);
    StoryGoesOn(3, LOST, 5);
  }

  /** A run of the real system that loses data: three frames, and a program of two instructions that loads from
      an untouched page. Its turns fault on pages 0x40, 0x10 and 0x40 again, each fault taking the one frame from
      the other page. Memory is flat through the second turn; the third loses the program, which was clean since
      it came back from disk. It then fetches zeros and is terminated for an unknown opcode. */
  lemma SecondEvictionLoses()
    ensures Short(LOST)
    ensures SafeSoFar(3, LOST, 2) && !SafeSoFar(3, LOST, 3)
    ensures AlwaysFlat(Boot(3), System.SystemTrace(3, Story(LOST, 2)))
    ensures !AlwaysFlat(Boot(3), System.SystemTrace(3, Story(LOST, 3)))
    ensures View(At(3, LOST, 2).vm, 0, 0x10) == CodePage(LOST) && CodePage(LOST)[0] == 4
    ensures View(At(3, LOST, 3).vm, 0, 0x10) == ZeroPage()
    ensures var s := At(3, LOST, 5).sched; |s.tasks| == 1 && s.tasks[0].state == Sched.Terminated
  {
    hide Inv, Stack, View, K.OsInv, Boot, CodePage, Entry, System.SystemTrace, System.SafeEvents, AlwaysFlat,
         System.After;
    LostSecond();
    LostThird();
    LostImage();
    LostEnd();
    System.SystemIsFlatIffSafe(3, Story(LOST, 2));
    System.SystemIsFlatIffSafe(3, Story(LOST, 3));
  }

  // ---- Overlapping allocations ---

  /** Alloc with a full-size table takes the lowest run of unused pages. */
  lemma AllocTakes(vm: Vm, i: nat, bytes: nat, s: nat)
    requires Inv(vm) && i < |vm.pids| && CanTake(vm) && 0 < bytes <= HEAP_PAGES * PAGE_SIZE
    requires |vm.mem.tables[i]| > HEAP_LAST && s + CeilPages(bytes) <= HEAP_LAST + 1
    requires HEAP_FIRST <= s && RunFree(vm, i, s, CeilPages(bytes))
    requires forall u: nat | HEAP_FIRST <= u < s :: !RunFree(vm, i, u, CeilPages(bytes))
    ensures var n := CeilPages(bytes);
      Alloc(vm, i, bytes) == (GrabRange(vm, i, s, n).(heaps := vm.heaps[i := Record(vm.heaps[i], s * PAGE_SIZE, n)]), s * PAGE_SIZE)
  {
    hide Inv, CanTake, GrabRange, RunFree, FirstFit;
    InvShape(vm);
    PagesNeededExact(bytes);
    FirstFitIsLowest(vm, i, CeilPages(bytes), HEAP_FIRST);
    assert HasRun(vm, i, CeilPages(bytes), HEAP_FIRST);
    assert vm.(mem := GrowTable(vm.mem, i, HEAP_LAST + 1)) == vm;
  }

  /** Recording an allocation changes nothing else. */
  lemma HeapsLone(vm: Vm, heap: map<nat, nat>)
    requires Lone(vm) && HeapOk(heap)
    ensures var r := vm.(heaps := [heap]);
      && Lone(r) && Stack(r) == Stack(vm)
      && (forall x: nat :: PageFree(r, 0, x) == PageFree(vm, 0, x) && View(r, 0, x) == View(vm, 0, x) && Here(r, x) == Here(vm, x))
  {
    HeapsInv(vm, 0, heap);
    assert vm.heaps[0 := heap] == [heap];
  }

  lemma GrabTwo(vm: Vm, i: nat, s: nat)
    requires Shape(vm) && i < |vm.pids| && s + 2 <= |vm.mem.tables[i]| && CanTake(vm)
    ensures GrabRange(vm, i, s, 1) == Grab(vm, i, s)
    ensures GrabRange(vm, i, s, 2) == Grab(Grab(vm, i, s), i, s + 1)
  {
    hide Grab, CanTake;
    assert GrabRange(vm, i, s, 0) == vm;
  }

  /** An Alloc of one page where the first heap page is unused. */
  lemma AllocOnePage(vm: Vm, bytes: nat)
    requires Lone(vm) && |vm.mem.tables[0]| >= TABLE_PAGES && 0 < bytes <= PAGE_SIZE && PageFree(vm, 0, HEAP_FIRST)
    ensures CanTake(vm) && Step(vm, AllocHeap(0, bytes)) == Alloc(vm, 0, bytes).0
    ensures Alloc(vm, 0, bytes) ==
            (PageIn(vm, 0, HEAP_FIRST).(heaps := [Record(vm.heaps[0], HEAP_START, 1)]), HEAP_START)
  {
    hide Inv, CanTake, Grab, GrabRange, PageFree, Alloc, PageIn;
    LoneTakes(vm);
    assert RunFree(vm, 0, HEAP_FIRST, 1);
    AllocTakes(vm, 0, bytes, HEAP_FIRST);
    GrabTwo(vm, 0, HEAP_FIRST);
    GrabIsPageIn(vm, 0, HEAP_FIRST);
    assert vm.heaps[0 := Record(vm.heaps[0], HEAP_START, 1)] == [Record(vm.heaps[0], HEAP_START, 1)];
  }

  /** An Alloc of two pages that finds them at page s. */
  lemma AllocTwoPages(vm: Vm, bytes: nat, s: nat)
    requires Lone(vm) && |vm.mem.tables[0]| >= TABLE_PAGES && PAGE_SIZE < bytes <= 2 * PAGE_SIZE
    requires HEAP_FIRST <= s < HEAP_LAST && PageFree(vm, 0, s) && PageFree(vm, 0, s + 1)
    requires forall u: nat | HEAP_FIRST <= u < s :: !PageFree(vm, 0, u)
    ensures CanTake(vm) && Step(vm, AllocHeap(0, bytes)) == Alloc(vm, 0, bytes).0
    ensures var w := PageIn(vm, 0, s);
      && CanTake(w) && !Here(vm, s) && !Here(w, s + 1) && Lone(w) && PageFree(w, 0, s + 1)
      && Alloc(vm, 0, bytes) ==
         (PageIn(w, 0, s + 1).(heaps := [Record(vm.heaps[0], s * PAGE_SIZE, 2)]), s * PAGE_SIZE)
  {
    hide Inv, CanTake, Grab, GrabRange, PageFree, Alloc, PageIn, Evicts, Stack, View;
    LoneTakes(vm);
    assert CeilPages(bytes) == 2;
    assert RunFree(vm, 0, s, 2);
    forall u: nat | HEAP_FIRST <= u < s ensures !RunFree(vm, 0, u, 2) { assert !PageFree(vm, 0, u); }
    AllocTakes(vm, 0, bytes, s);
    GrabTwo(vm, 0, s);
    GrabIsPageIn(vm, 0, s);
    UnusedPage(vm, s);
    UnusedPage(vm, s + 1);
    FaultIn(vm, s);
    FaultOther(vm, s, s + 1);
    var w := PageIn(vm, 0, s);
    UnusedPage(w, s + 1);
    LoneTakes(w);
    GrabIsPageIn(w, 0, s + 1);
    assert vm.heaps[0 := Record(vm.heaps[0], s * PAGE_SIZE, 2)] == [Record(vm.heaps[0], s * PAGE_SIZE, 2)];
  }

  /** Allocate a page and write to it, allocate two, free the first, and allocate two again. */
  const OVER: seq<Isa.Line> := [
    Isa.Line(Isa.Movi, [Isa.Reg(1), Isa.Imm(256)]),
    Isa.Line(Isa.Alloc, [Isa.Reg(1), Isa.Reg(2)]),
    Isa.Line(Isa.Movrm, [Isa.Reg(2), Isa.Reg(1)]),
    Isa.Line(Isa.Movi, [Isa.Reg(1), Isa.Imm(512)]),
    Isa.Line(Isa.Alloc, [Isa.Reg(1), Isa.Reg(3)]),
    Isa.Line(Isa.FreeMemory, [Isa.Reg(2)]),
    Isa.Line(Isa.Alloc, [Isa.Reg(1), Isa.Reg(4)])]

  lemma OverAssembles()
    ensures Short(OVER)
  {
    AssemblesUpTo(OVER, 7);
  }

  /** Between two turns of this program: pages a and b resident, line k up next, r1 as given, and r2 the address of
      the first allocation. */
  ghost predicate OverAt(os: K.Os, a: nat, b: nat, heap: map<nat, nat>, k: nat, r1: int) {
    && LoneOs(os) && Runs(os.vm, OVER) && |os.vm.mem.frames| == 4 && |os.vm.mem.tables[0]| >= TABLE_PAGES
    && Stack(os.vm) == [Key(1, a), Key(1, b)] && os.vm.heaps == [heap]
    && os.ctxs[0].ip == CODE_BASE + 12 * k && os.ctxs[0].regs[1] == r1 && os.ctxs[0].regs[2] == HEAP_START
  }

  lemma TwoFront(a: Key, b: Key)
    requires a != b
    ensures MoveToFront([a, b], a) == [a, b] && MoveToFront([a, b], b) == [b, a]
  {
    assert [a, b] == [a] + [b];
    WithoutAppend([a], [b], {a});
    WithoutAppend([a], [b], {b});
    assert [a][1..] == [] && [b][1..] == [];
    assert Without([a], {a}) == [] && Without([b], {a}) == [b] && Without([a], {b}) == [a] && Without([b], {b}) == [];
  }

  lemma TwoKept(q: Key, a: Key, b: Key)
    ensures Take([q] + [a, b], 2) == [q, a] && Take([q] + [a], 2) == [q, a]
  {}

  /** With two of four frames taken by pages a and b, and b the older, the next fault takes the frame of b. */
  lemma TwoFrames(vm: Vm, a: nat, b: nat, q: nat)
    requires Lone(vm) && |vm.mem.frames| == 4 && Stack(vm) == [Key(1, a), Key(1, b)] && a != b && !Here(vm, q)
    ensures CanTake(vm) && (forall x: nat :: Evicts(vm, x) <==> x == b) && Stack(PageIn(vm, 0, q)) == [Key(1, q), Key(1, a)]
  {
    hide Inv, Stack, CanTake, PageIn, Evicts;
    FullIff(vm);
    LoneTakes(vm);
    forall x: nat ensures Evicts(vm, x) <==> x == b { EvictsBottom(vm, x); }
    FaultIn(vm, q);
    TwoKept(Key(1, q), Key(1, a), Key(1, b));
  }

  lemma OnStackIsHere(vm: Vm, q: nat)
    requires Lone(vm) && !InSharedWindow(q)
    ensures Here(vm, q) <==> Key(1, q) in Stack(vm)
  {
    OnStackIffResident(vm, Ref(0, q));
  }

  lemma AnsweredAlloc(vm: Vm, c: Cpu.Ctx, a: nat, b: nat)
    requires Shape(vm) && |vm.pids| == 1 && Cpu.CtxOk(c) && 1 <= a <= 10 && 1 <= b <= 10 && c.trapRegA == a
    requires c.trapRegB == b
    requires CanTake(vm)
    ensures var o := Cpu.Trapped(Cpu.Trap.Alloc);
      && K.TrapOk(c, o) && K.StopOf(c, o).Yield? && K.OpOf(vm, 0, c, o) == Some(AllocHeap(0, c.regs[a]))
      && K.Answered(vm, 0, c, o) == Cpu.SetReg(c, b, Alloc(vm, 0, c.regs[a]).1)
  {
    hide Alloc, CanTake;
  }

  /** First turn, up to its system call. */
  lemma OverStarts() returns (v: Vm, d: Cpu.Ctx)
    ensures Short(OVER) && LoneOs(At(4, OVER, 0)) && Fresh(v, OVER) && |v.mem.frames| == 4
    ensures var os := At(4, OVER, 0); StoppedAt(os.vm, 0, os.ctxs[0]) == (v, d, Cpu.Trapped(Cpu.Trap.Alloc))
    ensures Cpu.CtxOk(d) && d.regs[1] == 256 && d.trapRegA == 1 && d.trapRegB == 2 && d.ip == CODE_BASE + 24
  {
    hide Inv, Roomy, Live, Stack, CanTake, PageIn, Evicts, StoppedAt, At, SafeSoFar, View, K.OsInv, CodePage,
         Isa.Assemble, Alloc, Cpu.CpuStep, AfterTouch, Entry, Here, PageFree, Step, K.OpOf, K.Answered, Reached;
    OverAssembles();
    Settled(4, OVER);
    var vm, c := At(4, OVER, 0).vm, System.InitialCtx();
    v := AfterTouch(vm, CODE_PAGE);
    Begin(vm, c);
    MoviLine(vm, OVER, 0, c, 1, 256);
    var c1 := Cpu.SetReg(Past(c, 0), 1, 256);
    Advance(vm, c, vm, c, K.QUANTUM, v, c1);
    AllocLine(v, OVER, 1, c1, 1, 2);
    d := Past(c1, 1).(trapRegA := 1, trapRegB := 2);
    Stop(vm, c, v, c1, K.QUANTUM - 1, v, d, Cpu.Trapped(Cpu.Trap.Alloc));
  }

  /** It gets one page at 0x5000. */
  lemma OverFirst()
    ensures Short(OVER) && OverAt(At(4, OVER, 1), 0x50, 0x10, map[0x5000 := 1], 2, 256)
    ensures var vm := At(4, OVER, 1).vm; Entry(vm.mem, 0, 0x10).isDirty && forall x: nat | 0x51 <= x <= HEAP_LAST :: PageFree(vm, 0, x)
  {
    hide Inv, Roomy, Live, Stack, CanTake, PageIn, Evicts, StoppedAt, At, SafeSoFar, View, K.OsInv, CodePage,
         Isa.Assemble, Alloc, Cpu.CpuStep, AfterTouch, Entry, Here, PageFree, Step, K.OpOf, K.Answered, Reached;
    var v, d := OverStarts();
    assert PageFree(v, 0, 0x50);
    UnusedPage(v, 0x50);
    AllocOnePage(v, 256);
    var w := PageIn(v, 0, 0x50);
    AnsweredAlloc(v, d, 1, 2);
    NextTurn(4, OVER, 0, v, d, Cpu.Trapped(Cpu.Trap.Alloc));
    FaultIn(v, 0x50);
    FullIff(v);
    NoneEvicted(v);
    FaultRuns(v, 0x50, OVER);
    TwoKept(Key(1, 0x50), Key(1, 0x10), Key(1, 0x10));
    HeapsLone(w, map[0x5000 := 1]);
    FaultOther(v, 0x50, 0x10);
    forall x: nat | 0x51 <= x <= HEAP_LAST ensures PageFree(w, 0, x) { FaultOther(v, 0x50, x); }
  }

  lemma OverStoresOn(c: Cpu.Ctx)
    requires Cpu.CtxOk(c) && c.regs[1] == 256 && c.regs[2] == HEAP_START
    ensures StoresOn(OVER, 2, c, 0x5000, 256, c)
  {
    assert OVER[2] == Isa.Line(Isa.Movrm, [Isa.Reg(2), Isa.Reg(1)]);
  }

  /** Second turn: the store makes page 0x50 dirty. */
  lemma OverStores() returns (u: Vm, e: Cpu.Ctx)
    ensures Short(OVER) && OverAt(At(4, OVER, 1), 0x50, 0x10, map[0x5000 := 1], 2, 256)
    ensures var os := At(4, OVER, 1); Reached(os.vm, os.ctxs[0], u, e, K.QUANTUM - 1)
    ensures OnLine(u, OVER, 3, e) && |u.mem.frames| == 4 && |u.mem.tables[0]| >= TABLE_PAGES
    ensures Stack(u) == [Key(1, 0x50), Key(1, 0x10)]
    ensures u.heaps == [map[0x5000 := 1]] && Entry(u.mem, 0, 0x10).isDirty && Entry(u.mem, 0, 0x50).isDirty
    ensures forall x: nat | 0x51 <= x <= HEAP_LAST :: PageFree(u, 0, x)
    ensures e.regs[2] == HEAP_START
  {
    hide Inv, Roomy, Live, Stack, CanTake, PageIn, StoppedAt, At, SafeSoFar, View, K.OsInv, CodePage, Isa.Assemble,
         Cpu.CpuStep, AfterTouch, Entry, Here, PageFree, Reached, StoresOn, Stored;
    OverFirst();
    var vm, c := At(4, OVER, 1).vm, At(4, OVER, 1).ctxs[0];
    OnStackIsHere(vm, 0x10);
    OnStackIsHere(vm, 0x50);
    OverStoresOn(c);
    StoreLine(vm, OVER, 2, c, 0x5000, 256, c);
    u, e := vm.(mem := Cpu.CpuStep(c, SpaceOf(vm, 0)).mem), Past(c, 2);
    Begin(vm, c);
    Advance(vm, c, vm, c, K.QUANTUM, u, e);
    TouchFacts(vm, CODE_PAGE);
    TwoFront(Key(1, 0x50), Key(1, 0x10));
    TwoFront(Key(1, 0x10), Key(1, 0x50));
    StoredPages(AfterTouch(vm, CODE_PAGE), u, 0x50);
    StoredRuns(AfterTouch(vm, CODE_PAGE), u, 0x50, OVER);
    HereSame(vm, AfterTouch(vm, CODE_PAGE), CODE_PAGE);
  }

  /** The fetches after it leave the code page in front when the next system call comes. */
  lemma OverAsks() returns (v: Vm, d: Cpu.Ctx)
    ensures Short(OVER) && OverAt(At(4, OVER, 1), 0x50, 0x10, map[0x5000 := 1], 2, 256)
    ensures var os := At(4, OVER, 1); StoppedAt(os.vm, 0, os.ctxs[0]) == (v, d, Cpu.Trapped(Cpu.Trap.Alloc))
    ensures Runs(v, OVER) && |v.mem.frames| == 4 && |v.mem.tables[0]| >= TABLE_PAGES
    ensures Stack(v) == [Key(1, 0x10), Key(1, 0x50)]
    ensures v.heaps == [map[0x5000 := 1]] && Entry(v.mem, 0, 0x10).isDirty && Entry(v.mem, 0, 0x50).isDirty
    ensures forall x: nat | 0x51 <= x <= HEAP_LAST :: PageFree(v, 0, x)
    ensures Cpu.CtxOk(d) && d.ip == CODE_BASE + 12 * 5 && d.regs[1] == 512 && d.regs[2] == HEAP_START
    ensures d.trapRegA == 1 && d.trapRegB == 3
  {
    hide Inv, Roomy, Live, Stack, CanTake, PageIn, StoppedAt, At, SafeSoFar, View, K.OsInv, CodePage, Isa.Assemble,
         Cpu.CpuStep, AfterTouch, Entry, Here, PageFree, Reached, StoresOn, Stored;
    var u, e := OverStores();
    var vm, c := At(4, OVER, 1).vm, At(4, OVER, 1).ctxs[0];
    var e1 := Cpu.SetReg(Past(e, 3), 1, 512);
    v, d := AfterTouch(u, CODE_PAGE), Past(e1, 4).(trapRegA := 1, trapRegB := 3);
    TouchFacts(u, CODE_PAGE);
    TwoFront(Key(1, 0x50), Key(1, 0x10));
    HereSame(u, v, CODE_PAGE);
    MoviLine(u, OVER, 3, e, 1, 512);
    Advance(vm, c, u, e, K.QUANTUM - 1, v, e1);
    AllocLine(v, OVER, 4, e1, 1, 3);
    Stop(vm, c, v, e1, K.QUANTUM - 2, v, d, Cpu.Trapped(Cpu.Trap.Alloc));
  }

  /** The two pages of the second allocation push out page 0x50 and then the code page, both dirty. */
  lemma OverSecond()
    ensures Short(OVER) && OverAt(At(4, OVER, 2), 0x52, 0x51, map[0x5000 := 1, 0x5100 := 2], 5, 512)
    ensures var vm := At(4, OVER, 2).vm; !Entry(vm.mem, 0, 0x51).isDirty && !PageFree(vm, 0, 0x50)
  {
    hide Inv, Roomy, Live, Stack, CanTake, PageIn, Evicts, StoppedAt, At, SafeSoFar, View, K.OsInv, CodePage,
         Isa.Assemble, Alloc, Cpu.CpuStep, AfterTouch, Entry, Here, PageFree, Step, K.OpOf, K.Answered;
    var v, d := OverAsks();
    OnStackIsHere(v, 0x10);
    OnStackIsHere(v, 0x50);
    HereInUse(v, 0x50);
    AllocTwoPages(v, 512, 0x51);
    AnsweredAlloc(v, d, 1, 3);
    NextTurn(4, OVER, 1, v, d, Cpu.Trapped(Cpu.Trap.Alloc));
    var g, w := PageIn(v, 0, 0x51), PageIn(PageIn(v, 0, 0x51), 0, 0x52);
    TwoFrames(v, 0x10, 0x50, 0x51);
    FaultIn(v, 0x51);
    FaultOther(v, 0x51, 0x10);
    FaultOther(v, 0x51, 0x50);
    FaultRuns(v, 0x51, OVER);
    TwoFrames(g, 0x51, 0x10, 0x52);
    FaultIn(g, 0x52);
    FaultOther(g, 0x52, 0x50);
    FaultOther(g, 0x52, 0x51);
    FaultRuns(g, 0x52, OVER);
    OnStackIsHere(w, 0x51);
    assert Record(map[0x5000 := 1], 0x5100, 2) == map[0x5000 := 1, 0x5100 := 2];
    HeapsLone(w, map[0x5000 := 1, 0x5100 := 2]);
  }

  lemma HereInUse(vm: Vm, q: nat)
    requires |vm.pids| == 1 && Here(vm, q)
    ensures !PageFree(vm, 0, q)
  {}

  /** The next fetch brings the code page back and pushes out page 0x51, clean: it now looks unused. */
  lemma OverThird()
    ensures Short(OVER) && OverAt(At(4, OVER, 3), 0x10, 0x52, map[0x5000 := 1, 0x5100 := 2], 5, 512)
    ensures PageFree(At(4, OVER, 3).vm, 0, 0x51)
  {
    hide Inv, Roomy, Live, Stack, CanTake, PageIn, Evicts, StoppedAt, At, SafeSoFar, View, K.OsInv, CodePage,
         Isa.Assemble, Alloc, Cpu.CpuStep, AfterTouch, Entry, Here, PageFree, Step, K.OpOf, K.Answered;
    OverSecond();
    var vm, c := At(4, OVER, 2).vm, At(4, OVER, 2).ctxs[0];
    assert c.ip / PAGE_SIZE == CODE_PAGE;
    OnStackIsHere(vm, CODE_PAGE);
    FetchMisses(vm, c);
    Begin(vm, c);
    Stop(vm, c, vm, c, K.QUANTUM, vm, c, Cpu.Faulted(CODE_PAGE));
    ServedFault(vm, c, CODE_PAGE);
    NextTurn(4, OVER, 2, vm, c, Cpu.Faulted(CODE_PAGE));
    TwoFrames(vm, 0x52, 0x51, CODE_PAGE);
    FaultIn(vm, CODE_PAGE);
    FaultOther(vm, CODE_PAGE, 0x51);
    FaultRuns(vm, CODE_PAGE, OVER);
  }

  /** Freeing the first allocation, whose page is on disk. */
  lemma FreeFirst(vm: Vm)
    requires Lone(vm) && vm.heaps == [map[0x5000 := 1, 0x5100 := 2]] && !Here(vm, 0x50)
    requires |vm.mem.tables[0]| >= TABLE_PAGES
    ensures var r := Free(vm, 0, 0x5000);
      && Step(vm, FreeHeap(0, 0x5000)) == r && Lone(r) && r.heaps == [map[0x5100 := 2]] && r.sizes == vm.sizes
      && |r.mem.frames| == |vm.mem.frames| && |r.mem.tables[0]| == |vm.mem.tables[0]| && Stack(r) == Stack(vm)
      && (forall x: nat :: PageFree(r, 0, x) <==> PageFree(vm, 0, x) || x == 0x50)
      && View(r, 0, 0x10) == View(vm, 0, 0x10)
  {
    hide Inv, View, PageFree, Release, Stack;
    FreeInv(vm, 0, 0x5000);
    FreeLive(vm, 0, 0x5000, 0);
    FreeView(vm, 0, 0x5000, 0, 0x10);
    var r := ReleaseRange(vm, 0, 0x50, 1);
    assert ReleaseRange(vm, 0, 0x50, 0) == vm && r == Release(vm, 0, 0x50);
    ReleaseEffect(vm, 0, 0x50);
    Restart.ReleaseRangeSizes(vm, 0, 0x50, 1);
    assert map[0x5000 := 1, 0x5100 := 2] - {0x5000} == map[0x5100 := 2];
    assert r.heaps[0 := map[0x5100 := 2]] == [map[0x5100 := 2]];
    forall x: nat ensures PageFree(Free(vm, 0, 0x5000), 0, x) <==> PageFree(vm, 0, x) || x == 0x50 {
      ReleaseRangeFree(vm, 0, 0x50, 1, 0, x);
      SameFree(r, r.(heaps := [map[0x5100 := 2]]), x);
    }
    SameStack(vm, Free(vm, 0, 0x5000));
  }

  lemma SameFree(vm: Vm, r: Vm, x: nat)
    requires |vm.pids| == 1 && r == vm.(heaps := r.heaps)
    ensures PageFree(r, 0, x) == PageFree(vm, 0, x)
  {}

  lemma SameStack(vm: Vm, r: Vm)
    requires r.mem.lru == vm.mem.lru && r.owner == vm.owner
    ensures Stack(r) == Stack(vm)
  {}

  lemma OverFourth()
    ensures Short(OVER) && OverAt(At(4, OVER, 4), 0x10, 0x52, map[0x5100 := 2], 6, 512)
    ensures var vm := At(4, OVER, 4).vm; PageFree(vm, 0, 0x50) && PageFree(vm, 0, 0x51)
  {
    hide Inv, Roomy, Live, Stack, CanTake, PageIn, Evicts, StoppedAt, At, SafeSoFar, View, K.OsInv, CodePage,
         Isa.Assemble, Alloc, Cpu.CpuStep, AfterTouch, Entry, Here, PageFree, Step, K.OpOf, K.Answered, Free;
    OverThird();
    var vm, c := At(4, OVER, 3).vm, At(4, OVER, 3).ctxs[0];
    var v, d, o := AfterTouch(vm, CODE_PAGE), Past(c, 5).(trapRegA := 2), Cpu.Trapped(Cpu.Trap.FreeMemory);
    OnStackIsHere(vm, 0x10);
    OnStackIsHere(vm, 0x50);
    TouchFacts(vm, CODE_PAGE);
    TwoFront(Key(1, 0x10), Key(1, 0x52));
    HereSame(vm, v, 0x50);
    FreeLine(vm, OVER, 5, c, 2);
    Begin(vm, c);
    Stop(vm, c, vm, c, K.QUANTUM, v, d, o);
    FreeFirst(v);
    AnsweredFree(v, d);
    NextTurn(4, OVER, 3, v, d, o);
  }

  lemma AnsweredFree(vm: Vm, c: Cpu.Ctx)
    requires Shape(vm) && |vm.pids| == 1 && Cpu.CtxOk(c) && c.trapRegA == 2 && c.regs[2] == 0x5000
    ensures var o := Cpu.Trapped(Cpu.Trap.FreeMemory);
      && K.TrapOk(c, o) && K.StopOf(c, o).Yield? && K.OpOf(vm, 0, c, o) == Some(FreeHeap(0, 0x5000))
      && K.Answered(vm, 0, c, o) == c
  {
    hide Alloc, CanTake;
  }

  lemma OverFifth()
    ensures Short(OVER) && At(4, OVER, 5).vm.heaps == [map[0x5000 := 2, 0x5100 := 2]]
  {
    hide Inv, Roomy, Live, Stack, CanTake, PageIn, Evicts, StoppedAt, At, SafeSoFar, View, K.OsInv, CodePage,
         Isa.Assemble, Alloc, Cpu.CpuStep, AfterTouch, Entry, Here, PageFree, Step, K.OpOf, K.Answered, Free;
    OverFourth();
    var vm, c := At(4, OVER, 4).vm, At(4, OVER, 4).ctxs[0];
    var v, d, o := AfterTouch(vm, CODE_PAGE), Past(c, 6).(trapRegA := 1, trapRegB := 4), Cpu.Trapped(Cpu.Trap.Alloc);
    OnStackIsHere(vm, 0x10);
    TouchFacts(vm, CODE_PAGE);
    AllocLine(vm, OVER, 6, c, 1, 4);
    Begin(vm, c);
    Stop(vm, c, vm, c, K.QUANTUM, v, d, o);
    AllocTwoPages(v, 512, 0x50);
    AnsweredAlloc(v, d, 1, 4);
    NextTurn(4, OVER, 4, v, d, o);
    assert Record(map[0x5100 := 2], 0x5000, 2) == map[0x5000 := 2, 0x5100 := 2];
  }

  /** A run of the real system in which live allocations overlap: four frames, and a program of seven instructions.
      It allocates a page at 0x5000 and writes to it, then two pages at 0x5100; the fetch of its next instruction
      pushes out page 0x51 clean, which from then on looks unused; it frees 0x5000 and allocates two pages again,
      and is handed 0x5000 to 0x51ff while 0x5100 to 0x52ff is still allocated. */
  lemma EvictedCleanIsReallocated()
    ensures Short(OVER)
    ensures var vm := At(4, OVER, 5).vm;
      vm.heaps == [map[0x5000 := 2, 0x5100 := 2]] && !Disjoint(vm)
    ensures var ops := System.SystemTrace(4, Story(OVER, 5)); !SparesRun(Boot(4), ops) && !NoneHandedOut(Boot(4), ops)
  {
    hide Inv, Boot, K.OsInv, SparesRun, NoneHandedOut, Run, System.SystemTrace, System.After;
    OverFifth();
    var vm := At(4, OVER, 5).vm;
    assert Covers(vm.heaps[0], 0x5000, 0x51) && Covers(vm.heaps[0], 0x5100, 0x51);
    System.SystemRunsPaging(4, Story(OVER, 5));
    AllocationsStayApart(4, System.SystemTrace(4, Story(OVER, 5)));
  }

  // ---- One address, two allocations ---

  /** Allocate a page twice. */
  const TWICE: seq<Isa.Line> := [
    Isa.Line(Isa.Movi, [Isa.Reg(1), Isa.Imm(256)]),
    Isa.Line(Isa.Alloc, [Isa.Reg(1), Isa.Reg(2)]),
    Isa.Line(Isa.Alloc, [Isa.Reg(1), Isa.Reg(3)])]

  lemma TwiceAssembles()
    ensures Short(TWICE)
  {
    AssemblesUpTo(TWICE, 3);
  }

  /** Between two turns of this program: one page resident, the second Alloc up next, the first page allocated. */
  ghost predicate TwiceAt(os: K.Os, resident: nat) {
    && LoneOs(os) && Runs(os.vm, TWICE) && |os.vm.mem.frames| == 3 && |os.vm.mem.tables[0]| >= TABLE_PAGES
    && Stack(os.vm) == [Key(1, resident)] && os.vm.heaps == [map[0x5000 := 1]] && Here(os.vm, resident)
    && os.ctxs[0].ip == CODE_BASE + 24 && os.ctxs[0].regs[1] == 256 && os.ctxs[0].regs[2] == HEAP_START
  }

  /** Both registers hold the address of the one allocation on record. */
  ghost predicate TwiceEnds(os: K.Os) {
    && os.vm.heaps == [map[0x5000 := 1]] && |os.ctxs| == 1 && Cpu.CtxOk(os.ctxs[0])
    && os.ctxs[0].regs[2] == HEAP_START && os.ctxs[0].regs[3] == HEAP_START
  }

  lemma TwiceStarts() returns (v: Vm, d: Cpu.Ctx)
    ensures Short(TWICE) && LoneOs(At(3, TWICE, 0)) && Fresh(v, TWICE) && |v.mem.frames| == 3
    ensures var os := At(3, TWICE, 0); StoppedAt(os.vm, 0, os.ctxs[0]) == (v, d, Cpu.Trapped(Cpu.Trap.Alloc))
    ensures Cpu.CtxOk(d) && d.regs[1] == 256 && d.trapRegA == 1 && d.trapRegB == 2 && d.ip == CODE_BASE + 24
  {
    hide Inv, Roomy, Live, Stack, CanTake, PageIn, Evicts, StoppedAt, At, SafeSoFar, View, K.OsInv, CodePage,
         Isa.Assemble, Alloc, Cpu.CpuStep, AfterTouch, Entry, Here, PageFree, Step, K.OpOf, K.Answered, Reached;
    TwiceAssembles();
    Settled(3, TWICE);
    var vm, c := At(3, TWICE, 0).vm, System.InitialCtx();
    v := AfterTouch(vm, CODE_PAGE);
    Begin(vm, c);
    MoviLine(vm, TWICE, 0, c, 1, 256);
    var c1 := Cpu.SetReg(Past(c, 0), 1, 256);
    Advance(vm, c, vm, c, K.QUANTUM, v, c1);
    AllocLine(v, TWICE, 1, c1, 1, 2);
    d := Past(c1, 1).(trapRegA := 1, trapRegB := 2);
    Stop(vm, c, v, c1, K.QUANTUM - 1, v, d, Cpu.Trapped(Cpu.Trap.Alloc));
  }

  /** The first Alloc takes the one frame from the code page, which is dirty. */
  lemma TwiceFirst()
    ensures Short(TWICE) && TwiceAt(At(3, TWICE, 1), 0x50)
    ensures var vm := At(3, TWICE, 1).vm; !Here(vm, 0x10) && !Entry(vm.mem, 0, 0x50).isDirty
  {
    hide Inv, Roomy, Live, Stack, CanTake, PageIn, Evicts, StoppedAt, At, SafeSoFar, View, K.OsInv, CodePage,
         Isa.Assemble, Alloc, Cpu.CpuStep, AfterTouch, Entry, Here, PageFree, Step, K.OpOf, K.Answered, Reached;
    var v, d := TwiceStarts();
    assert PageFree(v, 0, 0x50);
    UnusedPage(v, 0x50);
    AllocOnePage(v, 256);
    var w := PageIn(v, 0, 0x50);
    AnsweredAlloc(v, d, 1, 2);
    NextTurn(3, TWICE, 0, v, d, Cpu.Trapped(Cpu.Trap.Alloc));
    OneFrame(v, 0x10, 0x50);
    FaultIn(v, 0x50);
    FaultRuns(v, 0x50, TWICE);
    HeapsLone(w, map[0x5000 := 1]);
    HeapsHere(w, w.(heaps := [map[0x5000 := 1]]), 0x50);
  }

  lemma HeapsHere(vm: Vm, r: Vm, q: nat)
    requires r.mem == vm.mem
    ensures Here(r, q) == Here(vm, q) && Entry(r.mem, 0, q) == Entry(vm.mem, 0, q)
  {}

  /** The fetch of the second one takes it back from the allocated page, which is clean. */
  lemma TwiceSecond()
    ensures Short(TWICE) && TwiceAt(At(3, TWICE, 2), 0x10) && PageFree(At(3, TWICE, 2).vm, 0, 0x50)
  {
    hide Inv, Roomy, Live, Stack, CanTake, PageIn, Evicts, StoppedAt, At, SafeSoFar, View, K.OsInv, CodePage,
         Isa.Assemble, Alloc, Cpu.CpuStep, AfterTouch, Entry, Here, PageFree, Step, K.OpOf, K.Answered, Reached;
    TwiceFirst();
    var vm, c := At(3, TWICE, 1).vm, At(3, TWICE, 1).ctxs[0];
    assert c.ip / PAGE_SIZE == CODE_PAGE;
    FetchMisses(vm, c);
    Begin(vm, c);
    Stop(vm, c, vm, c, K.QUANTUM, vm, c, Cpu.Faulted(CODE_PAGE));
    ServedFault(vm, c, CODE_PAGE);
    NextTurn(3, TWICE, 1, vm, c, Cpu.Faulted(CODE_PAGE));
    OneFrame(vm, 0x50, CODE_PAGE);
    FaultIn(vm, CODE_PAGE);
    FaultOther(vm, CODE_PAGE, 0x50);
    FaultRuns(vm, CODE_PAGE, TWICE);
  }

  /** A run of the real system in which one address is two live allocations: three frames, and a program that
      allocates a page twice. The fetch of the second Alloc pushes out the page of the first, clean; the second
      Alloc finds it unused and returns the same address, and its record replaces the other. */
  lemma SameAddressTwice() returns (v: Vm)
    ensures Short(TWICE) && TwiceAt(At(3, TWICE, 2), 0x10)
    ensures var os := At(3, TWICE, 2); StoppedAt(os.vm, 0, os.ctxs[0]).0 == v
    ensures Shape(v) && Overwrites(v, AllocHeap(0, 256)) && HandsOutLive(v, AllocHeap(0, 256))
    ensures TwiceEnds(At(3, TWICE, 3))
  {
    hide Inv, Roomy, Live, Stack, CanTake, PageIn, Evicts, StoppedAt, At, SafeSoFar, View, K.OsInv, CodePage,
         Isa.Assemble, Alloc, Cpu.CpuStep, AfterTouch, Entry, Here, PageFree, Step, K.OpOf, K.Answered, Reached;
    TwiceSecond();
    var vm, c := At(3, TWICE, 2).vm, At(3, TWICE, 2).ctxs[0];
    var d, o := Past(c, 2).(trapRegA := 1, trapRegB := 3), Cpu.Trapped(Cpu.Trap.Alloc);
    v := AfterTouch(vm, CODE_PAGE);
    TouchFacts(vm, CODE_PAGE);
    AllocLine(vm, TWICE, 2, c, 1, 3);
    Begin(vm, c);
    Stop(vm, c, vm, c, K.QUANTUM, v, d, o);
    AllocOnePage(v, 256);
    AnsweredAlloc(v, d, 1, 3);
    NextTurn(3, TWICE, 2, v, d, o);
    assert Record(map[0x5000 := 1], 0x5000, 1) == map[0x5000 := 1];
    TakenTwice(v);
  }

  lemma TakenTwice(vm: Vm)
    requires Lone(vm) && CanTake(vm) && vm.heaps == [map[0x5000 := 1]]
    requires Alloc(vm, 0, 256).1 == 0x5000 && Alloc(vm, 0, 256).0.heaps == [map[0x5000 := 1]]
    ensures Overwrites(vm, AllocHeap(0, 256)) && HandsOutLive(vm, AllocHeap(0, 256))
  {
    hide Inv, Alloc, CanTake;
    assert Covers(vm.heaps[0], 0x5000, 0x50);
  }

  // ---- The shared window inside the stack window -------------------------------------------------------

  /** Mapping a region over a resident private page leaves that page's frame owned but mapped by nothing; the
      frame's later eviction then invalidates the shared mapping instead. */
  lemma MapSharedStrands(vm: Vm, i: nat, region: nat, f: nat)
    requires Inv(vm) && i < |vm.pids| && Live(vm, i) && region < |vm.shared|
    requires f in vm.owner && vm.owner[f] == KeyOf(vm, i, SHARED_PAGE + region)
    ensures var r := MapShared(vm, i, region);
      && f in r.owner && r.owner[f] == KeyOf(vm, i, SHARED_PAGE + region)
      && (forall j: nat, q: nat | j < |r.pids| :: Entry(r.mem, j, q).isValid ==> Entry(r.mem, j, q).physPage != f)
      && (Victim(r.mem.lru, r.shared) == Some(f) ==> !Entry(Evict(r).mem, i, SHARED_PAGE + region).isValid)
  {
    var r := MapShared(vm, i, region);
    MapSharedInv(vm, i, region);
    MapSharedEffect(vm, i, region);
    forall j: nat, q: nat | j < |r.pids| && Entry(r.mem, j, q).isValid ensures Entry(r.mem, j, q).physPage != f {
      assert Backed(r, j, q);
    }
    if Victim(r.mem.lru, r.shared) == Some(f) {
      var p, k := EvictEffect(r);
    }
  }

  /** Touch a stack page that lies in the shared window, then map region 0 over it. */
  const STRAND: seq<Isa.Line> := [
    Isa.Line(Isa.Movi, [Isa.Reg(2), Isa.Imm(0xE000)]),
    Isa.Line(Isa.Movmr, [Isa.Reg(3), Isa.Reg(2)]),
    Isa.Line(Isa.MapSharedMem, [Isa.Reg(1), Isa.Reg(4)])]

  /** The first turn stops at a fault on page 0xE0. */
  lemma StrandStarts() returns (v: Vm, d: Cpu.Ctx)
    ensures Short(STRAND) && LoneOs(At(8, STRAND, 0)) && Fresh(v, STRAND) && |v.mem.frames| == 8 && OwnersExact(v)
    ensures var os := At(8, STRAND, 0); StoppedAt(os.vm, 0, os.ctxs[0]) == (v, d, Cpu.Faulted(0xE0))
    ensures Cpu.CtxOk(d) && d.regs[2] == 0xE000 && d.regs[1] == 0 && d.ip == CODE_BASE + 12
    ensures forall q: nat | q != CODE_PAGE :: !Here(v, q)
  {
    hide Inv, Roomy, Live, Stack, StoppedAt, At, SafeSoFar, View, K.OsInv, CodePage, Isa.Assemble, Cpu.CpuStep,
         AfterTouch, Entry, Here, OwnersExact, PageFree, Reached;
    AssemblesUpTo(STRAND, 3);
    Settled(8, STRAND);
    var vm, c := At(8, STRAND, 0).vm, System.InitialCtx();
    v, d := AfterTouch(vm, CODE_PAGE), Cpu.SetReg(Past(c, 0), 2, 0xE000);
    Begin(vm, c);
    MoviLine(vm, STRAND, 0, c, 2, 0xE000);
    Advance(vm, c, vm, c, K.QUANTUM, v, d);
    MovmrLine(v, STRAND, 1, d, 3, 2);
    Stop(vm, c, v, d, K.QUANTUM - 1, v, d, Cpu.Faulted(0xE0));
    ExactAtFirst(8, STRAND);
    TouchExact(vm, CODE_PAGE);
  }

  lemma StrandFirst()
    ensures Short(STRAND) && LoneOs(At(8, STRAND, 1))
    ensures var os := At(8, STRAND, 1);
      && Runs(os.vm, STRAND) && Here(os.vm, CODE_PAGE) && Here(os.vm, 0xE0) && OwnersExact(os.vm)
      && var f := Entry(os.vm.mem, 0, 0xE0).physPage; f in os.vm.owner && os.vm.owner[f] == Key(1, 0xE0)
    ensures var c := At(8, STRAND, 1).ctxs[0]; c.ip == CODE_BASE + 12 && c.regs[2] == 0xE000 && c.regs[1] == 0
  {
    hide Inv, Roomy, Live, Stack, CanTake, PageIn, Evicts, StoppedAt, At, SafeSoFar, View, K.OsInv, CodePage,
         Isa.Assemble, Entry, Here, Step, K.OpOf, K.Answered, OwnersExact, PageFree;
    var v, d := StrandStarts();
    ServedFault(v, d, 0xE0);
    NextTurn(8, STRAND, 0, v, d, Cpu.Faulted(0xE0));
    FirstFault(v, STRAND, 0xE0);
    FaultIn(v, 0xE0);
    NoHarm(v, PageFault(0, 0xE0));
    StepExact(v, PageFault(0, 0xE0));
  }

  lemma NoHarm(vm: Vm, op: Op)
    requires Shape(vm) && !op.MapRegion? && !op.Spawn?
    ensures !Strands(vm, op) && !LeaksFrames(vm, op)
  {}

  lemma ExactAtFirst(n: nat, lines: seq<Isa.Line>)
    requires NUM_SHARED < n <= MAX_FRAMES && Short(lines)
    ensures OwnersExact(At(n, lines, 0).vm)
  {
    hide Inv, Roomy, Create, Boot, K.OsInv, At, OwnersExact, FreeCount;
    StoryCreates(n, lines);
    BootInv(n);
    BootExact(n);
    Created(n, lines);
    CreatesIffFree(Boot(n), Image(lines));
    StepExact(Boot(n), Spawn(Image(lines)));
  }

  lemma TouchExact(vm: Vm, q: nat)
    requires Lone(vm) && Here(vm, q) && OwnersExact(vm)
    ensures Shape(AfterTouch(vm, q)) && OwnersExact(AfterTouch(vm, q))
  {
    hide Inv, View, PageFree, Stack;
    var r := AfterTouch(vm, q);
    TouchFacts(vm, q);
    ExactIffMappedAndKnown(vm);
    SameEntries(vm, r);
    ExactIffMappedAndKnown(r);
  }

  /** The second turn completes the load and asks for region 0. */
  lemma StrandSecond() returns (v: Vm, d: Cpu.Ctx)
    ensures Short(STRAND) && LoneOs(At(8, STRAND, 1)) && OwnersExact(At(8, STRAND, 1).vm)
    ensures var os := At(8, STRAND, 1); StoppedAt(os.vm, 0, os.ctxs[0]) == (v, d, Cpu.Trapped(Cpu.Trap.MapSharedMem))
    ensures Lone(v) && OwnersKnown(v) && Cpu.CtxOk(d) && d.regs[1] == 0 && d.regs[15] == 4
    ensures var f := Entry(v.mem, 0, 0xE0).physPage; f in v.owner && v.owner[f] == Key(1, 0xE0)
  {
    hide Inv, Roomy, Live, Stack, CanTake, StoppedAt, At, SafeSoFar, View, K.OsInv, CodePage, Isa.Assemble,
         Cpu.CpuStep, AfterTouch, Entry, Here, OwnersExact, PageFree, WordAt, ToInt32;
    StrandFirst();
    var vm, c := At(8, STRAND, 1).vm, At(8, STRAND, 1).ctxs[0];
    var u := AfterTouch(vm, CODE_PAGE);
    var w := AfterTouch(u, 0xE0);
    var e := Cpu.SetReg(Past(c, 1), 3, ToInt32(WordAt(vm, 0, 0xE000)));
    TouchFacts(vm, CODE_PAGE);
    HereSame(vm, u, 0xE0);
    TouchFacts(u, 0xE0);
    HereSame(vm, w, CODE_PAGE);
    MovmrLine(vm, STRAND, 1, c, 3, 2);
    Begin(vm, c);
    Advance(vm, c, vm, c, K.QUANTUM, w, e);
    v, d := AfterTouch(w, CODE_PAGE), Cpu.SetReg(Past(e, 2), 15, 4);
    TouchFacts(w, CODE_PAGE);
    MapLine(w, STRAND, 2, e, 1, 4);
    Stop(vm, c, w, e, K.QUANTUM - 1, v, d, Cpu.Trapped(Cpu.Trap.MapSharedMem));
    KnownAcross(vm, v);
  }

  lemma KnownAcross(vm: Vm, v: Vm)
    requires Inv(vm) && Shape(vm) && OwnersExact(vm) && v.owner == vm.owner && v.pids == vm.pids
    ensures OwnersKnown(v)
  {
    ExactIffMappedAndKnown(vm);
  }

  /** An owned frame that no page table names. */
  ghost predicate Stranded(vm: Vm, f: nat) {
    f in vm.owner && forall j: nat, q: nat | j < |vm.pids| && Entry(vm.mem, j, q).isValid :: Entry(vm.mem, j, q).physPage != f
  }

  lemma NotExact(vm: Vm, f: nat)
    requires Shape(vm) && Stranded(vm, f)
    ensures !OwnersExact(vm)
  {
    assert !MapsPrivately(vm, vm.owner[f], f);
  }

  lemma MapsRegion(vm: Vm, c: Cpu.Ctx)
    requires Lone(vm) && Cpu.CtxOk(c) && c.regs[1] == 0 && c.regs[15] == 4
    ensures var o := Cpu.Trapped(Cpu.Trap.MapSharedMem);
      && K.TrapOk(c, o) && K.StopOf(c, o).Yield? && K.OpOf(vm, 0, c, o) == Some(MapRegion(0, 0))
      && |vm.shared| == NUM_SHARED && Step(vm, MapRegion(0, 0)) == MapShared(vm, 0, 0)
      && |MapShared(vm, 0, 0).pids| == 1 && MapShared(vm, 0, 0).pids == vm.pids && Entry(MapShared(vm, 0, 0).mem, 0, 0xE0).isValid
  {
    MapSharedEffect(vm, 0, 0);
  }

  /** A run of the real system that strands a frame: the program loads from its stack page at 0xE000 and then maps
      region 0, whose address that is. The page's frame stays in use and recorded for the page, but no page table
      names it any more; so the owner map is no inverse of the page tables. */
  lemma MappedOverStack() returns (f: nat)
    ensures Short(STRAND)
    ensures OwnersExact(At(8, STRAND, 1).vm) && !OwnersExact(At(8, STRAND, 2).vm)
    ensures var vm := At(8, STRAND, 2).vm; Stranded(vm, f) && vm.owner[f] == Key(1, 0xE0) && OwnersKnown(vm)
    ensures !NothingStranded(Boot(8), System.SystemTrace(8, Story(STRAND, 2)))
  {
    hide Inv, Roomy, Live, StoppedAt, At, SafeSoFar, K.OsInv, Step, K.OpOf, K.Answered, OwnersExact, Entry,
         System.SystemTrace, Run, Boot, MapShared, CanTake, Victim, Evict, Isa.Assemble, OwnersKnown, LeaksFrames,
         OwnersMapped, NothingStranded;
    var v, d := StrandSecond();
    f := Entry(v.mem, 0, 0xE0).physPage;
    MapsRegion(v, d);
    NextTurn(8, STRAND, 1, v, d, Cpu.Trapped(Cpu.Trap.MapSharedMem));
    MapSharedStrands(v, 0, 0, f);
    NotExact(MapShared(v, 0, 0), f);
    StepOwners(v, MapRegion(0, 0));
    NoLeak(v, MapRegion(0, 0));
    StepInv(v, MapRegion(0, 0));
    ExactIffMappedAndKnown(MapShared(v, 0, 0));
    StoryIsRun(8, STRAND, 2);
    if NothingStranded(Boot(8), System.SystemTrace(8, Story(STRAND, 2))) {
      UnstrandedIsMapped(8, System.SystemTrace(8, Story(STRAND, 2)));
    }
  }

  lemma NoLeak(vm: Vm, op: Op)
    requires Shape(vm) && !op.Spawn?
    ensures !LeaksFrames(vm, op)
  {}

  // ---- Frames no process owns ---------------------------------------------------------------------------------

  /** Twenty-two exits: 264 bytes, two pages. */
  const EXITS: seq<Isa.Line> := seq(22, _ => Isa.Line(Isa.Exit, []))

  lemma ExitsAssemble()
    ensures Isa.Assemble(EXITS).Some? && |Isa.Assemble(EXITS).value| == 264
  {
    AssemblesUpTo(EXITS, 22);
  }

  /** A run of the real system that leaks: with three frames, creating a program of two pages maps the first and
      throws at the second. No process exists afterwards, yet no frame is free: the one that is not shared is in
      use and recorded for a process that was never created, so the owner map is no inverse of the page tables, though
      no region was ever mapped. No program can ever be created again. */
  lemma CreationLeaks() returns (f: nat)
    ensures Isa.Assemble(EXITS).Some? && System.Loadable([System.Creation(Isa.Assemble(EXITS).value, 1)])
    ensures var vm := System.After(3, [System.Creation(Isa.Assemble(EXITS).value, 1)]).vm;
      && vm.pids == [] && !OwnersKnown(vm) && FreeCount(vm.mem.used) == 0
      && f < |vm.mem.used| && vm.mem.used[f] && f !in vm.shared && Stranded(vm, f) && !OwnersExact(vm)
      && forall code: seq<Byte> | |code| <= 0xE000 :: !Create(vm, code).1
    ensures var ops := System.SystemTrace(3, [System.Creation(Isa.Assemble(EXITS).value, 1)]);
      NothingStranded(Boot(3), ops) && !LeakFree(Boot(3), ops)
  {
    hide Inv, Roomy, Boot, Create, FreeCount, K.OsInv, OwnersKnown, OwnersExact;
    ExitsAssemble();
    var code := Isa.Assemble(EXITS).value;
    var events := [System.Creation(code, 1)];
    assert events[..0] == [];
    BootInv(3);
    Cold.BootFree(3);
    BootKnown(3);
    var vm := Create(Boot(3), code).0;
    System.CreateProcessInv(System.After(3, []), code, 1);
    LeakTakesAll(Boot(3), code);
    CreateInv(Boot(3), code);
    StepOwners(Boot(3), Spawn(code));
    f := LeftOver(vm);
    NotExact(vm, f);
    forall other: seq<Byte> | |other| <= 0xE000 ensures !Create(vm, other).1 { CreatesIffFree(vm, other); }
    assert System.SystemTrace(3, []) == [];
    OneLeak(Boot(3), code);
  }

  /** With no process left, a frame whose owner is unknown is in use and mapped by nothing. */
  lemma LeftOver(vm: Vm) returns (f: nat)
    requires Inv(vm) && vm.pids == [] && !OwnersKnown(vm)
    ensures f < |vm.mem.used| && vm.mem.used[f] && f !in vm.shared && Stranded(vm, f)
  {
    f :| f in vm.owner && vm.owner[f].pid !in vm.pids;
  }

  lemma OneLeak(vm: Vm, code: seq<Byte>)
    requires Shape(vm) && LeaksFrames(vm, Spawn(code))
    ensures [] + [Spawn(code)] == [Spawn(code)]
    ensures NothingStranded(vm, [Spawn(code)]) && !LeakFree(vm, [Spawn(code)])
  {
    hide Step;
    assert [Spawn(code)][..0] == [];
    EmptyRun(vm);
  }
}
