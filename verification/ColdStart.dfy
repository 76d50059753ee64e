/** Systems of different memory sizes that load the same programs start with the same pages resident, in the
    same order; and page traces are runs of the paging system. So the stack property compares real systems. */
module ColdStart {
  import opened Basics
  import opened Lru
  import opened Memory
  import opened Paging
  import opened FrameInvariant
  import opened PagingRuns
  import opened FlatMemory
  import opened StackProperty
  import opened HeapAllocator
  import opened Leaks
  import opened KernelRuns

  // ---- Loading a program and the recency order -------------------------------------------------------

  /** Loading puts the code pages in front, the last one first. */
  lemma {:induction false} LoadPagesStack(vm: Vm, i: nat, vp: nat, n: nat)
    requires Inv(vm) && i < |vm.pids| && vp + n <= |vm.mem.tables[i]|
    requires forall q: nat :: PageFree(vm, i, q)
    requires LoadPages(vm, i, vp, n).1
    ensures Stack(LoadPages(vm, i, vp, n).0) == RangeKeys(vm.pids[i], vp, n) + Stack(vm)
  {
    hide Inv, Grab, PageIn, Stack, CanTake;
    InvShape(vm);
    if n == 0 {
      assert [] + Stack(vm) == Stack(vm);
    } else {
      var q := vp + n - 1;
      LoadPagesStack(vm, i, vp, n - 1);
      LoadPagesInv(vm, i, vp, n - 1);
      LoadPagesEffect(vm, i, vp, n - 1);
      var v := LoadPages(vm, i, vp, n - 1).0;
      assert PageFree(vm, i, q);
      assert PageFree(v, i, q);
      FreeMeansRoom(v);
      LoadStepIsGrab(vm, i, vp, n);
      GrabIsPageIn(v, i, q);
      StackSize(v);
      MissStack(v, i, q);
      assert [KeyOf(vm, i, q)] + (RangeKeys(vm.pids[i], vp, n - 1) + Stack(vm)) == RangeKeys(vm.pids[i], vp, n) + Stack(vm);
    }
  }

  /** Writing n bytes of code touches their pages in turn. */
  function Touches(s: seq<Key>, pid: nat, n: nat): seq<Key> {
    if n == 0 then s else MoveToFront(Touches(s, pid, n - 1), Key(pid, (CODE_BASE + n - 1) / PAGE_SIZE))
  }

  lemma WriteStack(vm: Vm, i: nat, codeSize: nat, va: Word, b: Byte)
    requires Inv(vm) && i < |vm.pids| && WriteByte(vm.mem, i, codeSize, va, b).Done? && !InSharedWindow(va / PAGE_SIZE)
    ensures Stack(vm.(mem := WriteByte(vm.mem, i, codeSize, va, b).mem)) == MoveToFront(Stack(vm), KeyOf(vm, i, va / PAGE_SIZE))
  {
    hide MoveToFront, Keys;
    HitStack(vm, Ref(i, va / PAGE_SIZE));
  }

  lemma {:induction false} WriteCodeStack(vm: Vm, i: nat, code: seq<Byte>, n: nat)
    requires Inv(vm) && i < |vm.pids| && n <= |code| && CODE_BASE + |code| <= SHARED_BASE
    requires WriteCode(vm.mem, i, |code|, code, n).Done?
    ensures Stack(vm.(mem := WriteCode(vm.mem, i, |code|, code, n).mem)) == Touches(Stack(vm), vm.pids[i], n)
  {
    hide Inv, WriteByte, Stack, MoveToFront;
    InvShape(vm);
    if n == 0 {
      assert vm.(mem := vm.mem) == vm;
    } else {
      WriteCodeStack(vm, i, code, n - 1);
      WriteCodeInv(vm, i, code, n - 1);
      WriteStack(vm.(mem := WriteCode(vm.mem, i, |code|, code, n - 1).mem), i, |code|, CODE_BASE + n - 1, code[n - 1]);
    }
  }

  lemma AddProcessStack(vm: Vm, codeSize: nat)
    requires Shape(vm)
    ensures var r := AddProcess(vm, codeSize);
      && Stack(r) == Stack(vm) && r.mem.used == vm.mem.used && r.mem.frames == vm.mem.frames && r.pids == vm.pids + [vm.nextPid]
      && |r.mem.tables[|vm.pids|]| == TABLE_PAGES
  {}

  /** The recency order after loading n bytes of code as a new process. */
  function LoadedStack(s: seq<Key>, pid: nat, n: nat): seq<Key> {
    Touches(RangeKeys(pid, CODE_PAGE, CodePages(n)) + s, pid, n)
  }

  /** A successful creation does to the recency order what its pid and its code size say, whatever the size of
      memory, and takes as many frames as the code has pages. */
  lemma CreatedStack(vm: Vm, code: seq<Byte>)
    requires Inv(vm) && CODE_BASE + |code| <= SHARED_BASE && Create(vm, code).1
    ensures var r := Create(vm, code).0;
      && Stack(r) == LoadedStack(Stack(vm), vm.nextPid, |code|) && r.nextPid == vm.nextPid + 1
      && |r.mem.frames| == |vm.mem.frames| && FreeCount(r.mem.used) == FreeCount(vm.mem.used) - CodePages(|code|)
  {
    hide Inv, LoadPages, WriteCode, Stack, PageFree, Touches, RangeKeys, AddProcess, FreeCount;
    InvShape(vm);
    AddProcessStack(vm, |code|);
    var i, vm1 := |vm.pids|, AddProcess(vm, |code|);
    AddProcessInv(vm, |code|);
    var n := (CODE_BASE + |code| - 1) / PAGE_SIZE - CODE_PAGE + 1;
    assert n == CodePages(|code|);
    LoadPagesInv(vm1, i, CODE_PAGE, n);
    LoadPagesEffect(vm1, i, CODE_PAGE, n);
    LoadPagesStack(vm1, i, CODE_PAGE, n);
    LoadsIffFree(vm1, i, CODE_PAGE, n);
    var vm2 := LoadPages(vm1, i, CODE_PAGE, n).0;
    WriteCodeStack(vm2, i, code, |code|);
    WriteCodeFrames(vm2.mem, i, |code|, code, |code|);
    AddedPid(vm, |code|);
  }

  lemma AddedPid(vm: Vm, codeSize: nat)
    requires Shape(vm)
    ensures AddProcess(vm, codeSize).nextPid == vm.nextPid + 1
  {}

  lemma {:induction false} WriteCodeFrames(m: Mem, i: nat, codeSize: nat, code: seq<Byte>, n: nat)
    requires i < |m.tables| && n <= |code| <= 0xE000
    ensures var r := WriteCode(m, i, codeSize, code, n).mem; r.used == m.used && |r.frames| == |m.frames|
  {
    if n > 0 { WriteCodeFrames(m, i, codeSize, code, n - 1); }
  }

  // ---- Cold starts --------------------------------------------------------------------------------------

  /** Creations of these programs, in order. */
  function Creations(programs: seq<seq<Byte>>): (ops: seq<Op>)
    ensures |ops| == |programs| && forall k | 0 <= k < |ops| :: ops[k] == Spawn(programs[k])
  {
    seq(|programs|, k requires 0 <= k < |programs| => Spawn(programs[k]))
  }

  function Started(numFrames: nat, programs: seq<seq<Byte>>): Vm
    requires NUM_SHARED <= numFrames <= MAX_FRAMES
  {
    Run(Boot(numFrames), Creations(programs))
  }

  /** Every program is non-empty and ends below the shared window. */
  predicate Programs(programs: seq<seq<Byte>>) {
    forall k | 0 <= k < |programs| :: 0 < |programs[k]| <= SHARED_BASE - CODE_BASE
  }

  function PagesOfAll(programs: seq<seq<Byte>>): nat {
    if programs == [] then 0
    else PagesOfAll(programs[..|programs| - 1]) + CodePages(|programs[|programs| - 1]|)
  }

  /** The recency order loading leaves, with no regard to memory size. */
  function StartStack(programs: seq<seq<Byte>>): seq<Key> {
    if programs == [] then []
    else LoadedStack(StartStack(programs[..|programs| - 1]), |programs|, |programs[|programs| - 1]|)
  }

  lemma BootFree(numFrames: nat)
    requires NUM_SHARED <= numFrames <= MAX_FRAMES
    ensures FreeCount(Boot(numFrames).mem.used) == numFrames - NUM_SHARED && Stack(Boot(numFrames)) == []
    ensures Boot(numFrames).pids == [] && Boot(numFrames).nextPid == 1 && |Boot(numFrames).mem.frames| == numFrames
    ensures Boot(numFrames).disk == map[] && Boot(numFrames).heaps == []
  {
    hide FreeCount;
    var m0 := Mem(seq(numFrames, _ => ZeroPage()), seq(numFrames, _ => false), [], []);
    AllFree(numFrames);
    OneTaken(m0.used, FirstFree(m0.used, 0));
    var m1 := AllocFrame(m0);
    assert FirstFree(m0.used, 0) == 0 && !m1.used[1];
    OneTaken(m1.used, FirstFree(m1.used, 0));
    KeysPinned(Boot(numFrames).mem.lru, Boot(numFrames).owner);
  }

  lemma {:induction false} AllFree(n: nat)
    ensures FreeCount(seq(n, _ => false)) == n
  {
    if n > 0 {
      assert seq(n, _ => false)[..n - 1] == seq(n - 1, _ => false);
      AllFree(n - 1);
    }
  }

  /** If memory has room for all their pages, all programs get loaded, and the resident pages and their order
      are the same whatever its size. */
  lemma {:induction false} StartedStack(numFrames: nat, programs: seq<seq<Byte>>)
    requires NUM_SHARED <= numFrames <= MAX_FRAMES && Programs(programs) && PagesOfAll(programs) <= numFrames - NUM_SHARED
    ensures var vm := Started(numFrames, programs);
      && Inv(vm) && Roomy(vm) && |vm.mem.frames| == numFrames
      && |vm.pids| == |programs| && vm.nextPid == |programs| + 1 && (forall i | 0 <= i < |programs| :: vm.pids[i] == i + 1)
      && (forall i: nat | i < |programs| :: Live(vm, i))
      && Stack(vm) == StartStack(programs) && FreeCount(vm.mem.used) == numFrames - NUM_SHARED - PagesOfAll(programs)
  {
    hide Inv, Roomy, Create, Boot, Stack, FreeCount, CodePages, LoadedStack, Live;
    if programs == [] {
      BootFree(numFrames);
      BootInv(numFrames);
      EveryRunKeepsInv(numFrames, []);
      assert Creations(programs) == [];
    } else {
      var n := |programs| - 1;
      StartedStack(numFrames, programs[..n]);
      var vm, code := Started(numFrames, programs[..n]), programs[n];
      assert Creations(programs)[..n] == Creations(programs[..n]);
      assert Started(numFrames, programs) == Step(vm, Spawn(code)) == Create(vm, code).0;
      CreatesIffFree(vm, code);
      CreateInv(vm, code);
      CreatedStack(vm, code);
      forall i: nat | i < n ensures Live(Create(vm, code).0, i) { CreateLive(vm, code, i); }
    }
  }

  /** The accesses a trace may make: private pages of the programs loaded. */
  predicate PrivateTrace(trace: seq<Ref>, n: nat) {
    forall r | r in trace :: r.proc < n && !InSharedWindow(r.vpage)
  }

  lemma StartedReady(numFrames: nat, programs: seq<seq<Byte>>, trace: seq<Ref>)
    requires NUM_SHARED < numFrames <= MAX_FRAMES && Programs(programs) && PagesOfAll(programs) <= numFrames - NUM_SHARED
    requires PrivateTrace(trace, |programs|)
    ensures Ready(Started(numFrames, programs), trace)
  {
    hide Inv, Roomy, Stack, FreeCount, StartStack, Started, Live, CanTake, PagesOfAll, Programs;
    StartedStack(numFrames, programs);
    AlwaysAFrame(Started(numFrames, programs));
  }

  /** More memory never hurts a real system: with the same programs loaded from a cold start into two memories that
      hold them, no trace of page accesses faults more often in the larger one, and every page resident in the
      smaller one afterwards is resident in the larger. */
  lemma LargerMemoryNeverHurts(m: nat, n: nat, programs: seq<seq<Byte>>, trace: seq<Ref>)
    requires NUM_SHARED < m <= n <= MAX_FRAMES && Programs(programs) && PagesOfAll(programs) <= m - NUM_SHARED
    requires PrivateTrace(trace, |programs|)
    ensures var a, b := Started(m, programs), Started(n, programs);
      && Ready(a, trace) && Ready(b, trace) && Faults(b, trace) <= Faults(a, trace)
      && forall r: Ref | r.proc < |programs| && !InSharedWindow(r.vpage) && Hits(VisitAll(a, trace), r) :: Hits(VisitAll(b, trace), r)
  {
    hide Inv, Roomy, Stack, FreeCount, StartStack, VisitAll, Faults, Started, Live, CanTake, Hits;
    var a, b := Started(m, programs), Started(n, programs);
    StartedStack(m, programs);
    StartedStack(n, programs);
    StartedReady(m, programs, trace);
    StartedReady(n, programs, trace);
    StackSize(a);
    assert a.pids == b.pids;
    MoreMemoryNeverHurts(a, b, trace);
    forall r: Ref | r.proc < |programs| && !InSharedWindow(r.vpage) && Hits(VisitAll(a, trace), r) ensures Hits(VisitAll(b, trace), r) {
      ResidentIncluded(a, b, trace, r);
    }
  }

  // ---- Page traces are runs of the paging system ------------------------------------------------------------

  /** The access as operations: a fault first where the page is not resident, then the read of a byte in it. */
  function VisitOps(vm: Vm, r: Ref, va: Word): seq<Op> {
    if Hits(vm, r) then [Read(r.proc, va)] else [PageFault(r.proc, r.vpage), Read(r.proc, va)]
  }

  /** va is an address of that page within bounds. */
  predicate Addresses(vm: Vm, r: Ref, va: Word)
    requires Shape(vm) && r.proc < |vm.pids|
  {
    va / PAGE_SIZE == r.vpage && IsValidVaddr(vm.sizes[r.proc], va)
  }

  lemma ReadIsTouch(vm: Vm, r: Ref, va: Word)
    requires Inv(vm) && Accessible(vm, r) && Hits(vm, r) && Addresses(vm, r, va)
    ensures Step(vm, Read(r.proc, va)) == TouchPage(vm, r)
  {
    assert Backed(vm, r.proc, r.vpage);
  }

  /** A visit of a page is a page fault, if it misses, followed by a byte access. */
  lemma VisitIsRun(vm: Vm, r: Ref, va: Word)
    requires Inv(vm) && CanTake(vm) && Accessible(vm, r) && Addresses(vm, r, va)
    ensures Visit(vm, r) == Run(vm, VisitOps(vm, r, va))
  {
    hide Inv, CanTake, PageIn, IsValidVaddr, TouchPage;
    InvShape(vm);
    var rd := Read(r.proc, va);
    if Hits(vm, r) {
      ReadIsTouch(vm, r, va);
      OneStep(vm, rd);
    } else {
      var w := PageIn(vm, r.proc, r.vpage);
      PageInInv(vm, r.proc, r.vpage);
      PageInMaps(vm, r.proc, r.vpage);
      PageInSizes(vm, r.proc, r.vpage);
      RunTwo(vm, PageFault(r.proc, r.vpage), rd);
      ReadIsTouch(w, r, va);
    }
  }

  lemma RunTwo(vm: Vm, a: Op, b: Op)
    requires Shape(vm)
    ensures Run(vm, [a, b]) == Step(Step(vm, a), b)
  {
    hide Step;
    assert [a, b][..1] == [a];
    OneStep(vm, a);
  }

  // ---- Whole traces -------------------------------------------------------------------------------------------

  /** An address in bounds for every access of the trace. */
  ghost predicate Addressed(vm: Vm, trace: seq<Ref>, vas: seq<Word>)
    requires Ready(vm, trace)
  {
    |vas| == |trace| && forall k | 0 <= k < |trace| :: trace[k].proc < |vm.pids| && Addresses(vm, trace[k], vas[k])
  }

  function TraceOps(vm: Vm, trace: seq<Ref>, vas: seq<Word>): seq<Op>
    requires Ready(vm, trace) && |vas| == |trace|
  {
    hide Inv, CanTake, Visit, Hits;
    if trace == [] then []
    else
      var n := |trace| - 1;
      ReadyPrefix(vm, trace);
      TraceOps(vm, trace[..n], vas[..n]) + VisitOps(VisitAll(vm, trace[..n]), trace[n], vas[n])
  }

  function FaultCount(ops: seq<Op>): nat {
    if ops == [] then 0 else FaultCount(ops[..|ops| - 1]) + if ops[|ops| - 1].PageFault? then 1 else 0
  }

  lemma {:induction false} FaultsAdd(a: seq<Op>, b: seq<Op>)
    ensures FaultCount(a + b) == FaultCount(a) + FaultCount(b)
  {
    if b == [] {
      assert a + b == a;
    } else {
      FaultsAdd(a, b[..|b| - 1]);
      assert (a + b)[..|a + b| - 1] == a + b[..|b| - 1];
    }
  }

  lemma VisitFaults(vm: Vm, r: Ref, va: Word)
    ensures FaultCount(VisitOps(vm, r, va)) == if Hits(vm, r) then 0 else 1
  {
    hide Hits;
    var f, rd := PageFault(r.proc, r.vpage), Read(r.proc, va);
    assert [rd][..0] == [] && [f][..0] == [] && [f, rd][..1] == [f];
    assert FaultCount([rd]) == 0 && FaultCount([f]) == 1;
  }

  lemma VisitSizes(vm: Vm, r: Ref)
    requires Shape(vm) && CanTake(vm)
    ensures Visit(vm, r).sizes == vm.sizes
  {
    hide CanTake, PageIn;
    if r.proc < |vm.pids| { PageInSizes(vm, r.proc, r.vpage); }
  }

  /** A trace of visits is a run of the paging system, with exactly as many page faults as the trace has. */
  lemma {:induction false} VisitsAreRuns(vm: Vm, trace: seq<Ref>, vas: seq<Word>)
    requires Ready(vm, trace) && Addressed(vm, trace, vas)
    ensures Shape(vm) && VisitAll(vm, trace) == Run(vm, TraceOps(vm, trace, vas)) && VisitAll(vm, trace).sizes == vm.sizes
    ensures FaultCount(TraceOps(vm, trace, vas)) == Faults(vm, trace)
  {
    hide Inv, CanTake, Visit, Hits, Run, VisitOps, IsValidVaddr;
    InvShape(vm);
    if trace == [] {
      EmptyRun(vm);
    } else {
      var n := |trace| - 1;
      ReadyPrefix(vm, trace);
      VisitsAreRuns(vm, trace[..n], vas[..n]);
      var v, ops := VisitAll(vm, trace[..n]), TraceOps(vm, trace[..n], vas[..n]);
      var more := VisitOps(v, trace[n], vas[n]);
      VisitSizes(v, trace[n]);
      VisitIsRun(v, trace[n], vas[n]);
      RunConcat(vm, ops, more);
      FaultsAdd(ops, more);
      VisitFaults(v, trace[n], vas[n]);
    }
  }

}
