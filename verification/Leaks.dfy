/** When every frame can be traced to a process, and what is left when all processes are gone. */
module Leaks {
  import opened Basics
  import opened Lru
  import opened Memory
  import opened Paging
  import opened FrameInvariant
  import opened PagingRuns

  /** Every owned frame belongs to a process that was created. */
  ghost predicate OwnersKnown(vm: Vm) {
    forall f | f in vm.owner :: vm.owner[f].pid in vm.pids
  }

  // ---- When a program fits ---------------------------------------------------------------------------

  function FreeCount(used: seq<bool>): nat {
    if used == [] then 0 else FreeCount(used[..|used| - 1]) + if used[|used| - 1] then 0 else 1
  }

  /** The pages n bytes of code occupy. */
  function CodePages(n: nat): nat {
    (n + PAGE_SIZE - 1) / PAGE_SIZE
  }

  /** A creation for which some frames are free, but not as many as the program has pages: it throws half way
      and frees nothing. */
  predicate LeaksFrames(vm: Vm, op: Op)
    requires Shape(vm)
  {
    op.Spawn? && Enabled(vm, op) && 0 < FreeCount(vm.mem.used) < CodePages(|op.code|)
  }

  lemma {:induction false} OneTaken(used: seq<bool>, p: nat)
    requires p < |used| && !used[p]
    ensures FreeCount(used) == FreeCount(used[p := true]) + 1
  {
    var n := |used| - 1;
    if p < n {
      OneTaken(used[..n], p);
      assert used[p := true][..n] == used[..n][p := true];
    } else {
      assert used[p := true][..n] == used[..n];
    }
  }

  lemma {:induction false} NoneFree(used: seq<bool>)
    ensures FreeCount(used) == 0 <==> forall f | 0 <= f < |used| :: used[f]
  {
    if used != [] {
      NoneFree(used[..|used| - 1]);
    }
  }

  lemma FreeIsCounted(vm: Vm)
    requires Shape(vm)
    ensures HasFree(vm.mem) <==> FreeCount(vm.mem.used) > 0
  {
    NoneFree(vm.mem.used);
  }

  /** The loading loop maps all its pages iff there are free frames for all of them. */
  lemma {:induction false} LoadsIffFree(vm: Vm, i: nat, vp: nat, n: nat)
    requires Shape(vm) && i < |vm.pids| && vp + n <= |vm.mem.tables[i]|
    ensures var (r, ok) := LoadPages(vm, i, vp, n);
      && (ok <==> n <= FreeCount(vm.mem.used))
      && FreeCount(r.mem.used) == if ok then FreeCount(vm.mem.used) - n else 0
  {
    hide Wf;
    if n > 0 {
      LoadsIffFree(vm, i, vp, n - 1);
      var (v, ok) := LoadPages(vm, i, vp, n - 1);
      if ok {
        FreeIsCounted(v);
        if HasFree(v.mem) { OneTaken(v.mem.used, FirstFree(v.mem.used, 0)); }
      }
    }
  }

  /** A creation succeeds iff its program is not empty and as many frames are free as it has pages. */
  lemma CreatesIffFree(vm: Vm, code: seq<Byte>)
    requires Inv(vm) && |code| <= 0xE000
    ensures Create(vm, code).1 <==> |code| > 0 && CodePages(|code|) <= FreeCount(vm.mem.used)
  {
    hide Inv, LoadPages, WriteCode, PageFree;
    InvShape(vm);
    var i, vm1 := |vm.pids|, AddProcess(vm, |code|);
    AddProcessInv(vm, |code|);
    if |code| > 0 {
      var n := (CODE_BASE + |code| - 1) / PAGE_SIZE - CODE_PAGE + 1;
      assert n == CodePages(|code|);
      LoadsIffFree(vm1, i, CODE_PAGE, n);
      LoadPagesInv(vm1, i, CODE_PAGE, n);
      LoadPagesEffect(vm1, i, CODE_PAGE, n);
      var (vm2, ok) := LoadPages(vm1, i, CODE_PAGE, n);
      if ok {
        ValidInRange(vm2, i);
        WriteCodeEffect(vm2.mem, i, code, |code|);
      }
    }
  }

  /** A creation that runs out of frames half way has taken all there were. */
  lemma LeakTakesAll(vm: Vm, code: seq<Byte>)
    requires Inv(vm) && LeaksFrames(vm, Spawn(code))
    ensures !Create(vm, code).1 && FreeCount(Create(vm, code).0.mem.used) == 0
  {
    hide Inv, LoadPages, WriteCode, FreeCount;
    CreatesIffFree(vm, code);
    var n := (CODE_BASE + |code| - 1) / PAGE_SIZE - CODE_PAGE + 1;
    assert n == CodePages(|code|);
    LoadsIffFree(AddProcess(vm, |code|), |vm.pids|, CODE_PAGE, n);
  }

  // ---- Owners ----------------------------------------------------------------------------------------

  lemma PageInOwners(vm: Vm, i: nat, vp: nat)
    requires Shape(vm) && i < |vm.pids| && CanTake(vm) && OwnersKnown(vm)
    ensures OwnersKnown(PageIn(vm, i, vp))
  {}

  lemma GrabOwners(vm: Vm, i: nat, vp: nat)
    requires Shape(vm) && i < |vm.pids| && vp < |vm.mem.tables[i]| && CanTake(vm) && OwnersKnown(vm)
    ensures OwnersKnown(Grab(vm, i, vp))
  {}

  lemma {:induction false} GrabRangeOwners(vm: Vm, i: nat, start: nat, n: nat)
    requires Shape(vm) && i < |vm.pids| && start + n <= |vm.mem.tables[i]| && CanTake(vm) && OwnersKnown(vm)
    ensures OwnersKnown(GrabRange(vm, i, start, n))
  {
    hide Grab, OwnersKnown, CanTake;
    if n > 0 {
      GrabRangeOwners(vm, i, start, n - 1);
      GrabOwners(GrabRange(vm, i, start, n - 1), i, start + n - 1);
    }
  }

  lemma AllocOwners(vm: Vm, i: nat, bytes: int)
    requires Shape(vm) && i < |vm.pids| && CanTake(vm) && OwnersKnown(vm)
    ensures OwnersKnown(Alloc(vm, i, bytes).0)
  {
    hide GrabRange, FirstFit;
    var vm1, n := vm.(mem := GrowTable(vm.mem, i, HEAP_LAST + 1)), PagesNeeded(bytes);
    FirstFitInHeap(vm1, i, n, HEAP_FIRST);
    var s := FirstFit(vm1, i, n, HEAP_FIRST);
    if s.Some? && bytes > 0 && n <= HEAP_PAGES {
      GrabRangeOwners(vm1, i, s.value, n);
    }
  }

  lemma {:induction false} ReleaseRangeOwners(vm: Vm, i: nat, start: nat, n: nat)
    requires Shape(vm) && i < |vm.pids| && OwnersKnown(vm)
    ensures OwnersKnown(ReleaseRange(vm, i, start, n))
  {
    if n > 0 { ReleaseRangeOwners(vm, i, start, n - 1); }
  }

  /** Frame f is in use for the process with this pid. */
  predicate OwnedBy(vm: Vm, f: nat, pid: nat) {
    f < |vm.mem.used| && vm.mem.used[f] && f in vm.owner && vm.owner[f].pid == pid
  }

  /** Loading adds frames of the new process only, at least one if any frame is free, and takes none away. */
  lemma {:induction false} LoadPagesOwners(vm: Vm, i: nat, vp: nat, n: nat)
    requires Shape(vm) && i < |vm.pids| && vp + n <= |vm.mem.tables[i]|
    ensures var r := LoadPages(vm, i, vp, n).0;
      && (forall f | f in r.owner :: f in vm.owner || r.owner[f].pid == vm.pids[i])
      && (forall f | f in r.owner && r.owner[f].pid != vm.pids[i] :: f in vm.owner && r.owner[f] == vm.owner[f])
      && (n > 0 && HasFree(vm.mem) ==> exists f :: OwnedBy(r, f, vm.pids[i]))
      && (!HasFree(vm.mem) ==> r == vm)
  {
    if n > 0 {
      LoadPagesOwners(vm, i, vp, n - 1);
      var (v, ok) := LoadPages(vm, i, vp, n - 1);
      var r := LoadPages(vm, i, vp, n).0;
      if ok && HasFree(v.mem) {
        assert OwnedBy(r, FirstFree(v.mem.used, 0), vm.pids[i]);
      }
    }
  }

  lemma OwnedByMeans(vm: Vm, f: nat, pid: nat)
    requires OwnedBy(vm, f, pid)
    ensures f in vm.owner && vm.owner[f].pid == pid
  {}

  lemma NextPidIsNew(vm: Vm)
    requires Inv(vm)
    ensures vm.nextPid !in vm.pids && (HasFree(vm.mem) <==> HasFree(AddProcess(vm, 0).mem))
  {}

  /** Creation leaves the owners its loading loop left. */
  lemma CreatedOwners(vm: Vm, code: seq<Byte>)
    requires Shape(vm) && |code| <= 0xE000
    ensures var r := Create(vm, code);
      if |code| == 0 then r.0.owner == vm.owner && !r.1
      else r.0.owner == LoadPages(AddProcess(vm, |code|), |vm.pids|, CODE_PAGE, (CODE_BASE + |code| - 1) / PAGE_SIZE - CODE_PAGE + 1).0.owner
  {
    hide LoadPages, WriteCode, Wf, AddProcess, DropLast;
    NewTable(vm, |code|);
    var vm1, i := AddProcess(vm, |code|), |vm.pids|;
    if |code| == 0 {
      DropKeepsOwners(vm1);
    } else {
      var (v, ok) := LoadPages(vm1, i, CODE_PAGE, (CODE_BASE + |code| - 1) / PAGE_SIZE - CODE_PAGE + 1);
      DropKeepsOwners(v);
      if ok { DropKeepsOwners(v.(mem := WriteCode(v.mem, i, |code|, code, |code|).mem)); }
    }
  }

  lemma NewTable(vm: Vm, codeSize: nat)
    requires Shape(vm)
    ensures var r := AddProcess(vm, codeSize);
      Shape(r) && |r.pids| == |vm.pids| + 1 && |r.mem.tables[|vm.pids|]| == TABLE_PAGES && r.owner == vm.owner
  {}

  lemma DropKeepsOwners(vm: Vm)
    requires Shape(vm) && |vm.pids| > 0
    ensures DropLast(vm).owner == vm.owner
  {}

  lemma CreateOwners(vm: Vm, code: seq<Byte>)
    requires Inv(vm) && Roomy(vm) && |code| <= 0xE000 && OwnersKnown(vm)
    ensures OwnersKnown(Create(vm, code).0) <==> !LeaksFrames(vm, Spawn(code))
  {
    hide Inv, Create, LoadPages, Roomy, HasFree, OwnedBy, FreeCount;
    InvShape(vm);
    NextPidIsNew(vm);
    CreatesIffFree(vm, code);
    FreeIsCounted(vm);
    var i, vm1 := |vm.pids|, AddProcess(vm, |code|);
    var r, ok := Create(vm, code).0, Create(vm, code).1;
    CreateInv(vm, code);
    CreatedOwners(vm, code);
    if |code| > 0 {
      var n := (CODE_BASE + |code| - 1) / PAGE_SIZE - CODE_PAGE + 1;
      LoadPagesOwners(vm1, i, CODE_PAGE, n);
      LoadPagesEffect(vm1, i, CODE_PAGE, n);
      var (v, loaded) := LoadPages(vm1, i, CODE_PAGE, n);
      assert r.owner == v.owner;
      if ok {
        assert forall pid | pid in vm.pids :: pid in r.pids;
        assert vm.nextPid in r.pids;
      } else if HasFree(vm.mem) {
        var f :| OwnedBy(v, f, vm.nextPid);
        OwnedByMeans(v, f, vm.nextPid);
      }
    }
  }

  /** Frames stay traceable through every operation but a leaking creation, and through none of those. */
  lemma StepOwners(vm: Vm, op: Op)
    requires Inv(vm) && Roomy(vm) && OwnersKnown(vm)
    ensures OwnersKnown(Step(vm, op)) <==> !LeaksFrames(vm, op)
  {
    hide Inv, PageIn, Alloc, ReleaseRange, Create, ReadByte, WriteByte, Roomy;
    InvShape(vm);
    if Enabled(vm, op) {
      match op
      case PageFault(i, vp) => PageInOwners(vm, i, vp);
      case AllocHeap(i, bytes) => AllocOwners(vm, i, bytes);
      case FreeHeap(i, a) =>
        if a in vm.heaps[i] { ReleaseRangeOwners(vm, i, a / PAGE_SIZE, vm.heaps[i][a]); }
      case Spawn(code) => CreateOwners(vm, code);
      case _ =>
    }
  }

  /** The process of a saved page, and of an owned one, is live. */
  lemma ClaimsAreLive(vm: Vm, i: nat)
    requires Inv(vm) && i < |vm.pids|
    ensures forall k | k in vm.disk && k.pid == vm.pids[i] :: Live(vm, i)
    ensures forall f | f in vm.owner && vm.owner[f].pid == vm.pids[i] :: Live(vm, i)
  {
    forall k | k in vm.disk && k.pid == vm.pids[i] ensures Live(vm, i) { assert Saved(vm, k); }
    forall f | f in vm.owner && vm.owner[f].pid == vm.pids[i] ensures Live(vm, i) { assert Owning(vm, f); }
  }

  ghost predicate AllExited(vm: Vm) {
    forall i: nat | i < |vm.pids| :: !Live(vm, i)
  }

  /** Once every process is gone the disk is empty, and exactly the shared frames are in use if and only if
      all frames were traceable. */
  lemma NothingLeft(vm: Vm)
    requires Inv(vm) && AllExited(vm)
    ensures vm.disk == map[]
    ensures OwnersKnown(vm) <==> forall f: nat | f < |vm.mem.used| :: vm.mem.used[f] <==> f in vm.shared
    ensures OwnersKnown(vm) <==> vm.owner == map[]
  {
    forall k | k in vm.disk ensures false {
      assert Saved(vm, k);
      var i :| 0 <= i < |vm.pids| && vm.pids[i] == k.pid;
      ClaimsAreLive(vm, i);
    }
    forall f | f in vm.owner && vm.owner[f].pid in vm.pids ensures false {
      var i :| 0 <= i < |vm.pids| && vm.pids[i] == vm.owner[f].pid;
      ClaimsAreLive(vm, i);
    }
    if f :| f in vm.owner {
      assert vm.mem.used[f] && f !in vm.shared;
    }
  }

  // ---- Over runs ---------------------------------------------------------------------------------------

  ghost predicate AlwaysKnown(vm: Vm, ops: seq<Op>)
    requires Shape(vm)
  {
    OwnersKnown(Run(vm, ops)) && (ops == [] || AlwaysKnown(vm, ops[..|ops| - 1]))
  }

  predicate LeakFree(vm: Vm, ops: seq<Op>)
    requires Shape(vm)
  {
    ops == [] || (LeakFree(vm, ops[..|ops| - 1]) && !LeaksFrames(Run(vm, ops[..|ops| - 1]), ops[|ops| - 1]))
  }

  /** Throughout a run every owned frame belongs to a process iff no creation found some frames free but fewer
      than its program has pages; and in such a run, when all processes have exited, the used frames are exactly
      the shared ones. */
  lemma {:induction false} NoLeakIff(numFrames: nat, ops: seq<Op>)
    requires NUM_SHARED <= numFrames <= MAX_FRAMES
    ensures AlwaysKnown(Boot(numFrames), ops) <==> LeakFree(Boot(numFrames), ops)
    ensures var vm := Run(Boot(numFrames), ops);
      AllExited(vm) && LeakFree(Boot(numFrames), ops) ==>
        && vm.disk == map[] && vm.owner == map[]
        && forall f: nat | f < |vm.mem.used| :: vm.mem.used[f] <==> f in vm.shared
  {
    hide Inv, Step, LeaksFrames, Boot, OwnersKnown;
    var vm0 := Boot(numFrames);
    if ops == [] {
      BootKnown(numFrames);
    } else {
      NoLeakIff(numFrames, ops[..|ops| - 1]);
      EveryRunKeepsInv(numFrames, ops[..|ops| - 1]);
      if OwnersKnown(Run(vm0, ops[..|ops| - 1])) {
        StepOwners(Run(vm0, ops[..|ops| - 1]), ops[|ops| - 1]);
      }
    }
    EveryRunKeepsInv(numFrames, ops);
    if AllExited(Run(vm0, ops)) {
      NothingLeft(Run(vm0, ops));
    }
  }

  lemma BootKnown(numFrames: nat)
    requires NUM_SHARED <= numFrames <= MAX_FRAMES
    ensures OwnersKnown(Boot(numFrames))
  {}
}
