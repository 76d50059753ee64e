/** When the owner map is the exact inverse of the page tables. The source loses this where MapSharedMem maps a
    region over a resident page, and where a creation runs out of frames half way. */
module OwnerMap {
  import opened Basics
  import opened Lru
  import opened Memory
  import opened Paging
  import opened FrameInvariant
  import opened PagingRuns
  import opened FlatMemory
  import opened Leaks

  /** Some process maps page k to frame f, which is not a shared one. */
  ghost predicate MapsPrivately(vm: Vm, k: Key, f: nat)
    requires Shape(vm)
  {
    && f !in vm.shared
    && exists i :: 0 <= i < |vm.pids| && vm.pids[i] == k.pid
                   && Entry(vm.mem, i, k.vpage).isValid && Entry(vm.mem, i, k.vpage).physPage == f
  }

  /** A frame is recorded for a page exactly when a page table maps that page to it. */
  ghost predicate OwnersExact(vm: Vm)
    requires Shape(vm)
  {
    forall f: nat, k: Key :: (f in vm.owner && vm.owner[f] == k) <==> MapsPrivately(vm, k, f)
  }

  /** The page that frame f is recorded for is mapped to f, in whichever process has that pid. */
  ghost predicate Mapped(vm: Vm, f: nat)
    requires Shape(vm) && f in vm.owner
  {
    var k := vm.owner[f];
    forall i | 0 <= i < |vm.pids| && vm.pids[i] == k.pid :: Entry(vm.mem, i, k.vpage).physPage == f
  }

  ghost predicate OwnersMapped(vm: Vm)
    requires Shape(vm)
  {
    forall f | f in vm.owner :: Mapped(vm, f)
  }

  /** An inverse can fail in two ways: a recorded page is mapped elsewhere, or no process has the recorded pid. */
  lemma ExactIffMappedAndKnown(vm: Vm)
    requires Inv(vm)
    ensures Shape(vm) && (OwnersExact(vm) <==> OwnersMapped(vm) && OwnersKnown(vm))
  {
    if OwnersExact(vm) {
      forall f | f in vm.owner ensures Mapped(vm, f) && vm.owner[f].pid in vm.pids { assert MapsPrivately(vm, vm.owner[f], f); }
    }
    if OwnersMapped(vm) && OwnersKnown(vm) {
      forall f: nat, k: Key ensures (f in vm.owner && vm.owner[f] == k) <==> MapsPrivately(vm, k, f) {
        MappedAndKnown(vm, f, k);
      }
    }
  }

  lemma MappedAndKnown(vm: Vm, f: nat, k: Key)
    requires Inv(vm) && Shape(vm) && OwnersMapped(vm) && OwnersKnown(vm)
    ensures (f in vm.owner && vm.owner[f] == k) <==> MapsPrivately(vm, k, f)
  {
    if f in vm.owner && vm.owner[f] == k {
      assert Mapped(vm, f) && Owning(vm, f);
      var i :| 0 <= i < |vm.pids| && vm.pids[i] == k.pid;
    }
    if MapsPrivately(vm, k, f) {
      var i :| 0 <= i < |vm.pids| && vm.pids[i] == k.pid && Entry(vm.mem, i, k.vpage).isValid && Entry(vm.mem, i, k.vpage).physPage == f;
      assert Backed(vm, i, k.vpage);
    }
  }

  /** MapSharedMem is about to map a region over a page that is resident in an owned frame. */
  predicate Strands(vm: Vm, op: Op)
    requires Shape(vm)
  {
    op.MapRegion? && Enabled(vm, op) &&
    var e := Entry(vm.mem, op.proc, SHARED_PAGE + op.region); e.isValid && e.physPage in vm.owner
  }

  /** Where no entry moved to another frame and nobody new is owned, the map stays exact. */
  lemma SameEntries(vm: Vm, r: Vm)
    requires Shape(vm) && Shape(r) && OwnersMapped(vm) && r.pids == vm.pids
    requires forall f | f in r.owner :: f in vm.owner && r.owner[f] == vm.owner[f]
    requires forall i: nat, q: nat | i < |vm.pids| :: Entry(r.mem, i, q).physPage == Entry(vm.mem, i, q).physPage
    ensures OwnersMapped(r)
  {
    forall f | f in r.owner ensures Mapped(r, f) { assert Mapped(vm, f); }
  }

  // ---- Page faults and allocation --------------------------------------------------------------------

  lemma TakeFrameMapped(vm: Vm)
    requires Inv(vm) && CanTake(vm) && OwnersMapped(vm)
    ensures OwnersMapped(TakeFrame(vm))
  {
    var r := TakeFrame(vm);
    if HasFree(vm.mem) {
      SameEntries(vm, r);
    } else {
      var p, k := EvictEffect(vm);
      forall f | f in r.owner ensures Mapped(r, f) { assert Mapped(vm, f) && vm.owner[f] != k; }
    }
  }

  /** A page that is not mapped has no owned frame, so installing it makes it the owner of exactly one. */
  lemma InstallMapped(vm: Vm, i: nat, vp: nat, p: nat, content: Page)
    requires InvHole(vm, {p}) && i < |vm.pids| && vp < |vm.mem.tables[i]| && !Entry(vm.mem, i, vp).isValid
    requires OwnersMapped(vm)
    ensures OwnersMapped(Install(vm, i, vp, p, content))
  {
    var r := Install(vm, i, vp, p, content);
    InstallEntries(vm, i, vp, p, content);
    forall f | f in r.owner ensures Mapped(r, f) {
      if f != p { assert Owning(vm, f) && Mapped(vm, f); }
    }
  }

  lemma PageInMapped(vm: Vm, i: nat, vp: nat)
    requires Inv(vm) && i < |vm.pids| && Live(vm, i) && CanTake(vm) && !Entry(vm.mem, i, vp).isValid
    requires OwnersMapped(vm)
    ensures OwnersMapped(PageIn(vm, i, vp))
  {
    hide InvHole, CanTake, TakeFrame, Install, GrowTable, OwnersMapped, PageIn;
    InvShape(vm);
    var vm1, k := vm.(mem := GrowTable(vm.mem, i, vp + 1)), KeyOf(vm, i, vp);
    GrowInv(vm, i, vp + 1);
    GrowsTo(vm, i, vp + 1);
    SameEntries(vm, vm1);
    TakeFrameInv(vm1);
    TakeFrameMapped(vm1);
    TakeFrameKeeps(vm1, i, vp);
    PageInForm(vm, i, vp);
    var vm2, p := TakeFrame(vm1), TakenFrame(vm1);
    var vm3 := vm2.(disk := vm2.disk - {k});
    ForgetSavedInv(vm2, k, {p});
    SameEntries(vm2, vm3);
    InstallMapped(vm3, i, vp, p, View(vm, i, vp));
  }

  lemma {:induction false} GrabRangeMapped(vm: Vm, i: nat, start: nat, n: nat)
    requires Inv(vm) && i < |vm.pids| && start + n <= |vm.mem.tables[i]| && CanTake(vm) && RunFree(vm, i, start, n)
    requires OwnersMapped(vm)
    ensures OwnersMapped(GrabRange(vm, i, start, n))
  {
    hide Inv, CanTake, Grab, PageIn, RunFree, OwnersMapped, PageFree;
    InvShape(vm);
    if n > 0 {
      var v, q := GrabRange(vm, i, start, n - 1), start + n - 1;
      GrabNext(vm, i, start, n);
      GrabRangeMapped(vm, i, start, n - 1);
      FreeIsUnmapped(v, i, q);
      GrabIsPageIn(v, i, q);
      PageInMapped(v, i, q);
    }
  }

  lemma AllocMapped(vm: Vm, i: nat, bytes: int)
    requires Inv(vm) && i < |vm.pids| && Live(vm, i) && CanTake(vm) && OwnersMapped(vm)
    ensures OwnersMapped(Alloc(vm, i, bytes).0)
  {
    hide Inv, CanTake, Alloc, GrabRange, RunFree, FirstFit;
    InvShape(vm);
    AllocForm(vm, i, bytes);
    var (vm1, start, n) := AllocPlan(vm, i, bytes);
    PlanEntries(vm, i, bytes);
    SameEntries(vm, vm1);
    GrabRangeMapped(vm1, i, start, n);
    SameEntries(GrabRange(vm1, i, start, n), Alloc(vm, i, bytes).0);
  }

  lemma PlanEntries(vm: Vm, i: nat, bytes: int)
    requires Shape(vm) && i < |vm.pids|
    ensures var r := AllocPlan(vm, i, bytes).0;
      r.owner == vm.owner && forall j: nat, q: nat :: Entry(r.mem, j, q) == Entry(vm.mem, j, q)
  {
    hide FirstFit;
  }

  // ---- The other operations --------------------------------------------------------------------------

  lemma ReleaseMapped(vm: Vm, i: nat, vp: nat)
    requires Inv(vm) && i < |vm.pids| && !InSharedWindow(vp) && OwnersMapped(vm)
    ensures OwnersMapped(Release(vm, i, vp))
  {
    var r := Release(vm, i, vp);
    if vp < |vm.mem.tables[i]| {
      ReleaseEffect(vm, i, vp);
      hide Release;
      forall f | f in r.owner ensures Mapped(r, f) { assert Mapped(vm, f) && Owning(vm, f); }
    }
  }

  lemma {:induction false} ReleaseRangeMapped(vm: Vm, i: nat, start: nat, n: nat)
    requires Inv(vm) && i < |vm.pids| && start + n <= HEAP_LAST + 1 && OwnersMapped(vm)
    ensures OwnersMapped(ReleaseRange(vm, i, start, n))
  {
    hide Inv, Release, OwnersMapped;
    InvShape(vm);
    if n > 0 {
      ReleaseRangeMapped(vm, i, start, n - 1);
      ReleaseRangeInv(vm, i, start, n - 1);
      ReleaseMapped(ReleaseRange(vm, i, start, n - 1), i, start + n - 1);
    }
  }

  lemma FreeMapped(vm: Vm, i: nat, addr: nat)
    requires Inv(vm) && i < |vm.pids| && OwnersMapped(vm)
    ensures OwnersMapped(Free(vm, i, addr))
  {
    if addr in vm.heaps[i] {
      assert HeapOk(vm.heaps[i]);
      ReleaseRangeMapped(vm, i, addr / PAGE_SIZE, vm.heaps[i][addr]);
      SameEntries(ReleaseRange(vm, i, addr / PAGE_SIZE, vm.heaps[i][addr]), Free(vm, i, addr));
    }
  }

  /** Mapping a region keeps the map exact iff the page it is mapped over is in no owned frame. */
  lemma MapSharedMapped(vm: Vm, i: nat, region: nat)
    requires Inv(vm) && i < |vm.pids| && Live(vm, i) && region < |vm.shared| && OwnersMapped(vm)
    ensures OwnersMapped(MapShared(vm, i, region)) <==>
            !(Entry(vm.mem, i, SHARED_PAGE + region).isValid && Entry(vm.mem, i, SHARED_PAGE + region).physPage in vm.owner)
  {
    var r, vp := MapShared(vm, i, region), SHARED_PAGE + region;
    MapSharedEffect(vm, i, region);
    hide MapShared;
    assert Backed(vm, i, vp);
    var e := Entry(vm.mem, i, vp);
    if e.isValid && e.physPage in vm.owner {
      assert vm.owner[e.physPage] == KeyOf(vm, i, vp);
      assert !Mapped(r, e.physPage);
    } else {
      forall f | f in r.owner ensures Mapped(r, f) { assert Mapped(vm, f) && Owning(vm, f); }
    }
  }

  lemma CleanupMapped(vm: Vm, i: nat)
    requires Inv(vm) && i < |vm.pids| && OwnersMapped(vm)
    ensures OwnersMapped(Cleanup(vm, i))
  {
    var r := Cleanup(vm, i);
    forall j: nat, q: nat | j < |vm.pids| && j != i ensures Entry(r.mem, j, q) == Entry(vm.mem, j, q) {}
    forall f | f in r.owner ensures Mapped(r, f) { assert Mapped(vm, f); }
  }

  lemma AccessMapped(vm: Vm, i: nat, va: Word, b: Byte)
    requires Shape(vm) && i < |vm.pids| && OwnersMapped(vm)
    ensures OwnersMapped(vm.(mem := ReadByte(vm.mem, i, vm.sizes[i], va).mem))
    ensures OwnersMapped(vm.(mem := WriteByte(vm.mem, i, vm.sizes[i], va, b).mem))
  {
    WriteEffect(vm.mem, i, vm.sizes[i], va, b);
    SameEntries(vm, vm.(mem := ReadByte(vm.mem, i, vm.sizes[i], va).mem));
    SameEntries(vm, vm.(mem := WriteByte(vm.mem, i, vm.sizes[i], va, b).mem));
  }

  // ---- Creation ----------------------------------------------------------------------------------------

  lemma AddProcessMapped(vm: Vm, codeSize: nat)
    requires Inv(vm) && OwnersMapped(vm)
    ensures OwnersMapped(AddProcess(vm, codeSize))
  {
    var r := AddProcess(vm, codeSize);
    forall i: nat, q: nat | i < |vm.pids| ensures Entry(r.mem, i, q) == Entry(vm.mem, i, q) {}
    forall f | f in r.owner ensures Mapped(r, f) { assert Mapped(vm, f) && Owning(vm, f); }
  }

  lemma {:induction false} LoadPagesMapped(vm: Vm, i: nat, vp: nat, n: nat)
    requires Inv(vm) && i < |vm.pids| && vp + n <= |vm.mem.tables[i]| && OwnersMapped(vm)
    requires forall q: nat :: PageFree(vm, i, q)
    ensures OwnersMapped(LoadPages(vm, i, vp, n).0)
  {
    hide Inv, Grab, PageIn, OwnersMapped;
    InvShape(vm);
    if n > 0 {
      LoadPagesMapped(vm, i, vp, n - 1);
      LoadPagesInv(vm, i, vp, n - 1);
      LoadPagesEffect(vm, i, vp, n - 1);
      var (v, ok) := LoadPages(vm, i, vp, n - 1);
      if ok && HasFree(v.mem) {
        var q := vp + n - 1;
        assert PageFree(vm, i, q);
        assert PageFree(v, i, q);
        FreeMeansRoom(v);
        LoadStepIsGrab(vm, i, vp, n);
        GrabIsPageIn(v, i, q);
        PageInMapped(v, i, q);
      }
    }
  }

  lemma DropLastMapped(vm: Vm)
    requires Shape(vm) && |vm.pids| > 0 && OwnersMapped(vm)
    ensures OwnersMapped(DropLast(vm))
  {
    var r := DropLast(vm);
    forall i: nat, q: nat | i < |r.pids| ensures Entry(r.mem, i, q) == Entry(vm.mem, i, q) {}
    forall f | f in r.owner ensures Mapped(r, f) { assert Mapped(vm, f); }
  }

  lemma CreateMapped(vm: Vm, code: seq<Byte>)
    requires Inv(vm) && |code| <= 0xE000 && OwnersMapped(vm)
    ensures OwnersMapped(Create(vm, code).0)
  {
    hide Inv, LoadPages, WriteCode, OwnersMapped, AddProcess, DropLast, PageFree;
    InvShape(vm);
    AddedTable(vm, |code|);
    var i, vm1 := |vm.pids|, AddProcess(vm, |code|);
    AddProcessInv(vm, |code|);
    AddProcessMapped(vm, |code|);
    if |code| == 0 {
      DropLastMapped(vm1);
    } else {
      var n := (CODE_BASE + |code| - 1) / PAGE_SIZE - CODE_PAGE + 1;
      LoadPagesInv(vm1, i, CODE_PAGE, n);
      LoadPagesEffect(vm1, i, CODE_PAGE, n);
      LoadPagesMapped(vm1, i, CODE_PAGE, n);
      var (vm2, ok) := LoadPages(vm1, i, CODE_PAGE, n);
      if ok {
        ValidInRange(vm2, i);
        WriteCodeEffect(vm2.mem, i, code, |code|);
        SameEntries(vm2, vm2.(mem := WriteCode(vm2.mem, i, |code|, code, |code|).mem));
      } else {
        DropLastMapped(vm2);
      }
    }
  }

  lemma AddedTable(vm: Vm, codeSize: nat)
    requires Shape(vm)
    ensures var r, n := AddProcess(vm, codeSize), |vm.pids|; |r.pids| == n + 1 && |r.mem.tables[n]| == TABLE_PAGES
  {}

  // ---- Steps and runs ----------------------------------------------------------------------------------

  /** One operation keeps recorded pages mapped where they are recorded iff it does not map a region over a page
      resident in an owned frame. */
  lemma MappedIffNotStranded(vm: Vm, op: Op)
    requires Inv(vm) && Roomy(vm) && OwnersMapped(vm)
    ensures OwnersMapped(Step(vm, op)) <==> !Strands(vm, op)
  {
    hide Inv, Roomy, OwnersMapped, PageIn, Alloc, Free, MapShared, Cleanup, Create, ReadByte, WriteByte;
    InvShape(vm);
    if Enabled(vm, op) {
      match op
      case Read(i, va) => AccessMapped(vm, i, va, 0);
      case Write(i, va, b) => AccessMapped(vm, i, va, b);
      case PageFault(i, vp) => PageInMapped(vm, i, vp);
      case AllocHeap(i, bytes) => AllocMapped(vm, i, bytes);
      case FreeHeap(i, addr) => FreeMapped(vm, i, addr);
      case MapRegion(i, r) => MapSharedMapped(vm, i, r);
      case Exit(i) => CleanupMapped(vm, i);
      case Spawn(code) => CreateMapped(vm, code);
    }
  }

  /** One operation keeps the owner map the exact inverse of the page tables iff it neither maps a region over a page
      resident in an owned frame nor is a creation that finds some frames free but too few for its program. */
  lemma StepExact(vm: Vm, op: Op)
    requires Inv(vm) && Roomy(vm) && Shape(vm) && OwnersExact(vm)
    ensures OwnersExact(Step(vm, op)) <==> !Strands(vm, op) && !LeaksFrames(vm, op)
  {
    hide Inv, Roomy, Step, OwnersExact, OwnersMapped, OwnersKnown, Strands, LeaksFrames;
    ExactIffMappedAndKnown(vm);
    MappedIffNotStranded(vm, op);
    StepOwners(vm, op);
    StepInv(vm, op);
    ExactIffMappedAndKnown(Step(vm, op));
  }

  ghost predicate AlwaysExact(vm: Vm, ops: seq<Op>)
    requires Shape(vm)
  {
    OwnersExact(Run(vm, ops)) && (ops == [] || AlwaysExact(vm, ops[..|ops| - 1]))
  }

  predicate NothingStranded(vm: Vm, ops: seq<Op>)
    requires Shape(vm)
  {
    ops == [] || (NothingStranded(vm, ops[..|ops| - 1]) && !Strands(Run(vm, ops[..|ops| - 1]), ops[|ops| - 1]))
  }

  /** Throughout a run the owner map is the exact inverse of the page tables iff no region was mapped over a page
      resident in an owned frame and no creation found some frames free but too few. */
  lemma {:induction false} AlwaysExactIff(numFrames: nat, ops: seq<Op>)
    requires NUM_SHARED <= numFrames <= MAX_FRAMES
    ensures AlwaysExact(Boot(numFrames), ops) <==> NothingStranded(Boot(numFrames), ops) && LeakFree(Boot(numFrames), ops)
  {
    hide Inv, Roomy, Step, Strands, LeaksFrames, Boot, OwnersExact;
    var vm0 := Boot(numFrames);
    if ops == [] {
      BootExact(numFrames);
    } else {
      var before := ops[..|ops| - 1];
      AlwaysExactIff(numFrames, before);
      EveryRunKeepsInv(numFrames, before);
      if OwnersExact(Run(vm0, before)) {
        StepExact(Run(vm0, before), ops[|ops| - 1]);
      }
    }
  }

  /** Leaks apart, recorded pages stay mapped where they are recorded while nothing is stranded. */
  lemma {:induction false} UnstrandedIsMapped(numFrames: nat, ops: seq<Op>)
    requires NUM_SHARED <= numFrames <= MAX_FRAMES && NothingStranded(Boot(numFrames), ops)
    ensures OwnersMapped(Run(Boot(numFrames), ops))
  {
    hide Inv, Roomy, Step, Strands, Boot, OwnersMapped, OwnersExact;
    var vm0 := Boot(numFrames);
    if ops == [] {
      BootExact(numFrames);
      BootInv(numFrames);
      ExactIffMappedAndKnown(vm0);
    } else {
      UnstrandedIsMapped(numFrames, ops[..|ops| - 1]);
      EveryRunKeepsInv(numFrames, ops[..|ops| - 1]);
      MappedIffNotStranded(Run(vm0, ops[..|ops| - 1]), ops[|ops| - 1]);
    }
  }

  lemma BootExact(numFrames: nat)
    requires NUM_SHARED <= numFrames <= MAX_FRAMES
    ensures OwnersExact(Boot(numFrames))
  {
    BootInv(numFrames);
    BootKnown(numFrames);
    ExactIffMappedAndKnown(Boot(numFrames));
  }
}
