/** Live allocations stay apart exactly as long as no allocated page is evicted while clean; freed
    space can be allocated again at once. */
module HeapDisjointness {
  import opened Basics
  import opened Lru
  import opened Memory
  import opened Paging
  import opened FrameInvariant
  import opened PagingRuns
  import opened FlatMemory
  import opened StackProperty
  import opened HeapAllocator
  import opened DiskRoundTrip

  type Heaps = seq<map<nat, nat>>

  /** The allocation at address a includes page q. */
  predicate Covers(h: map<nat, nat>, a: nat, q: nat) {
    a in h && a / PAGE_SIZE <= q < a / PAGE_SIZE + h[a]
  }

  /** No allocated page looks unused to the allocator. */
  ghost predicate AllInUse(vm: Vm)
    requires Shape(vm)
  {
    forall j, a, q | 0 <= j < |vm.pids| && Covers(vm.heaps[j], a, q) :: !PageFree(vm, j, q)
  }

  ghost predicate Disjoint(vm: Vm) {
    forall j, a, b, q | 0 <= j < |vm.heaps| && Covers(vm.heaps[j], a, q) && Covers(vm.heaps[j], b, q) :: a == b
  }

  /** A successful Alloc whose pages meet an allocation its process has already. */
  ghost predicate HandsOutLive(vm: Vm, op: Op)
    requires Shape(vm)
  {
    op.AllocHeap? && Enabled(vm, op) &&
    var (r, addr) := Alloc(vm, op.proc, op.bytes);
    op.proc < |r.heaps| && addr != 0 &&
    exists a, q :: Covers(vm.heaps[op.proc], a, q) && Covers(r.heaps[op.proc], addr, q)
  }

  /** A successful Alloc that returns the address of an allocation its process has already, whose record is lost. */
  predicate Overwrites(vm: Vm, op: Op)
    requires Shape(vm)
  {
    op.AllocHeap? && Enabled(vm, op) &&
    var addr := Alloc(vm, op.proc, op.bytes).1; addr != 0 && addr in vm.heaps[op.proc]
  }

  /** Taking a frame here does not evict an allocated page that is clean. */
  ghost predicate SparesHeaps(vm: Vm, heaps: Heaps)
    requires Shape(vm) && CanTake(vm) && |heaps| == |vm.pids|
  {
    HasFree(vm.mem) ||
    forall j, a, q | 0 <= j < |heaps| && Covers(heaps[j], a, q) && Holds(vm, TakenFrame(vm), j, q) ::
      Entry(vm.mem, j, q).isDirty
  }

  ghost predicate GrabsSpareHeaps(vm: Vm, i: nat, start: nat, n: nat, heaps: Heaps)
    requires Shape(vm) && i < |vm.pids| && start + n <= |vm.mem.tables[i]| && CanTake(vm) && |heaps| == |vm.pids|
  {
    n == 0 || (GrabsSpareHeaps(vm, i, start, n - 1, heaps) && SparesHeaps(GrabRange(vm, i, start, n - 1), heaps))
  }

  /** No eviction of this operation takes an allocated clean page; an Alloc counts its own pages. */
  ghost predicate SparesOp(vm: Vm, op: Op)
    requires Shape(vm)
  {
    Enabled(vm, op) ==>
      match op
      case PageFault(i, _) => SparesHeaps(vm, vm.heaps)
      case AllocHeap(i, bytes) =>
        var (vm1, start, n) := AllocPlan(vm, i, bytes);
        i < |vm1.pids| && start + n <= |vm1.mem.tables[i]| && CanTake(vm1) && |vm1.pids| == |vm.heaps| ==>
          GrabsSpareHeaps(vm1, i, start, n, Alloc(vm, i, bytes).0.heaps)
      case _ => true
  }

  // ---- When a page looks unused ------------------------------------------------------------------

  lemma {:induction false} GrabRangeInUse(vm: Vm, i: nat, start: nat, n: nat, heaps: Heaps, j: nat, a: nat, q: nat)
    requires Inv(vm) && i < |vm.pids| && start + n <= |vm.mem.tables[i]| && CanTake(vm) && RunFree(vm, i, start, n)
    requires |heaps| == |vm.pids| && j < |heaps| && Covers(heaps[j], a, q) && !InSharedWindow(q)
    requires GrabsSpareHeaps(vm, i, start, n, heaps)
    requires !PageFree(vm, j, q) || (j == i && start <= q < start + n)
    ensures !PageFree(GrabRange(vm, i, start, n), j, q)
  {
    hide Inv, CanTake, Grab, PageIn, RunFree, PageFree;
    InvShape(vm);
    if n > 0 {
      GrabNext(vm, i, start, n);
      var v, vp := GrabRange(vm, i, start, n - 1), start + n - 1;
      FreeIsUnmapped(v, i, vp);
      GrabIsPageIn(v, i, vp);
      PageInFree(v, i, vp, j, q);
      if !(i == j && q == vp) {
        GrabRangeInUse(vm, i, start, n - 1, heaps, j, a, q);
      }
    }
  }

  /** A clean allocated page evicted during an allocation looks unused afterwards. */
  lemma {:induction false} UnsparingGrabsFree(vm: Vm, i: nat, start: nat, n: nat, heaps: Heaps)
    returns (j: nat, a: nat, q: nat)
    requires Inv(vm) && i < |vm.pids| && start + n <= |vm.mem.tables[i]| && CanTake(vm) && RunFree(vm, i, start, n)
    requires |heaps| == |vm.pids| && !GrabsSpareHeaps(vm, i, start, n, heaps)
    requires forall h | h in heaps :: HeapOk(h)
    ensures j < |heaps| && Covers(heaps[j], a, q) && PageFree(GrabRange(vm, i, start, n), j, q)
    ensures PageFree(vm, j, q) ==> i == j && start <= q < start + n
  {
    hide Inv, CanTake, Grab, PageIn, PageFree;
    InvShape(vm);
    var v, vp := GrabRange(vm, i, start, n - 1), start + n - 1;
    assert PageFree(vm, i, vp);
    GrabNext(vm, i, start, n);
    FreeIsUnmapped(v, i, vp);
    GrabIsPageIn(v, i, vp);
    if !GrabsSpareHeaps(vm, i, start, n - 1, heaps) {
      j, a, q := UnsparingGrabsFree(vm, i, start, n - 1, heaps);
      assert HeapOk(heaps[j]);
      PageInFree(v, i, vp, j, q);
    } else {
      j, a, q :| 0 <= j < |heaps| && Covers(heaps[j], a, q) && Holds(v, TakenFrame(v), j, q) && !Entry(v.mem, j, q).isDirty;
      assert HeapOk(heaps[j]);
      PageInFree(v, i, vp, j, q);
      HeldIsInUse(v, TakenFrame(v), j, q);
      assert !(i == j && q == vp);
      if PageFree(vm, j, q) && !(i == j && start <= q < start + n) {
        GrabRangeKeepsFree(vm, i, start, n - 1, j, q);
      }
    }
  }

  lemma HeldIsInUse(vm: Vm, p: nat, j: nat, q: nat)
    requires Inv(vm) && j < |vm.pids| && Holds(vm, p, j, q)
    ensures !PageFree(vm, j, q)
  {
    assert Owning(vm, p);
  }

  // ---- Other operations -------------------------------------------------------------------------------

  lemma ReleaseFree(vm: Vm, i: nat, vp: nat, j: nat, q: nat)
    requires Inv(vm) && i < |vm.pids| && j < |vm.pids| && !InSharedWindow(vp)
    ensures PageFree(Release(vm, i, vp), j, q) <==> PageFree(vm, j, q) || (i == j && q == vp)
  {
    DistinctKeys(vm, i, vp, j, q);
    if vp < |vm.mem.tables[i]| {
      ReleaseEffect(vm, i, vp);
      hide Release;
    } else {
      assert KeyOf(vm, i, vp) in vm.disk ==> Saved(vm, KeyOf(vm, i, vp));
    }
  }

  lemma {:induction false} ReleaseRangeFree(vm: Vm, i: nat, start: nat, n: nat, j: nat, q: nat)
    requires Inv(vm) && i < |vm.pids| && j < |vm.pids| && start + n <= HEAP_LAST + 1
    ensures PageFree(ReleaseRange(vm, i, start, n), j, q) <==>
              PageFree(vm, j, q) || (i == j && start <= q < start + n)
  {
    hide Inv, Release, PageFree;
    InvShape(vm);
    if n > 0 {
      ReleaseRangeFree(vm, i, start, n - 1, j, q);
      ReleaseRangeInv(vm, i, start, n - 1);
      ReleaseFree(ReleaseRange(vm, i, start, n - 1), i, start + n - 1, j, q);
    }
  }

  lemma FreeKeepsInUse(vm: Vm, i: nat, addr: nat)
    requires Inv(vm) && i < |vm.pids| && AllInUse(vm) && Disjoint(vm)
    ensures AllInUse(Free(vm, i, addr))
  {
    hide Inv, PageFree, ReleaseRange;
    InvShape(vm);
    var r := Free(vm, i, addr);
    if addr in vm.heaps[i] {
      HeapsOk(vm, i);
      forall j, a, q | 0 <= j < |r.pids| && Covers(r.heaps[j], a, q) ensures !PageFree(r, j, q) {
        assert Covers(vm.heaps[j], a, q);
        ReleaseRangeFree(vm, i, addr / PAGE_SIZE, vm.heaps[i][addr], j, q);
        assert i == j && Covers(vm.heaps[i], addr, q) ==> a == addr;
        FreeIgnoresHeaps(ReleaseRange(vm, i, addr / PAGE_SIZE, vm.heaps[i][addr]), r.heaps, j, q);
      }
    }
  }

  lemma HeapsOk(vm: Vm, i: nat)
    requires Inv(vm) && i < |vm.heaps|
    ensures HeapOk(vm.heaps[i])
  {}

  lemma FreeIgnoresHeaps(vm: Vm, heaps: Heaps, j: nat, q: nat)
    requires j < |vm.pids|
    ensures PageFree(vm.(heaps := heaps), j, q) == PageFree(vm, j, q)
  {}

  lemma FaultInUse(vm: Vm, i: nat, vp: nat)
    requires Inv(vm) && i < |vm.pids| && Live(vm, i) && CanTake(vm) && !Entry(vm.mem, i, vp).isValid && AllInUse(vm)
    ensures PageIn(vm, i, vp).heaps == vm.heaps
    ensures AllInUse(PageIn(vm, i, vp)) <==> SparesHeaps(vm, vm.heaps)
  {
    var r := PageIn(vm, i, vp);
    PageInHeaps(vm, i, vp);
    hide PageFree, PageIn;
    if SparesHeaps(vm, vm.heaps) {
      forall j, a, q | 0 <= j < |r.pids| && Covers(r.heaps[j], a, q) ensures !PageFree(r, j, q) {
        assert HeapOk(vm.heaps[j]);
        PageInFree(vm, i, vp, j, q);
      }
    } else {
      var j, a, q :| 0 <= j < |vm.heaps| && Covers(vm.heaps[j], a, q) && Holds(vm, TakenFrame(vm), j, q) && !Entry(vm.mem, j, q).isDirty;
      assert HeapOk(vm.heaps[j]);
      assert Owning(vm, TakenFrame(vm));
      PageInFree(vm, i, vp, j, q);
    }
  }

  lemma PageInHeaps(vm: Vm, i: nat, vp: nat)
    requires Shape(vm) && i < |vm.pids| && CanTake(vm)
    ensures PageIn(vm, i, vp).heaps == vm.heaps
  {}

  lemma AllocRecords(vm: Vm, i: nat, bytes: int)
    requires Inv(vm) && i < |vm.pids| && Live(vm, i) && CanTake(vm)
    ensures var (r, addr) := Alloc(vm, i, bytes);
      var (_, start, n) := AllocPlan(vm, i, bytes);
      if n == 0 then addr == 0 && r.heaps == vm.heaps
      else addr == start * PAGE_SIZE && addr != 0 && r.heaps == vm.heaps[i := Record(vm.heaps[i], addr, n)]
  {
    hide Inv, GrabRange, FirstFit, CanTake, RunFree;
    InvShape(vm);
    AllocForm(vm, i, bytes);
    FirstFitInHeap(vm.(mem := GrowTable(vm.mem, i, HEAP_LAST + 1)), i, PagesNeeded(bytes), HEAP_FIRST);
  }

  lemma AllocIsEnabled(vm: Vm, i: nat, bytes: int)
    requires Shape(vm) && i < |vm.pids| && Live(vm, i) && CanTake(vm)
    ensures Enabled(vm, AllocHeap(i, bytes))
  {}

  /** A new allocation meets a live one exactly where the unused range Alloc picks does. */
  lemma AllocMeets(vm: Vm, i: nat, bytes: int)
    requires Inv(vm) && i < |vm.pids| && Live(vm, i) && CanTake(vm)
    ensures var (_, start, n) := AllocPlan(vm, i, bytes);
      HandsOutLive(vm, AllocHeap(i, bytes)) <==> exists a: nat, q: nat :: Covers(vm.heaps[i], a, q) && start <= q < start + n
  {
    hide Inv, Alloc, AllocPlan, CanTake, Live;
    InvShape(vm);
    AllocRecords(vm, i, bytes);
    var (r, addr) := Alloc(vm, i, bytes);
    var (_, start, n) := AllocPlan(vm, i, bytes);
    AllocIsEnabled(vm, i, bytes);
    if n > 0 {
      forall q: nat ensures Covers(r.heaps[i], addr, q) <==> start <= q < start + n {}
    }
  }

  /** Alloc picks unused pages, so it meets no allocation while all allocated pages are in use. */
  lemma InUseIsNotHandedOut(vm: Vm, op: Op)
    requires Inv(vm) && AllInUse(vm)
    ensures Shape(vm) && !HandsOutLive(vm, op)
  {
    hide Inv, GrabRange, CanTake, RunFree, PageFree, AllocPlan, Alloc;
    InvShape(vm);
    if HandsOutLive(vm, op) {
      var i, bytes := op.proc, op.bytes;
      AllocForm(vm, i, bytes);
      AllocMeets(vm, i, bytes);
      var (vm1, start, n) := AllocPlan(vm, i, bytes);
      var a: nat, q: nat :| Covers(vm.heaps[i], a, q) && start <= q < start + n;
      RangeIsFree(vm1, i, start, n, q);
      PlanFree(vm, i, bytes, i, q);
    }
  }

  /** Records stay disjoint and none is lost exactly when the new allocation meets no live one. */
  lemma AllocIsDisjoint(vm: Vm, i: nat, bytes: int)
    requires Inv(vm) && i < |vm.pids| && Live(vm, i) && CanTake(vm) && Disjoint(vm)
    ensures Disjoint(Alloc(vm, i, bytes).0) && !Overwrites(vm, AllocHeap(i, bytes))
            <==> !HandsOutLive(vm, AllocHeap(i, bytes))
  {
    hide Inv, Alloc, AllocPlan, CanTake, HandsOutLive, Live;
    InvShape(vm);
    HeapsOk(vm, i);
    AllocRecords(vm, i, bytes);
    AllocMeets(vm, i, bytes);
    var (r, addr) := Alloc(vm, i, bytes);
    var (_, start, n) := AllocPlan(vm, i, bytes);
    AllocIsEnabled(vm, i, bytes);
    if n > 0 {
      if addr in vm.heaps[i] {
        assert Covers(vm.heaps[i], addr, start);
      } else {
        RecordCovers(vm.heaps[i], start, n);
        RecordedDisjoint(vm, r, i, start, n);
      }
    }
  }

  lemma RecordedDisjoint(vm: Vm, r: Vm, i: nat, start: nat, n: nat)
    requires Disjoint(vm) && i < |vm.heaps| && start * PAGE_SIZE !in vm.heaps[i]
    requires r.heaps == vm.heaps[i := Record(vm.heaps[i], start * PAGE_SIZE, n)]
    ensures Disjoint(r) <==> !exists a: nat, q: nat :: Covers(vm.heaps[i], a, q) && start <= q < start + n
  {
    hide Covers;
    RecordCovers(vm.heaps[i], start, n);
    if a: nat, q: nat :| Covers(vm.heaps[i], a, q) && start <= q < start + n {
      assert Covers(r.heaps[i], a, q) && Covers(r.heaps[i], start * PAGE_SIZE, q);
      CoversIn(vm.heaps[i], a, q);
    } else {
      forall j: nat, a: nat, b: nat, q: nat | j < |r.heaps| && Covers(r.heaps[j], a, q) && Covers(r.heaps[j], b, q)
        ensures a == b
      {
        assert j != i ==> Covers(vm.heaps[j], a, q) && Covers(vm.heaps[j], b, q);
      }
    }
  }

  lemma CoversIn(h: map<nat, nat>, a: nat, q: nat)
    requires Covers(h, a, q)
    ensures a in h
  {}

  lemma RecordCovers(h: map<nat, nat>, start: nat, n: nat)
    requires start * PAGE_SIZE !in h
    ensures forall a: nat, q: nat :: Covers(Record(h, start * PAGE_SIZE, n), a, q) <==>
              Covers(h, a, q) || (a == start * PAGE_SIZE && start <= q < start + n)
  {}

  lemma RangeIsFree(vm: Vm, i: nat, start: nat, n: nat, q: nat)
    requires i < |vm.pids| && RunFree(vm, i, start, n) && start <= q < start + n
    ensures PageFree(vm, i, q)
  {}

  lemma AllocHeapsOk(vm: Vm, i: nat, bytes: int)
    requires Inv(vm) && i < |vm.pids| && Live(vm, i) && CanTake(vm)
    ensures Inv(Alloc(vm, i, bytes).0) && |Alloc(vm, i, bytes).0.heaps| == |vm.pids|
    ensures forall h | h in Alloc(vm, i, bytes).0.heaps :: HeapOk(h)
  {
    AllocInv(vm, i, bytes);
    AllocForm(vm, i, bytes);
  }

  /** The state and range an allocation grabs, with what they satisfy. */
  lemma SparesAllocMeans(vm: Vm, i: nat, bytes: int)
    requires Inv(vm) && i < |vm.pids| && Live(vm, i) && CanTake(vm)
    ensures var r := Alloc(vm, i, bytes).0;
      var (vm1, start, n) := AllocPlan(vm, i, bytes);
      && Shape(vm1) && i < |vm1.pids| && start + n <= |vm1.mem.tables[i]| && CanTake(vm1) && |r.heaps| == |vm1.pids|
      && (SparesOp(vm, AllocHeap(i, bytes)) <==> GrabsSpareHeaps(vm1, i, start, n, r.heaps))
  {
    hide Inv, GrabRange, CanTake, Alloc, AllocPlan, GrabsSpareHeaps;
    InvShape(vm);
    AllocForm(vm, i, bytes);
    AllocHeapsOk(vm, i, bytes);
    assert Enabled(vm, AllocHeap(i, bytes));
  }

  lemma SparingAllocPage(vm: Vm, i: nat, bytes: int, j: nat, a: nat, q: nat)
    requires Inv(vm) && i < |vm.pids| && Live(vm, i) && CanTake(vm) && AllInUse(vm)
    requires SparesOp(vm, AllocHeap(i, bytes))
    requires j < |vm.pids| && j < |Alloc(vm, i, bytes).0.heaps| && Covers(Alloc(vm, i, bytes).0.heaps[j], a, q)
    ensures j < |Alloc(vm, i, bytes).0.pids| && !PageFree(Alloc(vm, i, bytes).0, j, q)
  {
    hide Inv, Alloc, GrabRange, CanTake, PageFree, AllocPlan, RunFree, GrabsSpareHeaps, Live, SparesOp;
    InvShape(vm);
    var r := Alloc(vm, i, bytes).0;
    var (vm1, start, n) := AllocPlan(vm, i, bytes);
    AllocForm(vm, i, bytes);
    AllocHeapsOk(vm, i, bytes);
    AllocRecords(vm, i, bytes);
    SparesAllocMeans(vm, i, bytes);
    assert HeapOk(r.heaps[j]);
    assert Covers(vm.heaps[j], a, q) || (j == i && start <= q < start + n);
    PlanFree(vm, i, bytes, j, q);
    GrabRangeInUse(vm1, i, start, n, r.heaps, j, a, q);
    FreeIgnoresHeaps(GrabRange(vm1, i, start, n), r.heaps, j, q);
  }

  lemma SparingAllocInUse(vm: Vm, i: nat, bytes: int)
    requires Inv(vm) && i < |vm.pids| && Live(vm, i) && CanTake(vm) && AllInUse(vm)
    requires SparesOp(vm, AllocHeap(i, bytes))
    ensures AllInUse(Alloc(vm, i, bytes).0)
  {
    hide Inv, Alloc, CanTake, PageFree, Live, SparesOp, Covers;
    InvShape(vm);
    AllocHeapsOk(vm, i, bytes);
    var r := Alloc(vm, i, bytes).0;
    AllocForm(vm, i, bytes);
    forall j, a, q | 0 <= j < |r.pids| && Covers(r.heaps[j], a, q) ensures !PageFree(r, j, q) {
      SparingAllocPage(vm, i, bytes, j, a, q);
    }
  }

  lemma UnsparingAllocFrees(vm: Vm, i: nat, bytes: int)
    requires Inv(vm) && i < |vm.pids| && Live(vm, i) && CanTake(vm)
    requires !SparesOp(vm, AllocHeap(i, bytes))
    ensures !AllInUse(Alloc(vm, i, bytes).0)
  {
    hide Inv, Alloc, GrabRange, CanTake, PageFree, RunFree;
    InvShape(vm);
    var r := Alloc(vm, i, bytes).0;
    var (vm1, start, n) := AllocPlan(vm, i, bytes);
    AllocForm(vm, i, bytes);
    AllocHeapsOk(vm, i, bytes);
    SparesAllocMeans(vm, i, bytes);
    var j, a, q := UnsparingGrabsFree(vm1, i, start, n, r.heaps);
    FreeIgnoresHeaps(GrabRange(vm1, i, start, n), r.heaps, j, q);
  }

  lemma AllocInUse(vm: Vm, i: nat, bytes: int)
    requires Inv(vm) && i < |vm.pids| && Live(vm, i) && CanTake(vm) && AllInUse(vm)
    ensures AllInUse(Alloc(vm, i, bytes).0) <==> SparesOp(vm, AllocHeap(i, bytes))
  {
    if SparesOp(vm, AllocHeap(i, bytes)) {
      SparingAllocInUse(vm, i, bytes);
    } else {
      UnsparingAllocFrees(vm, i, bytes);
    }
  }

  lemma PlanFree(vm: Vm, i: nat, bytes: int, j: nat, q: nat)
    requires Shape(vm) && i < |vm.pids| && j < |vm.pids|
    ensures AllocPlan(vm, i, bytes).0.pids == vm.pids
    ensures PageFree(AllocPlan(vm, i, bytes).0, j, q) == PageFree(vm, j, q)
  {}

  lemma CreateFree(vm: Vm, code: seq<Byte>, j: nat, q: nat)
    requires Inv(vm) && |code| <= 0xE000 && j < |vm.pids|
    ensures var r := Create(vm, code).0;
      && (r.heaps == vm.heaps || r.heaps == vm.heaps + [map[]]) && j < |r.pids|
      && PageFree(r, j, q) == PageFree(vm, j, q)
  {
    hide Inv, LoadPages, WriteCode;
    InvShape(vm);
    var n0, vm1 := |vm.pids|, AddProcess(vm, |code|);
    AddProcessInv(vm, |code|);
    if |code| != 0 {
      var n := (CODE_BASE + |code| - 1) / PAGE_SIZE - CODE_PAGE + 1;
      LoadPagesEffect(vm1, n0, CODE_PAGE, n);
      LoadPagesInv(vm1, n0, CODE_PAGE, n);
      var (vm2, ok) := LoadPages(vm1, n0, CODE_PAGE, n);
      if ok {
        ValidInRange(vm2, n0);
        WriteCodeEffect(vm2.mem, n0, code, |code|);
      }
    }
  }

  lemma SpawnInUse(vm: Vm, code: seq<Byte>)
    requires Inv(vm) && |code| <= 0xE000 && AllInUse(vm)
    ensures AllInUse(Create(vm, code).0)
  {
    var r := Create(vm, code).0;
    hide Inv, Create, PageFree;
    InvShape(vm);
    NewHeaps(vm, code);
    forall j, a, q | 0 <= j < |r.pids| && Covers(r.heaps[j], a, q) ensures !PageFree(r, j, q) {
      CreateFree(vm, code, j, q);
      assert Covers(vm.heaps[j], a, q);
    }
  }

  lemma NewHeaps(vm: Vm, code: seq<Byte>)
    requires Inv(vm) && |code| <= 0xE000
    ensures Create(vm, code).0.heaps == vm.heaps || Create(vm, code).0.heaps == vm.heaps + [map[]]
  {
    hide LoadPages, WriteCode, Inv;
    InvShape(vm);
    var vm1, i := AddProcess(vm, |code|), |vm.pids|;
    if |code| != 0 {
      LoadPagesEffect(vm1, i, CODE_PAGE, (CODE_BASE + |code| - 1) / PAGE_SIZE - CODE_PAGE + 1);
    }
    assert vm1.heaps[..i] == vm.heaps;
  }

  lemma ExitInUse(vm: Vm, i: nat)
    requires Inv(vm) && i < |vm.pids| && AllInUse(vm)
    ensures AllInUse(Cleanup(vm, i))
  {
    var r := Cleanup(vm, i);
    forall j, a, q | 0 <= j < |r.pids| && Covers(r.heaps[j], a, q) ensures !PageFree(r, j, q) {
      assert Covers(vm.heaps[j], a, q);
      DistinctKeys(vm, i, q, j, q);
    }
  }

  lemma AccessInUse(vm: Vm, m: Mem)
    requires Shape(vm) && Shape(vm.(mem := m)) && AllInUse(vm) && |m.tables| == |vm.mem.tables|
    requires forall j: nat, q: nat :: Entry(m, j, q).isValid == Entry(vm.mem, j, q).isValid
                                      && Entry(m, j, q).physPage == Entry(vm.mem, j, q).physPage
    ensures AllInUse(vm.(mem := m))
  {
    var r := vm.(mem := m);
    forall j, a, q | 0 <= j < |r.pids| && Covers(r.heaps[j], a, q) ensures !PageFree(r, j, q) {
      assert !PageFree(vm, j, q);
    }
  }

  lemma MapSharedInUse(vm: Vm, i: nat, region: nat)
    requires Inv(vm) && i < |vm.pids| && region < NUM_SHARED && AllInUse(vm)
    ensures AllInUse(MapShared(vm, i, region))
  {
    var r := MapShared(vm, i, region);
    MapSharedEffect(vm, i, region);
    forall j, a, q | 0 <= j < |r.pids| && Covers(r.heaps[j], a, q) ensures !PageFree(r, j, q) {
      assert HeapOk(vm.heaps[j]) && !PageFree(vm, j, q);
    }
  }

  // ---- Steps and runs ------------------------------------------------------------------------------------

  /** No record appears or grows, so disjoint allocations stay so. */
  lemma FewerIsDisjoint(vm: Vm, r: Vm)
    requires Disjoint(vm) && (|r.heaps| == |vm.heaps| || |r.heaps| == |vm.heaps| + 1)
    requires forall j, a | 0 <= j < |r.heaps| && a in r.heaps[j] ::
               j < |vm.heaps| && a in vm.heaps[j] && r.heaps[j][a] == vm.heaps[j][a]
    ensures Disjoint(r)
  {
    forall j, a, b, q | 0 <= j < |r.heaps| && Covers(r.heaps[j], a, q) && Covers(r.heaps[j], b, q) ensures a == b {
      assert Covers(vm.heaps[j], a, q) && Covers(vm.heaps[j], b, q);
    }
  }

  /** Every other operation changes no record, or removes some. */
  lemma OtherRecords(vm: Vm, op: Op)
    requires Inv(vm) && !op.AllocHeap?
    ensures Shape(vm) && var r := Step(vm, op);
      && (|r.heaps| == |vm.heaps| || |r.heaps| == |vm.heaps| + 1)
      && forall j, a | 0 <= j < |r.heaps| && a in r.heaps[j] ::
           j < |vm.heaps| && a in vm.heaps[j] && r.heaps[j][a] == vm.heaps[j][a]
  {
    hide Inv, PageIn, MapShared, Create, ReleaseRange;
    InvShape(vm);
    if Enabled(vm, op) {
      if op.PageFault? {
        PageInHeaps(vm, op.proc, op.vpage);
      } else if op.MapRegion? {
        MapSharedEffect(vm, op.proc, op.region);
      } else if op.Spawn? {
        NewHeaps(vm, op.code);
      }
    }
  }

  /** Whatever the operation: the records stay disjoint and none is lost iff no live allocation is handed out. */
  lemma StepApart(vm: Vm, op: Op)
    requires Inv(vm) && Disjoint(vm)
    ensures Shape(vm) && (Disjoint(Step(vm, op)) && !Overwrites(vm, op) <==> !HandsOutLive(vm, op))
  {
    hide Inv, Disjoint, Alloc, CanTake;
    InvShape(vm);
    if op.AllocHeap? {
      if Enabled(vm, op) {
        AllocIsDisjoint(vm, op.proc, op.bytes);
      }
    } else {
      OtherRecords(vm, op);
      FewerIsDisjoint(vm, Step(vm, op));
    }
  }

  /** One operation keeps every allocated page in use iff it evicts no allocated clean page; as long as all are in
      use it hands out no live page, so allocations stay disjoint. */
  lemma StepInUse(vm: Vm, op: Op)
    requires Inv(vm) && AllInUse(vm) && Disjoint(vm)
    ensures AllInUse(Step(vm, op)) <==> SparesOp(vm, op)
    ensures Disjoint(Step(vm, op)) && !HandsOutLive(vm, op)
  {
    hide Inv, PageIn, Alloc, Free, MapShared, Cleanup, Create, AllInUse, AllocPlan, Disjoint, HandsOutLive;
    InvShape(vm);
    InUseIsNotHandedOut(vm, op);
    StepApart(vm, op);
    if Enabled(vm, op) {
      match op
      case Read(i, va) =>
        WriteReadEntries(vm, i, va, 0);
        AccessInUse(vm, ReadByte(vm.mem, i, vm.sizes[i], va).mem);
      case Write(i, va, b) =>
        WriteReadEntries(vm, i, va, b);
        AccessInUse(vm, WriteByte(vm.mem, i, vm.sizes[i], va, b).mem);
      case PageFault(i, vp) => FaultInUse(vm, i, vp);
      case AllocHeap(i, bytes) => AllocInUse(vm, i, bytes);
      case FreeHeap(i, addr) => FreeKeepsInUse(vm, i, addr);
      case MapRegion(i, r) => MapSharedInUse(vm, i, r);
      case Exit(i) => ExitInUse(vm, i);
      case Spawn(code) => SpawnInUse(vm, code);
    }
  }

  lemma WriteReadEntries(vm: Vm, i: nat, va: Word, b: Byte)
    requires Shape(vm) && i < |vm.pids|
    ensures forall j: nat, q: nat :: Entry(ReadByte(vm.mem, i, vm.sizes[i], va).mem, j, q) == Entry(vm.mem, j, q)
    ensures var m := WriteByte(vm.mem, i, vm.sizes[i], va, b).mem;
      forall j: nat, q: nat :: Entry(m, j, q).isValid == Entry(vm.mem, j, q).isValid
                               && Entry(m, j, q).physPage == Entry(vm.mem, j, q).physPage
  {
    WriteEffect(vm.mem, i, vm.sizes[i], va, b);
  }

  ghost predicate AlwaysInUse(vm: Vm, ops: seq<Op>)
    requires Shape(vm)
  {
    AllInUse(Run(vm, ops)) && (ops == [] || AlwaysInUse(vm, ops[..|ops| - 1]))
  }

  ghost predicate SparesRun(vm: Vm, ops: seq<Op>)
    requires Shape(vm)
  {
    ops == [] || (SparesRun(vm, ops[..|ops| - 1]) && SparesOp(Run(vm, ops[..|ops| - 1]), ops[|ops| - 1]))
  }

  ghost predicate NoneHandedOut(vm: Vm, ops: seq<Op>)
    requires Shape(vm)
  {
    ops == [] || (NoneHandedOut(vm, ops[..|ops| - 1]) && !HandsOutLive(Run(vm, ops[..|ops| - 1]), ops[|ops| - 1]))
  }

  /** Records are disjoint in every state and none is ever overwritten. */
  ghost predicate StayApart(vm: Vm, ops: seq<Op>)
    requires Shape(vm)
  {
    Disjoint(Run(vm, ops)) &&
    (ops == [] || (StayApart(vm, ops[..|ops| - 1]) && !Overwrites(Run(vm, ops[..|ops| - 1]), ops[|ops| - 1])))
  }

  /** Over every run: allocated pages never look unused iff none is ever evicted while clean; live allocations stay
      apart iff no Alloc hands out a page of one; and in a run of the first kind none does. */
  lemma {:induction false} AllocationsStayApart(numFrames: nat, ops: seq<Op>)
    requires NUM_SHARED <= numFrames <= MAX_FRAMES
    ensures AlwaysInUse(Boot(numFrames), ops) <==> SparesRun(Boot(numFrames), ops)
    ensures StayApart(Boot(numFrames), ops) <==> NoneHandedOut(Boot(numFrames), ops)
    ensures SparesRun(Boot(numFrames), ops) ==> NoneHandedOut(Boot(numFrames), ops) && Disjoint(Run(Boot(numFrames), ops))
  {
    hide Inv, Step, SparesOp, Boot, AllInUse, Disjoint, HandsOutLive, Overwrites;
    if ops != [] {
      AllocationsStayApart(numFrames, ops[..|ops| - 1]);
      EveryRunKeepsInv(numFrames, ops[..|ops| - 1]);
      var vm := Run(Boot(numFrames), ops[..|ops| - 1]);
      if Disjoint(vm) {
        StepApart(vm, ops[|ops| - 1]);
        if AllInUse(vm) {
          StepInUse(vm, ops[|ops| - 1]);
        }
      }
    } else {
      BootHeaps(numFrames);
    }
  }

  lemma BootHeaps(numFrames: nat)
    requires NUM_SHARED <= numFrames <= MAX_FRAMES
    ensures AllInUse(Boot(numFrames)) && Disjoint(Boot(numFrames))
  {}

  // ---- When a live page is handed out --------------------------------------------------------------------

  /** k requests for one page each. */
  function PageRequests(i: nat, k: nat): (ops: seq<Op>)
    ensures |ops| == k
  {
    seq(k, _ => AllocHeap(i, PAGE_SIZE))
  }

  lemma OneMoreRequest(vm: Vm, i: nat, k: nat)
    requires Shape(vm)
    ensures Run(vm, PageRequests(i, k + 1)) == Step(Run(vm, PageRequests(i, k)), AllocHeap(i, PAGE_SIZE))
  {
    hide Step;
    assert PageRequests(i, k + 1)[..k] == PageRequests(i, k);
  }

  ghost predicate Allocated(h: map<nat, nat>, q: nat) {
    exists a :: Covers(h, a, q)
  }

  /** The pages below q in no allocation. */
  ghost function Unallocated(h: map<nat, nat>, q: nat): set<nat> {
    set p: nat | p < q && !Allocated(h, p)
  }

  /** A one-page request gets an unused page no higher than q, in no allocation or handed out twice. */
  lemma RequestNearer(v: Vm, i: nat, a: nat, q: nat)
    requires Inv(v) && Roomy(v) && i < |v.pids| && Covers(v.heaps[i], a, q) && PageFree(v, i, q)
    requires !HandsOutLive(v, AllocHeap(i, PAGE_SIZE))
    ensures var r := Step(v, AllocHeap(i, PAGE_SIZE));
      && Inv(r) && Roomy(r) && i < |r.pids| && Covers(r.heaps[i], a, q) && PageFree(r, i, q)
      && Unallocated(r.heaps[i], q) < Unallocated(v.heaps[i], q)
  {
    hide Inv, Alloc, CanTake, GrabRange, PageFree, Unallocated, AllocPlan;
    InvShape(v);
    HeapsOk(v, i);
    assert forall b | b in v.heaps[i] :: Covers(v.heaps[i], b, b / PAGE_SIZE);
    OwnerIsLive(v, i);
    AlwaysAFrame(v);
    var op := AllocHeap(i, PAGE_SIZE);
    StepInv(v, op);
    AllocIsExact(v, i, PAGE_SIZE);
    AllocRecords(v, i, PAGE_SIZE);
    AllocMeets(v, i, PAGE_SIZE);
    AllocForm(v, i, PAGE_SIZE);
    var (r, addr) := Alloc(v, i, PAGE_SIZE);
    var (vm1, start, n) := AllocPlan(v, i, PAGE_SIZE);
    assert CeilPages(PAGE_SIZE) == 1;
    assert RunFree(v, i, q, 1);
    assert HasRun(v, i, 1, HEAP_FIRST);
    assert n == 1;
    assert !Covers(v.heaps[i], a, start) && !Allocated(v.heaps[i], start);
    assert start < q;
    PlanFree(v, i, PAGE_SIZE, i, q);
    GrabRangeKeepsFree(vm1, i, start, n, i, q);
    FreeIgnoresHeaps(GrabRange(vm1, i, start, n), r.heaps, i, q);
    FewerUnallocated(v.heaps[i], start, q);
  }

  lemma OwnerIsLive(vm: Vm, i: nat)
    requires Inv(vm) && i < |vm.pids| && vm.heaps[i] != map[]
    ensures Live(vm, i)
  {}

  lemma FewerUnallocated(h: map<nat, nat>, start: nat, q: nat)
    requires start < q && start * PAGE_SIZE !in h && !Allocated(h, start)
    ensures Unallocated(Record(h, start * PAGE_SIZE, 1), q) < Unallocated(h, q)
  {
    var g := Record(h, start * PAGE_SIZE, 1);
    assert Covers(g, start * PAGE_SIZE, start);
    assert start in Unallocated(h, q) && start !in Unallocated(g, q);
    forall p | p in Unallocated(g, q) ensures p in Unallocated(h, q) {
      forall a: nat ensures !Covers(h, a, p) { assert !Covers(g, a, p); }
    }
  }

  lemma {:induction false} RequestsReach(vm: Vm, i: nat, a: nat, q: nat, k: nat) returns (m: nat)
    requires Shape(vm)
    requires var v := Run(vm, PageRequests(i, k));
      Inv(v) && Roomy(v) && i < |v.pids| && Covers(v.heaps[i], a, q) && PageFree(v, i, q)
    ensures HandsOutLive(Run(vm, PageRequests(i, m)), AllocHeap(i, PAGE_SIZE))
    decreases Unallocated(Run(vm, PageRequests(i, k)).heaps[i], q)
  {
    hide Inv, Roomy, Run, Step, HandsOutLive, PageFree, Covers, Unallocated;
    var v := Run(vm, PageRequests(i, k));
    if HandsOutLive(v, AllocHeap(i, PAGE_SIZE)) {
      m := k;
    } else {
      RequestNearer(v, i, a, q);
      OneMoreRequest(vm, i, k);
      m := RequestsReach(vm, i, a, q, k + 1);
    }
  }

  /** Once an allocated page looks unused, its owner is handed out a live page after enough one-page requests; while
      none looks unused, the next request of any process hands out no live page. */
  lemma UnusedIsHandedOut(vm: Vm) returns (i: nat, m: nat)
    requires Inv(vm) && Roomy(vm) && Shape(vm)
    ensures AllInUse(vm) ==> forall op :: !HandsOutLive(vm, op)
    ensures !AllInUse(vm) ==> HandsOutLive(Run(vm, PageRequests(i, m)), AllocHeap(i, PAGE_SIZE))
  {
    hide Inv, Roomy, HandsOutLive, PageFree, Covers, Run;
    i, m := 0, 0;
    if AllInUse(vm) {
      forall op ensures !HandsOutLive(vm, op) { InUseIsNotHandedOut(vm, op); }
    } else {
      var j, a, q :| 0 <= j < |vm.pids| && Covers(vm.heaps[j], a, q) && PageFree(vm, j, q);
      i := j;
      assert PageRequests(i, 0) == [];
      EmptyRun(vm);
      m := RequestsReach(vm, i, a, q, 0);
    }
  }

  // ---- Reuse ---------------------------------------------------------------------------------------------

  /** Freeing an allocation makes an immediately following Alloc of the same size succeed. */
  lemma FreedSpaceIsReusable(vm: Vm, i: nat, addr: nat, bytes: nat)
    requires Inv(vm) && Roomy(vm) && i < |vm.pids| && Live(vm, i) && addr in vm.heaps[i]
    requires 0 < bytes < WORD_RANGE && CeilPages(bytes) == vm.heaps[i][addr]
    ensures var r := Free(vm, i, addr);
      Live(r, i) && CanTake(r) && Alloc(r, i, bytes).1 != 0 && Alloc(r, i, bytes).1 <= addr
  {
    hide Inv, PageFree, Free, Alloc, CanTake, RunFree, CeilPages;
    InvShape(vm);
    var r, s, n := Free(vm, i, addr), addr / PAGE_SIZE, vm.heaps[i][addr];
    FreeStaysLive(vm, i, addr);
    HeapsOk(vm, i);
    assert addr % PAGE_SIZE == 0 && HEAP_FIRST <= s && s + n <= HEAP_LAST + 1;
    FreedIsFree(vm, i, addr);
    RequestWord(bytes);
    AllocIsExact(r, i, bytes);
  }

  lemma FreeStaysLive(vm: Vm, i: nat, addr: nat)
    requires Inv(vm) && Roomy(vm) && i < |vm.pids| && Live(vm, i)
    ensures Inv(Free(vm, i, addr)) && Live(Free(vm, i, addr), i) && CanTake(Free(vm, i, addr))
  {
    FreeInv(vm, i, addr);
    HeapsOk(vm, i);
    if addr in vm.heaps[i] {
      ReleaseRangeInv(vm, i, addr / PAGE_SIZE, vm.heaps[i][addr]);
    }
    AlwaysAFrame(Free(vm, i, addr));
  }

  lemma FreedIsFree(vm: Vm, i: nat, addr: nat)
    requires Inv(vm) && i < |vm.pids| && addr in vm.heaps[i]
    ensures i < |Free(vm, i, addr).pids| && RunFree(Free(vm, i, addr), i, addr / PAGE_SIZE, vm.heaps[i][addr])
  {
    var r, s, n := Free(vm, i, addr), addr / PAGE_SIZE, vm.heaps[i][addr];
    HeapsOk(vm, i);
    hide Inv, PageFree, ReleaseRange;
    InvShape(vm);
    forall q: nat | s <= q < s + n ensures PageFree(r, i, q) {
      ReleaseRangeFree(vm, i, s, n, i, q);
      FreeIgnoresHeaps(ReleaseRange(vm, i, s, n), r.heaps, i, q);
    }
  }
}
